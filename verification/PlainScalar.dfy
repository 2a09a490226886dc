/** What yaml_parser_scan_plain_scalar reads, as a function of the characters from the first one of the
    scalar on. `indent` is one more than the level of the enclosing block. */
module PlainScalar {
  import opened Utf8
  import opened CharClass
  import F = FlowScalar

  /** The value, what is left, and whether a line was broken behind the value; or a scanner error. */
  datatype Result = Fail | Done(value: seq<Rune>, rest: seq<Rune>, broken: bool)

  function Push(p: seq<Rune>, r: Result): Result {
    match r
    case Fail => Fail
    case Done(v, rest, broken) => Done(p + v, rest, broken)
  }

  lemma PushPush(a: seq<Rune>, b: seq<Rune>, r: Result)
    ensures Push(a, Push(b, r)) == Push(a + b, r)
  {
    if r.Done? {
      assert a + (b + r.value) == a + b + r.value;
    }
  }

  lemma PushNothing(r: Result)
    ensures Push([], r) == r
  {
    if r.Done? {
      assert [] + r.value == r.value;
    }
  }

  /** Blanks, or breaks and blanks, that count only if the scalar goes on. */
  datatype Pending = Nothing | Blanks(ws: seq<Rune>) | Breaks(lead: seq<Rune>, trail: seq<Rune>)

  function PendingText(p: Pending): seq<Rune> {
    match p
    case Nothing => []
    case Blanks(ws) => ws
    case Breaks(lead, trail) => F.Join(lead, trail)
  }

  function MoreBlank(p: Pending, c: Rune): Pending {
    match p
    case Nothing => Blanks([c])
    case Blanks(ws) => Blanks(ws + [c])
    case Breaks(_, _) => p
  }

  function MoreBreak(p: Pending, b: seq<Rune>): Pending {
    match p
    case Breaks(lead, trail) => Breaks(lead, trail + b)
    case _ => Breaks(b, [])
  }

  /** At the top of the outer loop, among non-blank characters, or among blanks and breaks. */
  datatype Mode = Top | Word | Gap

  /** ',', '?', '[', ']', '{' and '}'. */
  predicate FlowEnd(c: Rune) {
    c == 0x2C || c == 0x3F || c == 0x5B || c == 0x5D || c == 0x7B || c == 0x7D
  }

  /** A ':' with a blank behind it, or in a flow collection an indicator. */
  predicate Ends(flow: bool, t: seq<Rune>) {
    (F.At(t, 0) == 0x3A && BlankZ(F.At(t, 1))) || (flow && FlowEnd(F.At(t, 0)))
  }

  predicate White(c: Rune) {
    Blank(c) || Break(c)
  }

  function Rank(m: Mode, t: seq<Rune>): nat {
    match m
    case Top => 2
    case Word => if White(F.At(t, 0)) then 1 else 0
    case Gap => if White(F.At(t, 0)) then 0 else 3
  }

  function Scan(flow: bool, indent: int, t: seq<Rune>, col: nat, m: Mode, p: Pending): Result
    decreases |t|, Rank(m, t)
  {
    var c := F.At(t, 0);
    match m
    case Top =>
      if (col == 0 && F.DocIndicator(t)) || c == 0x23 then Done([], t, p.Breaks?)
      else Scan(flow, indent, t, col, Word, p)
    case Word =>
      if White(c) then Scan(flow, indent, t, col, Gap, p)
      else if c == 0 || Ends(flow, t) then Done([], t, p.Breaks?)
      else Push(PendingText(p) + [c], Scan(flow, indent, t[1..], col + 1, Word, Nothing))
    case Gap =>
      if Blank(c) then
        if p.Breaks? && col < indent && c == TAB then Fail
        else Scan(flow, indent, t[1..], col + 1, Gap, MoreBlank(p, c))
      else if Break(c) then Scan(flow, indent, t[F.BreakLen(t)..], 0, Gap, MoreBreak(p, F.BreakText(t)))
      else if !flow && col < indent then Done([], t, p.Breaks?)
      else Scan(flow, indent, t, col, Top, p)
  }

  // ---- Single steps ----

  lemma TopStep(flow: bool, indent: int, t: seq<Rune>, col: nat, p: Pending)
    ensures Scan(flow, indent, t, col, Top, p)
         == if (col == 0 && F.DocIndicator(t)) || F.At(t, 0) == 0x23 then Done([], t, p.Breaks?)
            else Scan(flow, indent, t, col, Word, p)
  {
  }

  lemma WordStep(flow: bool, indent: int, t: seq<Rune>, col: nat, p: Pending, v: seq<Rune>)
    ensures White(F.At(t, 0)) ==> Scan(flow, indent, t, col, Word, p) == Scan(flow, indent, t, col, Gap, p)
    ensures F.At(t, 0) == 0 || Ends(flow, t) ==> Scan(flow, indent, t, col, Word, p) == Done([], t, p.Breaks?)
    ensures !BlankZ(F.At(t, 0)) && !Ends(flow, t) ==>
              Push(v, Scan(flow, indent, t, col, Word, p))
              == Push(v + PendingText(p) + [t[0]], Scan(flow, indent, t[1..], col + 1, Word, Nothing))
  {
    if !BlankZ(F.At(t, 0)) && !Ends(flow, t) {
      PushPush(v, PendingText(p) + [t[0]], Scan(flow, indent, t[1..], col + 1, Word, Nothing));
      assert v + (PendingText(p) + [t[0]]) == v + PendingText(p) + [t[0]];
    }
  }

  lemma GapStep(flow: bool, indent: int, t: seq<Rune>, col: nat, p: Pending)
    ensures Blank(F.At(t, 0)) ==>
              Scan(flow, indent, t, col, Gap, p)
              == if p.Breaks? && col < indent && t[0] == TAB then Fail
                 else Scan(flow, indent, t[1..], col + 1, Gap, MoreBlank(p, t[0]))
    ensures Break(F.At(t, 0)) ==>
              Scan(flow, indent, t, col, Gap, p)
              == Scan(flow, indent, t[F.BreakLen(t)..], 0, Gap, MoreBreak(p, F.BreakText(t)))
    ensures !White(F.At(t, 0)) ==>
              Scan(flow, indent, t, col, Gap, p)
              == if !flow && col < indent then Done([], t, p.Breaks?) else Scan(flow, indent, t, col, Top, p)
  {
  }
}
