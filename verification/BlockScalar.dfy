/** What yaml_parser_scan_block_scalar reads, as a function of the characters after '|' or
    '>' and of the indentation level of the enclosing block. */
module BlockScalar {
  import opened Utf8
  import opened CharClass
  import opened FlowScalar
  import opened ScalarText

  /** Chomping: -1 strips the final breaks, 0 keeps one, 1 keeps all. */
  datatype Header = BadHeader | Header(chomping: int, increment: int, rest: seq<Rune>, col: nat)

  function Chomping(c: Rune): int {
    if c == 0x2B then 1 else if c == 0x2D then -1 else 0
  }

  function SkipBlanks(t: seq<Rune>): (u: seq<Rune>)
    ensures |u| <= |t|
  {
    if t != [] && Blank(t[0]) then SkipBlanks(t[1..]) else t
  }

  function SkipToBreak(t: seq<Rune>): (u: seq<Rune>)
    ensures |u| <= |t|
  {
    if t == [] || Break(t[0]) || t[0] == 0 then t else SkipToBreak(t[1..])
  }

  /** The blanks and the comment after the indicators, and the line break. */
  function EndOfHeader(chomping: int, increment: int, t: seq<Rune>, col: nat): Header {
    var u := SkipBlanks(t);
    var w := if At(u, 0) == 0x23 then SkipToBreak(u) else u;
    if At(w, 0) == 0 then Header(chomping, increment, w, col + |t| - |w|)
    else if Break(At(w, 0)) then Header(chomping, increment, w[BreakLen(w)..], 0)
    else BadHeader
  }

  function ReadHeader(t: seq<Rune>, col: nat): Header {
    var c := At(t, 0);
    if Chomping(c) != 0 then
      var d := At(t, 1);
      if d == 0x30 then BadHeader
      else if Digit(d) then EndOfHeader(Chomping(c), d - 0x30, t[2..], col + 2)
      else EndOfHeader(Chomping(c), 0, t[1..], col + 1)
    else if c == 0x30 then BadHeader
    else if Digit(c) then
      var d := At(t, 1);
      if Chomping(d) != 0 then EndOfHeader(Chomping(d), c - 0x30, t[2..], col + 2)
      else EndOfHeader(0, c - 0x30, t[1..], col + 1)
    else EndOfHeader(0, 0, t, col)
  }

  datatype Block = Block(literal: bool, indent: nat, chomping: int)

  datatype Mode =
    | Line(blank: bool)
    | Gap(lead: seq<Rune>, trail: seq<Rune>, blank: bool)

  /** The breaks before a content line whose first character is `c`. `blank` says that the
      previous content line began with a blank. */
  function Joined(b: Block, lead: seq<Rune>, trail: seq<Rune>, blank: bool, c: Rune): seq<Rune> {
    if !b.literal && !blank && !Blank(c) && lead != [] && lead[0] == LF then
      (if trail == [] then [SPACE] else []) + trail
    else lead + trail
  }

  function Chomped(b: Block, lead: seq<Rune>, trail: seq<Rune>): seq<Rune> {
    (if b.chomping != -1 then lead else []) + (if b.chomping == 1 then trail else [])
  }

  /** The content, once the indentation is known: inside a content line, or among the breaks
      and the indentation between two of them. */
  function Content(b: Block, t: seq<Rune>, col: nat, m: Mode): Result
    decreases |t|, m.Gap?
  {
    var c := At(t, 0);
    match m
    case Line(blank) =>
      if c == 0 then Done([], t)
      else if Break(c) then Content(b, t[BreakLen(t)..], 0, Gap(BreakText(t), [], blank))
      else Push([c], Content(b, t[1..], col + 1, m))
    case Gap(lead, trail, blank) =>
      if col < b.indent && c == SPACE then Content(b, t[1..], col + 1, m)
      else if col < b.indent && c == TAB then Fail
      else if Break(c) then Content(b, t[BreakLen(t)..], 0, Gap(lead, trail + BreakText(t), blank))
      else if col == b.indent && c != 0 then
        Push(Joined(b, lead, trail, blank, c), Content(b, t, col, Line(Blank(c))))
      else Done(Chomped(b, lead, trail), t)
  }

  /** The leading breaks, and the deepest indentation seen among them. */
  datatype Detected = BadIndent | Detected(rest: seq<Rune>, col: nat, depth: nat, breaks: seq<Rune>)

  function Detect(t: seq<Rune>, col: nat, depth: nat, breaks: seq<Rune>): Detected
    decreases |t|
  {
    var c := At(t, 0);
    var d := Max(depth, col);
    if c == SPACE then Detect(t[1..], col + 1, depth, breaks)
    else if c == TAB then BadIndent
    else if Break(c) then Detect(t[BreakLen(t)..], 0, d, breaks + BreakText(t))
    else Detected(t, col, d, breaks)
  }

  function Scan(literal: bool, parserIndent: int, t: seq<Rune>, col: nat): Result
    requires parserIndent >= -1
  {
    match ReadHeader(t, col)
    case BadHeader => Fail
    case Header(chomping, increment, u, c) =>
      if increment > 0 then
        Content(Block(literal, Max(parserIndent, 0) + increment, chomping), u, c, Gap([], [], false))
      else
        match Detect(u, c, 0, [])
        case BadIndent => Fail
        case Detected(w, d, depth, breaks) =>
          Content(Block(literal, Max(Max(depth, parserIndent + 1), 1), chomping), w, d, Gap([], breaks, false))
  }

  // ---- Single steps ----

  lemma SkipBlanksStep(t: seq<Rune>)
    requires t != []
    ensures SkipBlanks(t) == if Blank(t[0]) then SkipBlanks(t[1..]) else t
    ensures SkipToBreak(t) == if Break(t[0]) || t[0] == 0 then t else SkipToBreak(t[1..])
  {
  }

  lemma GapStep(b: Block, t: seq<Rune>, col: nat, lead: seq<Rune>, trail: seq<Rune>, blank: bool)
    requires t != []
    ensures col < b.indent && t[0] == SPACE ==>
              Content(b, t, col, Gap(lead, trail, blank)) == Content(b, t[1..], col + 1, Gap(lead, trail, blank))
    ensures col < b.indent && t[0] == TAB ==> Content(b, t, col, Gap(lead, trail, blank)) == Fail
    ensures Break(t[0]) ==>
              Content(b, t, col, Gap(lead, trail, blank))
              == Content(b, t[BreakLen(t)..], 0, Gap(lead, trail + BreakText(t), blank))
  {
  }

  lemma DetectStep(t: seq<Rune>, col: nat, depth: nat, breaks: seq<Rune>)
    requires t != []
    ensures t[0] == SPACE ==> Detect(t, col, depth, breaks) == Detect(t[1..], col + 1, depth, breaks)
    ensures t[0] == TAB ==> Detect(t, col, depth, breaks) == BadIndent
    ensures Break(t[0]) ==>
              Detect(t, col, depth, breaks) == Detect(t[BreakLen(t)..], 0, Max(depth, col), breaks + BreakText(t))
    ensures !Blank(t[0]) && !Break(t[0]) ==>
              Detect(t, col, depth, breaks) == Detected(t, col, Max(depth, col), breaks)
  {
  }

  lemma LineStep(b: Block, t: seq<Rune>, col: nat, blank: bool, p: seq<Rune>)
    requires t != []
    ensures !Break(t[0]) && t[0] != 0 ==>
              Push(p, Content(b, t, col, Line(blank))) == Push(p + [t[0]], Content(b, t[1..], col + 1, Line(blank)))
    ensures Break(t[0]) ==>
              Content(b, t, col, Line(blank)) == Content(b, t[BreakLen(t)..], 0, Gap(BreakText(t), [], blank))
    ensures t[0] == 0 ==> Content(b, t, col, Line(blank)) == Done([], t)
  {
    if !Break(t[0]) && t[0] != 0 {
      PushPush(p, [t[0]], Content(b, t[1..], col + 1, Line(blank)));
    }
  }

  /** Where the indentation ends, a content line starts or the scalar is over. */
  lemma GapEnd(b: Block, t: seq<Rune>, col: nat, lead: seq<Rune>, trail: seq<Rune>, blank: bool, p: seq<Rune>)
    requires t != [] && !Break(t[0]) && !(col < b.indent && Blank(t[0]))
    ensures Push(p, Content(b, t, col, Gap(lead, trail, blank)))
         == if col == b.indent && t[0] != 0 then
              Push(p + Joined(b, lead, trail, blank, t[0]), Content(b, t, col, Line(Blank(t[0]))))
            else Done(p + Chomped(b, lead, trail), t)
  {
    if col == b.indent && t[0] != 0 {
      PushPush(p, Joined(b, lead, trail, blank, t[0]), Content(b, t, col, Line(Blank(t[0]))));
    }
  }

  /** A line that ends with the input is read as one before an empty gap. */
  lemma LineEnd(b: Block, t: seq<Rune>, col: nat, blank: bool)
    requires t != [] && t[0] == 0
    ensures Content(b, t, col, Line(blank)) == Content(b, t, col, Gap([], [], blank))
  {
  }
}
