/** What block scalars are, said without the scanner: a header, lines that are empty or full, and
    chomping and folding as YAML 1.2 sections 8.1.1.2 and 8.1.3 have them. The scanner reads exactly
    these texts, and exactly these values. */
module BlockReading {
  import opened Utf8
  import opened CharClass
  import opened FlowScalar
  import opened ScalarText
  import B = BlockScalar
  import F = FlowReading

  /** A line of spaces only, or one with characters behind its indentation. The last full line may
      have no break. */
  datatype Line = Empty(spaces: nat, br: seq<Rune>) | Full(chars: seq<Rune>, br: seq<Rune>)

  function LineText(indent: nat, l: Line): seq<Rune> {
    match l
    case Empty(k, br) => Spaces(k) + br
    case Full(chars, br) => Spaces(indent) + (chars + br)
  }

  function Text(indent: nat, ls: seq<Line>): seq<Rune> {
    if ls == [] then [] else LineText(indent, ls[0]) + Text(indent, ls[1..])
  }

  // ---- Which texts ----

  /** A break before the text `u`; a CR that is meant alone has no LF behind it. */
  predicate BreakBefore(br: seq<Rune>, u: seq<Rune>) {
    F.IsBreakText(br) && (br[|br| - 1] == CR ==> At(u, 0) != LF)
  }

  predicate Inside(c: Rune) {
    !Break(c) && c != 0
  }

  /** A line before the text `u`. */
  predicate IsLine(indent: nat, l: Line, u: seq<Rune>) {
    match l
    case Empty(k, br) => k <= indent && BreakBefore(br, u)
    case Full(chars, br) =>
      && chars != [] && (forall i | 0 <= i < |chars| :: Inside(chars[i]))
      && (if br == [] then At(u, 0) == 0 else BreakBefore(br, u))
  }

  predicate Proper(indent: nat, ls: seq<Line>, tail: seq<Rune>) {
    ls != [] ==> IsLine(indent, ls[0], Text(indent, ls[1..]) + tail) && Proper(indent, ls[1..], tail)
  }

  /** A block ends with the input, or before a line that is indented less. */
  predicate IsEnd(indent: nat, k: nat, rest: seq<Rune>) {
    var c := At(rest, 0);
    c == 0 || (k < indent && !Blank(c) && !Break(c))
  }

  /** The lines of a block of the given indentation, and up to `k` spaces before what follows. */
  predicate Spelled(indent: nat, ls: seq<Line>, k: nat, t: seq<Rune>, rest: seq<Rune>) {
    && t == Text(indent, ls) + (Spaces(k) + rest)
    && Proper(indent, ls, Spaces(k) + rest)
    && k <= indent && IsEnd(indent, k, rest)
  }

  // ---- Which values ----

  /** How many empty lines come first. */
  function Empties(ls: seq<Line>): (n: nat)
    ensures n <= |ls|
    ensures n < |ls| ==> ls[n].Full?
  {
    if ls == [] || ls[0].Full? then 0 else 1 + Empties(ls[1..])
  }

  function BreakOf(l: Line): seq<Rune> {
    if l.br == [] then [] else [F.KeptBreak(l.br)]
  }

  function BreaksOf(ls: seq<Line>): seq<Rune> {
    if ls == [] then [] else BreakOf(ls[0]) + BreaksOf(ls[1..])
  }

  /** What stands between two full lines that have the breaks `bs` of empty lines between them. Folding
      makes a space of a single LF, and drops the first of several, unless a line begins with a blank. */
  function Between(literal: bool, l: Line, bs: seq<Rune>, next: Line): seq<Rune>
    requires l.Full? && next.Full? && l.chars != [] && next.chars != []
  {
    if literal || Blank(l.chars[0]) || Blank(next.chars[0]) || BreakOf(l) != [LF] then BreakOf(l) + bs
    else if bs == [] then [SPACE]
    else bs
  }

  /** What stands behind the last full line: stripping leaves nothing, clipping the line's own break,
      keeping all breaks. */
  function Final(chomping: int, l: Line, bs: seq<Rune>): seq<Rune> {
    if chomping < 0 then [] else if chomping == 0 then BreakOf(l) else BreakOf(l) + bs
  }

  predicate Nonempty(ls: seq<Line>) {
    forall i | 0 <= i < |ls| :: ls[i].Full? ==> ls[i].chars != []
  }

  /** From a full line on. */
  function FromFull(literal: bool, chomping: int, ls: seq<Line>): seq<Rune>
    requires ls != [] && ls[0].Full? && Nonempty(ls)
    decreases |ls|
  {
    var n := Empties(ls[1..]);
    var bs := BreaksOf(ls[1..][..n]);
    ls[0].chars + if n == |ls| - 1 then Final(chomping, ls[0], bs)
                  else Between(literal, ls[0], bs, ls[1..][n]) + FromFull(literal, chomping, ls[1..][n..])
  }

  /** Breaks before the first full line are kept; without one, only keeping keeps them. */
  function Value(literal: bool, chomping: int, ls: seq<Line>): seq<Rune>
    requires Nonempty(ls)
  {
    var n := Empties(ls);
    if n < |ls| then BreaksOf(ls[..n]) + FromFull(literal, chomping, ls[n..])
    else if chomping == 1 then BreaksOf(ls)
    else []
  }

  // ---- The content is read as its value ----

  /** What the scanner makes of the lines that remain, with the breaks that it holds. */
  function Remaining(b: B.Block, lead: seq<Rune>, trail: seq<Rune>, blank: bool, ls: seq<Line>): seq<Rune>
    requires Nonempty(ls)
  {
    var n := Empties(ls);
    var held := trail + BreaksOf(ls[..n]);
    if n == |ls| then B.Chomped(b, lead, held)
    else B.Joined(b, lead, held, blank, ls[n].chars[0]) + FromFull(b.literal, b.chomping, ls[n..])
  }

  lemma FirstBreaks(ls: seq<Line>)
    requires ls != []
    ensures BreaksOf(ls) == BreakOf(ls[0]) + BreaksOf(ls[1..])
  {
  }

  lemma Slices(ls: seq<Line>, n: nat)
    requires n < |ls|
    ensures ls[..n + 1][0] == ls[0] && ls[..n + 1][1..] == ls[1..][..n] && ls[1..][n..] == ls[n + 1..]
    ensures n + 1 < |ls| ==> ls[1..][n] == ls[n + 1]
  {
  }

  lemma OneMoreEmpty(b: B.Block, lead: seq<Rune>, trail: seq<Rune>, blank: bool, ls: seq<Line>)
    requires ls != [] && ls[0].Empty? && Nonempty(ls) && Nonempty(ls[1..])
    ensures Remaining(b, lead, trail + BreakOf(ls[0]), blank, ls[1..]) == Remaining(b, lead, trail, blank, ls)
  {
    var n := Empties(ls[1..]);
    assert Empties(ls) == n + 1;
    Slices(ls, n);
    FirstBreaks(ls[..n + 1]);
    hide B.Joined, B.Chomped, FromFull, BreaksOf, BreakOf, Empties;
    assert trail + BreakOf(ls[0]) + BreaksOf(ls[1..][..n]) == trail + (BreakOf(ls[0]) + BreaksOf(ls[1..][..n]));
  }

  lemma NonemptyBehind(ls: seq<Line>)
    requires ls != [] && Nonempty(ls)
    ensures Nonempty(ls[1..])
  {
  }

  lemma BetweenIsJoined(b: B.Block, l: Line, bs: seq<Rune>, next: Line)
    requires l.Full? && next.Full? && l.chars != [] && next.chars != []
    ensures B.Joined(b, BreakOf(l), bs, Blank(l.chars[0]), next.chars[0]) == Between(b.literal, l, bs, next)
  {
    assert [SPACE] + [] == [SPACE] && [] + bs == bs;
  }

  lemma FinalIsChomped(b: B.Block, l: Line, bs: seq<Rune>)
    requires -1 <= b.chomping <= 1
    ensures B.Chomped(b, BreakOf(l), bs) == Final(b.chomping, l, bs)
  {
    assert BreakOf(l) + [] == BreakOf(l);
  }

  lemma BehindFull(b: B.Block, ls: seq<Line>)
    requires ls != [] && ls[0].Full? && Nonempty(ls) && Nonempty(ls[1..]) && -1 <= b.chomping <= 1
    ensures FromFull(b.literal, b.chomping, ls)
         == ls[0].chars + Remaining(b, BreakOf(ls[0]), [], Blank(ls[0].chars[0]), ls[1..])
  {
    var n := Empties(ls[1..]);
    var bs := BreaksOf(ls[1..][..n]);
    assert [] + bs == bs;
    hide BreaksOf, BreakOf, B.Joined, B.Chomped, Between, Final;
    if n == |ls| - 1 {
      FinalIsChomped(b, ls[0], bs);
    } else {
      BetweenIsJoined(b, ls[0], bs, ls[1..][n]);
    }
  }

  lemma AtFull(b: B.Block, lead: seq<Rune>, trail: seq<Rune>, blank: bool, ls: seq<Line>)
    requires Nonempty(ls) && (ls != [] ==> ls[0].Full?)
    ensures ls == [] ==> Remaining(b, lead, trail, blank, ls) == B.Chomped(b, lead, trail)
    ensures ls != [] ==>
              Remaining(b, lead, trail, blank, ls)
              == B.Joined(b, lead, trail, blank, ls[0].chars[0]) + FromFull(b.literal, b.chomping, ls)
  {
    assert trail + BreaksOf(ls[..0]) == trail && ls[0..] == ls;
  }

  lemma FromStart(b: B.Block, ls: seq<Line>)
    requires Nonempty(ls) && -1 <= b.chomping <= 1
    ensures Remaining(b, [], [], false, ls) == Value(b.literal, b.chomping, ls)
  {
    var n := Empties(ls);
    assert ls[..|ls|] == ls;
    assert [] + BreaksOf(ls[..n]) == BreaksOf(ls[..n]);
  }

  // ---- Steps of the scanner ----

  lemma {:induction false} SkipSpaces(b: B.Block, n: nat, u: seq<Rune>, col: nat, m: B.Mode)
    requires m.Gap? && col + n <= b.indent
    ensures B.Content(b, Spaces(n) + u, col, m) == B.Content(b, u, col + n, m)
    decreases n
  {
    if n == 0 {
      assert Spaces(0) + u == u;
    } else {
      assert (Spaces(n) + u)[1..] == Spaces(n - 1) + u;
      SkipSpaces(b, n - 1, u, col + 1, m);
    }
  }

  lemma StepEmpty(b: B.Block, l: Line, u: seq<Rune>, lead: seq<Rune>, trail: seq<Rune>, blank: bool)
    requires l.Empty? && IsLine(b.indent, l, u)
    ensures B.Content(b, LineText(b.indent, l) + u, 0, B.Gap(lead, trail, blank))
         == B.Content(b, u, 0, B.Gap(lead, trail + BreakOf(l), blank))
  {
    assert LineText(b.indent, l) + u == Spaces(l.spaces) + (l.br + u);
    hide B.Content;
    SkipSpaces(b, l.spaces, l.br + u, 0, B.Gap(lead, trail, blank));
    F.BreakRead(l.br, u);
    B.GapStep(b, l.br + u, l.spaces, lead, trail, blank);
  }

  lemma {:induction false} LineRead(b: B.Block, cs: seq<Rune>, u: seq<Rune>, col: nat, blank: bool)
    requires forall i | 0 <= i < |cs| :: Inside(cs[i])
    ensures B.Content(b, cs + u, col, B.Line(blank)) == Push(cs, B.Content(b, u, col + |cs|, B.Line(blank)))
    decreases |cs|
  {
    if cs == [] {
      assert cs + u == u;
      PushNothing(B.Content(b, u, col, B.Line(blank)));
    } else {
      assert (cs + u)[1..] == cs[1..] + u && [cs[0]] + cs[1..] == cs;
      LineRead(b, cs[1..], u, col + 1, blank);
      PushPush([cs[0]], cs[1..], B.Content(b, u, col + |cs|, B.Line(blank)));
    }
  }

  lemma EndOfLine(b: B.Block, br: seq<Rune>, u: seq<Rune>, col: nat, blank: bool)
    requires if br == [] then At(u, 0) == 0 else BreakBefore(br, u)
    ensures br != [] ==>
              B.Content(b, br + u, col, B.Line(blank)) == B.Content(b, u, 0, B.Gap([F.KeptBreak(br)], [], blank))
    ensures br == [] ==> B.Content(b, br + u, col, B.Line(blank)) == Done([], u)
    ensures br == [] ==> B.Content(b, u, 0, B.Gap([], [], blank)) == Done([], u)
  {
    if br == [] {
      assert br + u == u;
    } else {
      F.BreakRead(br, u);
    }
  }

  lemma StepFull(b: B.Block, l: Line, u: seq<Rune>, lead: seq<Rune>, trail: seq<Rune>, blank: bool)
    requires l.Full? && IsLine(b.indent, l, u)
    ensures B.Content(b, LineText(b.indent, l) + u, 0, B.Gap(lead, trail, blank))
         == Push(B.Joined(b, lead, trail, blank, l.chars[0]) + l.chars,
                 B.Content(b, u, 0, B.Gap(BreakOf(l), [], Blank(l.chars[0]))))
  {
    var w := l.chars + (l.br + u);
    assert LineText(b.indent, l) + u == Spaces(b.indent) + w;
    assert w[0] == l.chars[0];
    hide B.Content, B.Joined;
    SkipSpaces(b, b.indent, w, 0, B.Gap(lead, trail, blank));
    B.GapEnd(b, w, b.indent, lead, trail, blank, []);
    PushNothing(B.Content(b, w, b.indent, B.Gap(lead, trail, blank)));
    var j := B.Joined(b, lead, trail, blank, w[0]);
    assert [] + j == j;
    LineRead(b, l.chars, l.br + u, b.indent, Blank(w[0]));
    EndOfLine(b, l.br, u, b.indent + |l.chars|, Blank(w[0]));
    PushPush(j, l.chars, B.Content(b, l.br + u, b.indent + |l.chars|, B.Line(Blank(w[0]))));
  }

  lemma StepEnd(b: B.Block, k: nat, rest: seq<Rune>, lead: seq<Rune>, trail: seq<Rune>, blank: bool)
    requires k <= b.indent && IsEnd(b.indent, k, rest)
    ensures B.Content(b, Spaces(k) + rest, 0, B.Gap(lead, trail, blank)) == Done(B.Chomped(b, lead, trail), rest)
  {
    SkipSpaces(b, k, rest, 0, B.Gap(lead, trail, blank));
  }

  lemma ProperNonempty(indent: nat, ls: seq<Line>, tail: seq<Rune>)
    requires Proper(indent, ls, tail)
    ensures Nonempty(ls)
  {
    if ls != [] {
      ProperNonempty(indent, ls[1..], tail);
      assert forall i | 0 < i < |ls| :: ls[i] == ls[1..][i - 1];
    }
  }

  lemma SpelledBehind(indent: nat, ls: seq<Line>, k: nat, t: seq<Rune>, rest: seq<Rune>) returns (u: seq<Rune>)
    requires ls != [] && Spelled(indent, ls, k, t, rest)
    ensures t == LineText(indent, ls[0]) + u && IsLine(indent, ls[0], u) && Spelled(indent, ls[1..], k, u, rest)
  {
    hide IsLine, LineText, Spaces;
    u := Text(indent, ls[1..]) + (Spaces(k) + rest);
    assert Text(indent, ls) == LineText(indent, ls[0]) + Text(indent, ls[1..]);
    hide Text;
    assert t == LineText(indent, ls[0]) + u;
  }

  lemma OneMoreLine(indent: nat, l: Line, ls: seq<Line>, k: nat, u: seq<Rune>, rest: seq<Rune>)
    requires IsLine(indent, l, u) && Spelled(indent, ls, k, u, rest)
    ensures Spelled(indent, [l] + ls, k, LineText(indent, l) + u, rest)
  {
    assert ([l] + ls)[1..] == ls;
    assert LineText(indent, l) + u == Text(indent, [l] + ls) + (Spaces(k) + rest);
  }

  /** Every block that is spelled reads as its value. */
  lemma {:induction false} Reads(b: B.Block, ls: seq<Line>, k: nat, t: seq<Rune>, rest: seq<Rune>,
      lead: seq<Rune>, trail: seq<Rune>, blank: bool)
    requires Spelled(b.indent, ls, k, t, rest) && -1 <= b.chomping <= 1
    ensures Nonempty(ls)
    ensures B.Content(b, t, 0, B.Gap(lead, trail, blank)) == Done(Remaining(b, lead, trail, blank, ls), rest)
    decreases |ls|
  {
    ProperNonempty(b.indent, ls, Spaces(k) + rest);
    if ls == [] {
      assert t == Spaces(k) + rest;
      StepEnd(b, k, rest, lead, trail, blank);
      AtFull(b, lead, trail, blank, ls);
      return;
    }
    hide B.Content, B.Joined, B.Chomped, Remaining, FromFull, Spelled, IsLine;
    var u := SpelledBehind(b.indent, ls, k, t, rest);
    if ls[0].Empty? {
      StepEmpty(b, ls[0], u, lead, trail, blank);
      Reads(b, ls[1..], k, u, rest, lead, trail + BreakOf(ls[0]), blank);
      NonemptyBehind(ls);
      OneMoreEmpty(b, lead, trail, blank, ls);
    } else {
      StepFull(b, ls[0], u, lead, trail, blank);
      Reads(b, ls[1..], k, u, rest, BreakOf(ls[0]), [], Blank(ls[0].chars[0]));
      AtFull(b, lead, trail, blank, ls);
      NonemptyBehind(ls);
      BehindFull(b, ls);
      PushMore(B.Joined(b, lead, trail, blank, ls[0].chars[0]), ls[0].chars,
               Remaining(b, BreakOf(ls[0]), [], Blank(ls[0].chars[0]), ls[1..]), rest);
    }
  }

  lemma PushMore(j: seq<Rune>, cs: seq<Rune>, v: seq<Rune>, rest: seq<Rune>)
    ensures Push(j + cs, Done(v, rest)) == Done(j + (cs + v), rest)
  {
    assert j + cs + v == j + (cs + v);
  }

  // ---- Only what is spelled is read ----

  /** The spaces that belong to the indentation. */
  lemma {:induction false} TakeSpaces(b: B.Block, t: seq<Rune>, col: nat, m: B.Mode) returns (k: nat, u: seq<Rune>)
    requires m.Gap? && col <= b.indent
    ensures t == Spaces(k) + u && col + k <= b.indent && (col + k < b.indent ==> At(u, 0) != SPACE)
    ensures B.Content(b, t, col, m) == B.Content(b, u, col + k, m)
    decreases |t|
  {
    if col < b.indent && At(t, 0) == SPACE {
      B.GapStep(b, t, col, m.lead, m.trail, m.blank);
      hide B.Content;
      k, u := TakeSpaces(b, t[1..], col + 1, m);
      OneMoreSpace(t, k, u);
      k := k + 1;
    } else {
      k, u := 0, t;
      assert t == Spaces(0) + t;
    }
  }

  lemma OneMoreSpace(t: seq<Rune>, k: nat, u: seq<Rune>)
    requires t != [] && t[0] == SPACE && t[1..] == Spaces(k) + u
    ensures t == Spaces(k + 1) + u
  {
    assert Spaces(k + 1) == [SPACE] + Spaces(k);
    assert t == [SPACE] + (Spaces(k) + u);
  }

  lemma {:induction false} TakeLine(t: seq<Rune>) returns (cs: seq<Rune>, u: seq<Rune>)
    ensures t == cs + u && (forall i | 0 <= i < |cs| :: Inside(cs[i])) && !Inside(At(u, 0))
    ensures Inside(At(t, 0)) ==> cs != []
  {
    if Inside(At(t, 0)) {
      cs, u := TakeLine(t[1..]);
      cs := [t[0]] + cs;
    } else {
      cs, u := [], t;
    }
  }

  lemma TakeBreak(t: seq<Rune>) returns (br: seq<Rune>, u: seq<Rune>)
    requires !Inside(At(t, 0))
    ensures t == br + u && if Break(At(t, 0)) then BreakBefore(br, u) else br == []
  {
    if Break(At(t, 0)) {
      var n := BreakLen(t);
      br, u := t[..n], t[n..];
      assert n == 2 ==> br == [CR, LF];
      assert n == 1 && t[0] == CR ==> At(u, 0) == At(t, 1);
    } else {
      br, u := [], t;
    }
  }

  /** The first line, if the block does not end before it. */
  lemma FirstLine(b: B.Block, k: nat, w: seq<Rune>) returns (l: Line, u: seq<Rune>)
    requires k <= b.indent && (Break(At(w, 0)) || (k == b.indent && At(w, 0) != 0))
    ensures Spaces(k) + w == LineText(b.indent, l) + u && IsLine(b.indent, l, u)
    ensures |u| < |w|
    ensures l.Full? <==> !Break(At(w, 0))
  {
    if Break(At(w, 0)) {
      var br, v := TakeBreak(w);
      l, u := Empty(k, br), v;
      assert Spaces(k) + (br + u) == Spaces(k) + br + u;
    } else {
      var cs, v := TakeLine(w);
      var br, x := TakeBreak(v);
      l, u := Line.Full(cs, br), x;
      assert w == cs + (br + u) && cs + (br + u) == cs + br + u;
      assert Spaces(k) + (cs + br + u) == Spaces(k) + (cs + br) + u;
    }
  }

  lemma NoLine(b: B.Block, k: nat, w: seq<Rune>, m: B.Mode)
    requires m.Gap? && k <= b.indent && !Break(At(w, 0)) && !(k == b.indent && At(w, 0) != 0)
    requires k < b.indent ==> At(w, 0) != SPACE
    requires B.Content(b, w, k, m).Done?
    ensures IsEnd(b.indent, k, w)
  {
  }

  /** Whatever is read is spelled by some lines, and is their value. */
  lemma {:induction false} IsSpelled(b: B.Block, t: seq<Rune>, lead: seq<Rune>, trail: seq<Rune>, blank: bool)
    returns (ls: seq<Line>, k: nat)
    requires B.Content(b, t, 0, B.Gap(lead, trail, blank)).Done? && -1 <= b.chomping <= 1
    ensures Nonempty(ls) && Spelled(b.indent, ls, k, t, B.Content(b, t, 0, B.Gap(lead, trail, blank)).rest)
    ensures B.Content(b, t, 0, B.Gap(lead, trail, blank)).value == Remaining(b, lead, trail, blank, ls)
    decreases |t|
  {
    hide B.Content, B.Joined, B.Chomped, Remaining, FromFull, IsLine, LineText;
    var m := B.Gap(lead, trail, blank);
    var rest := B.Content(b, t, 0, m).rest;
    var w: seq<Rune>;
    k, w := TakeSpaces(b, t, 0, m);
    if Break(At(w, 0)) || (k == b.indent && At(w, 0) != 0) {
      var l, u := FirstLine(b, k, w);
      if l.Empty? {
        StepEmpty(b, l, u, lead, trail, blank);
        ls, k := IsSpelled(b, u, lead, trail + BreakOf(l), blank);
      } else {
        StepFull(b, l, u, lead, trail, blank);
        ls, k := IsSpelled(b, u, BreakOf(l), [], Blank(l.chars[0]));
      }
      OneMoreLine(b.indent, l, ls, k, u, rest);
      ls := [l] + ls;
    } else {
      NoLine(b, k, w, m);
      ls := [];
      StepEnd(b, k, w, lead, trail, blank);
    }
    Reads(b, ls, k, t, rest, lead, trail, blank);
  }

  // ---- The indentation ----

  /** The most spaces on the empty lines that come first. */
  function Deepest(ls: seq<Line>): nat {
    if ls == [] || ls[0].Full? then 0 else Max(ls[0].spaces, Deepest(ls[1..]))
  }

  /** Without a hint the first full line sets the indentation. It must be more than the parser's, and no
      blank may follow it; empty lines before it are never indented more, as lines of this indentation.
      If all lines are empty the longest of them sets it. */
  predicate SetByLines(parserIndent: int, indent: nat, ls: seq<Line>, k: nat) {
    var n := Empties(ls);
    var least := Max(parserIndent + 1, 1);
    if n < |ls| then indent >= least && ls[n].chars != [] && !Blank(ls[n].chars[0])
    else indent == Max(least, Max(Deepest(ls), k))
  }

  lemma {:induction false} DetectSpaces(n: nat, u: seq<Rune>, col: nat, depth: nat, breaks: seq<Rune>)
    ensures B.Detect(Spaces(n) + u, col, depth, breaks) == B.Detect(u, col + n, depth, breaks)
    decreases n
  {
    if n == 0 {
      assert Spaces(0) + u == u;
    } else {
      assert (Spaces(n) + u)[1..] == Spaces(n - 1) + u;
      DetectSpaces(n - 1, u, col + 1, depth, breaks);
    }
  }

  lemma {:induction false} DetectedDepth(t: seq<Rune>, col: nat, depth: nat, breaks: seq<Rune>)
    requires B.Detect(t, col, depth, breaks).Detected?
    ensures B.Detect(t, col, depth, breaks).depth >= Max(depth, col)
    ensures At(t, 0) == SPACE ==> B.Detect(t, col, depth, breaks).depth > col
    decreases |t|
  {
    if t == [] {
    } else if t[0] == SPACE {
      DetectedDepth(t[1..], col + 1, depth, breaks);
    } else if Break(t[0]) {
      DetectedDepth(t[BreakLen(t)..], 0, Max(depth, col), breaks + BreakText(t));
    }
  }

  /** Looking for the indentation moves over the first lines as if it had been known. */
  lemma {:induction false} DetectIsGap(b: B.Block, t: seq<Rune>, col: nat, depth: nat, breaks: seq<Rune>)
    requires B.Detect(t, col, depth, breaks).Detected? && B.Detect(t, col, depth, breaks).depth <= b.indent
    ensures var d := B.Detect(t, col, depth, breaks);
            B.Content(b, t, col, B.Gap([], breaks, false)) == B.Content(b, d.rest, d.col, B.Gap([], d.breaks, false))
    decreases |t|
  {
    DetectedDepth(t, col, depth, breaks);
    if t == [] {
      return;
    }
    B.DetectStep(t, col, depth, breaks);
    B.GapStep(b, t, col, [], breaks, false);
    hide B.Content, B.Detect;
    if t[0] == SPACE {
      DetectIsGap(b, t[1..], col + 1, depth, breaks);
    } else if Break(t[0]) {
      DetectIsGap(b, t[BreakLen(t)..], 0, Max(depth, col), breaks + BreakText(t));
    }
  }

  lemma DetectEmpty(l: Line, indent: nat, u: seq<Rune>, depth: nat, breaks: seq<Rune>)
    requires l.Empty? && IsLine(indent, l, u)
    ensures B.Detect(LineText(indent, l) + u, 0, depth, breaks)
         == B.Detect(u, 0, Max(depth, l.spaces), breaks + BreakOf(l))
  {
    assert LineText(indent, l) + u == Spaces(l.spaces) + (l.br + u);
    DetectSpaces(l.spaces, l.br + u, 0, depth, breaks);
    F.BreakRead(l.br, u);
    B.DetectStep(l.br + u, l.spaces, depth, breaks);
  }

  lemma DetectFull(l: Line, indent: nat, u: seq<Rune>, depth: nat, breaks: seq<Rune>)
    requires l.Full? && IsLine(indent, l, u)
    ensures var d := B.Detect(LineText(indent, l) + u, 0, depth, breaks);
            if Blank(l.chars[0]) then d.Detected? ==> d.depth > indent
            else d.Detected? && d.depth == Max(depth, indent)
  {
    var w := l.chars + (l.br + u);
    assert LineText(indent, l) + u == Spaces(indent) + w;
    assert w[0] == l.chars[0];
    DetectSpaces(indent, w, 0, depth, breaks);
    if B.Detect(w, indent, depth, breaks).Detected? {
      DetectedDepth(w, indent, depth, breaks);
    }
    B.DetectStep(w, indent, depth, breaks);
  }

  /** The depth that is found in lines. */
  lemma {:induction false} DetectLines(indent: nat, ls: seq<Line>, k: nat, t: seq<Rune>, rest: seq<Rune>,
      depth: nat, breaks: seq<Rune>)
    requires Spelled(indent, ls, k, t, rest) && Nonempty(ls)
    ensures var d := B.Detect(t, 0, depth, breaks);
            var n := Empties(ls);
            if n == |ls| then d.Detected? && d.depth == Max(Max(depth, Deepest(ls)), k)
            else if Blank(ls[n].chars[0]) then d.Detected? ==> d.depth > indent
            else d.Detected? && d.depth == Max(Max(depth, Deepest(ls)), indent)
    decreases |ls|
  {
    if ls == [] {
      assert t == Spaces(k) + rest;
      DetectSpaces(k, rest, 0, depth, breaks);
    } else {
      var u := SpelledBehind(indent, ls, k, t, rest);
      hide B.Detect, Spelled, IsLine, LineText;
      NonemptyBehind(ls);
      if ls[0].Empty? {
        DetectEmpty(ls[0], indent, u, depth, breaks);
        DetectLines(indent, ls[1..], k, u, rest, Max(depth, ls[0].spaces), breaks + BreakOf(ls[0]));
      } else {
        DetectFull(ls[0], indent, u, depth, breaks);
      }
    }
  }

  lemma {:induction false} DeepestFits(indent: nat, ls: seq<Line>, k: nat, t: seq<Rune>, rest: seq<Rune>)
    requires Spelled(indent, ls, k, t, rest)
    ensures Deepest(ls) <= indent
    decreases |ls|
  {
    if ls != [] {
      var u := SpelledBehind(indent, ls, k, t, rest);
      DeepestFits(indent, ls[1..], k, u, rest);
    }
  }

  /** The lines set the indentation exactly if it is the one that the scanner finds. */
  lemma DetectsIndent(parserIndent: int, indent: nat, ls: seq<Line>, k: nat, t: seq<Rune>, rest: seq<Rune>)
    requires Spelled(indent, ls, k, t, rest) && Nonempty(ls)
    ensures var d := B.Detect(t, 0, 0, []);
            d.Detected? && Max(Max(d.depth, parserIndent + 1), 1) == indent <==> SetByLines(parserIndent, indent, ls, k)
  {
    DetectLines(indent, ls, k, t, rest, 0, []);
    DeepestFits(indent, ls, k, t, rest);
    hide B.Detect, Spelled;
  }

  // ---- The header ----

  /** A chomping sign and an indentation hint in either order, blanks, a comment, and a break. */
  datatype Head = Head(sign: seq<Rune>, hint: seq<Rune>, signFirst: bool, blanks: seq<Rune>, comment: seq<Rune>, br: seq<Rune>)

  function Indicators(sign: seq<Rune>, hint: seq<Rune>, signFirst: bool): seq<Rune> {
    if signFirst then sign + hint else hint + sign
  }

  function HeadText(h: Head): seq<Rune> {
    Indicators(h.sign, h.hint, h.signFirst) + (h.blanks + (h.comment + h.br))
  }

  predicate IsSign(sign: seq<Rune>) {
    sign == [] || sign == [0x2B] || sign == [0x2D]
  }

  predicate IsHint(hint: seq<Rune>) {
    hint == [] || (|hint| == 1 && 0x31 <= hint[0] <= 0x39)
  }

  /** A header before the text `u`. There is no break only at the end of the input. */
  predicate IsHead(h: Head, u: seq<Rune>) {
    IsSign(h.sign) && IsHint(h.hint) && IsHeadEnd(h.blanks, h.comment, h.br, u)
  }

  predicate IsHeadEnd(blanks: seq<Rune>, comment: seq<Rune>, br: seq<Rune>, u: seq<Rune>) {
    && (forall i | 0 <= i < |blanks| :: Blank(blanks[i]))
    && (comment != [] ==> comment[0] == 0x23)
    && (forall i | 0 <= i < |comment| :: Inside(comment[i]))
    && (if br == [] then At(u, 0) == 0 else BreakBefore(br, u))
  }

  /** '+' keeps, '-' strips, and nothing clips. */
  function ChompingOf(sign: seq<Rune>): int {
    if sign == [0x2B] then 1 else if sign == [0x2D] then -1 else 0
  }

  function HintOf(hint: seq<Rune>): (n: int)
    ensures IsHint(hint) ==> n >= 0
  {
    if hint == [] then 0 else hint[0] as int - 0x30
  }

  lemma {:induction false} BlanksSkipped(blanks: seq<Rune>, w: seq<Rune>)
    requires (forall i | 0 <= i < |blanks| :: Blank(blanks[i])) && !Blank(At(w, 0))
    ensures B.SkipBlanks(blanks + w) == w
  {
    if blanks == [] {
      assert blanks + w == w;
    } else {
      assert (blanks + w)[1..] == blanks[1..] + w;
      BlanksSkipped(blanks[1..], w);
    }
  }

  lemma {:induction false} CommentSkipped(cs: seq<Rune>, w: seq<Rune>)
    requires (forall i | 0 <= i < |cs| :: Inside(cs[i])) && !Inside(At(w, 0))
    ensures B.SkipToBreak(cs + w) == w
  {
    if cs == [] {
      assert cs + w == w;
    } else {
      assert (cs + w)[1..] == cs[1..] + w;
      CommentSkipped(cs[1..], w);
    }
  }

  function ColumnAfter(br: seq<Rune>, col: nat): nat {
    if br == [] then col else 0
  }

  lemma EndReads(chomping: int, increment: int, blanks: seq<Rune>, comment: seq<Rune>, br: seq<Rune>, u: seq<Rune>, col: nat)
    requires IsHeadEnd(blanks, comment, br, u)
    ensures B.EndOfHeader(chomping, increment, blanks + (comment + (br + u)), col)
         == B.Header(chomping, increment, u, ColumnAfter(br, col + |blanks| + |comment|))
  {
    var x := br + u;
    var w := comment + x;
    if br == [] {
      assert x == u;
    } else {
      F.BreakRead(br, u);
    }
    if comment == [] {
      assert w == x;
    } else {
      assert w[0] == comment[0];
      CommentSkipped(comment, x);
    }
    BlanksSkipped(blanks, w);
  }

  lemma Assoc(i: seq<Rune>, x: seq<Rune>, c: seq<Rune>, br: seq<Rune>, u: seq<Rune>)
    ensures i + (x + (c + br)) + u == i + (x + (c + (br + u)))
  {
  }

  lemma HeadReads(h: Head, u: seq<Rune>, col: nat)
    requires IsHead(h, u)
    ensures B.ReadHeader(HeadText(h) + u, col)
         == B.Header(ChompingOf(h.sign), HintOf(h.hint), u, ColumnAfter(h.br, col + |HeadText(h)|))
  {
    hide B.ReadHeader, B.EndOfHeader, Indicators, IsHeadEnd;
    var i := Indicators(h.sign, h.hint, h.signFirst);
    var w := h.blanks + (h.comment + (h.br + u));
    Assoc(i, h.blanks, h.comment, h.br, u);
    EndReads(ChompingOf(h.sign), HintOf(h.hint), h.blanks, h.comment, h.br, u, col + |i|);
    HeadEndFirst(h.blanks, h.comment, h.br, u);
    IndicatorsRead(h.sign, h.hint, h.signFirst, w, col);
  }

  lemma HeadEndFirst(blanks: seq<Rune>, comment: seq<Rune>, br: seq<Rune>, u: seq<Rune>)
    requires IsHeadEnd(blanks, comment, br, u)
    ensures var c := At(blanks + (comment + (br + u)), 0);
            Blank(c) || Break(c) || c == 0 || c == 0x23
  {
    var x := br + u;
    var w := comment + x;
    var t := blanks + w;
    if br == [] {
      assert x == u;
    } else {
      assert x[0] == br[0];
    }
    if comment == [] {
      assert w == x;
    } else {
      assert w[0] == comment[0];
    }
    if blanks == [] {
      assert t == w;
    } else {
      assert t[0] == blanks[0];
    }
  }

  lemma IndicatorsRead(sign: seq<Rune>, hint: seq<Rune>, signFirst: bool, w: seq<Rune>, col: nat)
    requires IsSign(sign) && IsHint(hint)
    requires B.Chomping(At(w, 0)) == 0 && !Digit(At(w, 0))
    ensures var i := Indicators(sign, hint, signFirst);
            B.ReadHeader(i + w, col) == B.EndOfHeader(ChompingOf(sign), HintOf(hint), w, col + |i|)
  {
    hide B.EndOfHeader;
    var i := Indicators(sign, hint, signFirst);
    var t := i + w;
    assert t[|i|..] == w;
    if sign == [] && hint == [] {
      assert t == w;
    } else if |i| == 1 {
      assert At(t, 1) == At(w, 0);
    }
  }

  lemma {:induction false} TakeBlanks(t: seq<Rune>) returns (blanks: seq<Rune>)
    ensures t == blanks + B.SkipBlanks(t) && forall i | 0 <= i < |blanks| :: Blank(blanks[i])
  {
    if t != [] && Blank(t[0]) {
      blanks := TakeBlanks(t[1..]);
      blanks := [t[0]] + blanks;
    } else {
      blanks := [];
    }
  }

  lemma EndFound(chomping: int, increment: int, t: seq<Rune>, col: nat)
    returns (blanks: seq<Rune>, comment: seq<Rune>, br: seq<Rune>)
    requires B.EndOfHeader(chomping, increment, t, col).Header?
    ensures var u := B.EndOfHeader(chomping, increment, t, col).rest;
            IsHeadEnd(blanks, comment, br, u) && t == blanks + (comment + (br + u))
  {
    blanks := TakeBlanks(t);
    var w := B.SkipBlanks(t);
    var x := w;
    comment := [];
    if At(w, 0) == 0x23 {
      comment, x := TakeLine(w);
      CommentSkipped(comment, x);
    }
    assert w == comment + x;
    var u: seq<Rune>;
    br, u := TakeBreak(x);
    if br != [] {
      F.BreakRead(br, u);
    } else {
      assert [] + u == u;
    }
  }

  lemma HeadFound(t: seq<Rune>, col: nat) returns (h: Head)
    requires B.ReadHeader(t, col).Header?
    ensures IsHead(h, B.ReadHeader(t, col).rest) && t == HeadText(h) + B.ReadHeader(t, col).rest
  {
    hide B.ReadHeader, B.EndOfHeader, IsHeadEnd, Indicators;
    var sign, hint, signFirst, w := IndicatorsFound(t, col);
    var i := Indicators(sign, hint, signFirst);
    var blanks, comment, br := EndFound(ChompingOf(sign), HintOf(hint), w, col + |i|);
    h := Head(sign, hint, signFirst, blanks, comment, br);
    Assoc(i, blanks, comment, br, B.ReadHeader(t, col).rest);
  }

  lemma IndicatorsFound(t: seq<Rune>, col: nat)
    returns (sign: seq<Rune>, hint: seq<Rune>, signFirst: bool, w: seq<Rune>)
    requires B.ReadHeader(t, col).Header?
    ensures IsSign(sign) && IsHint(hint) && t == Indicators(sign, hint, signFirst) + w
    ensures B.ReadHeader(t, col)
         == B.EndOfHeader(ChompingOf(sign), HintOf(hint), w, col + |Indicators(sign, hint, signFirst)|)
  {
    hide B.EndOfHeader;
    sign, hint, signFirst, w := [], [], true, t;
    var c := At(t, 0);
    if B.Chomping(c) != 0 {
      sign, w := [c], t[1..];
      if Digit(At(t, 1)) {
        hint, w := [t[1]], t[2..];
      }
    } else if Digit(c) {
      signFirst, hint, w := false, [c], t[1..];
      if B.Chomping(At(t, 1)) != 0 {
        sign, w := [t[1]], t[2..];
      }
    }
  }

  // ---- Whole scalars ----

  lemma NothingAtEnd(b: B.Block, u: seq<Rune>, col: nat)
    requires At(u, 0) == 0
    ensures B.Content(b, u, col, B.Gap([], [], false)) == Done([], u)
    ensures B.Detect(u, col, 0, []) == B.Detected(u, col, col, [])
  {
    assert B.Chomped(b, [], []) == [];
  }

  /** What the scanner does behind the header. */
  function Behind(literal: bool, parserIndent: int, h: Head, u: seq<Rune>): Result
    requires HintOf(h.hint) >= 0
  {
    if HintOf(h.hint) > 0 then
      B.Content(B.Block(literal, Max(parserIndent, 0) + HintOf(h.hint), ChompingOf(h.sign)), u, 0, B.Gap([], [], false))
    else
      match B.Detect(u, 0, 0, [])
      case BadIndent => Fail
      case Detected(_, _, depth, _) =>
        B.Content(B.Block(literal, Max(Max(depth, parserIndent + 1), 1), ChompingOf(h.sign)), u, 0, B.Gap([], [], false))
  }

  lemma ScanBehind(literal: bool, parserIndent: int, h: Head, u: seq<Rune>, col: nat)
    requires IsHead(h, u) && parserIndent >= -1
    ensures HintOf(h.hint) >= 0 && B.Scan(literal, parserIndent, HeadText(h) + u, col) == Behind(literal, parserIndent, h, u)
  {
    HeadReads(h, u, col);
    var c := ColumnAfter(h.br, col + |HeadText(h)|);
    var b := B.Block(literal, Max(parserIndent, 0) + HintOf(h.hint), ChompingOf(h.sign));
    hide B.ReadHeader, B.Content, B.Detect, HeadText;
    if h.br == [] {
      NothingAtEnd(b, u, c);
      NothingAtEnd(b, u, 0);
      NothingAtEnd(B.Block(literal, Max(Max(c, parserIndent + 1), 1), ChompingOf(h.sign)), u, c);
      NothingAtEnd(B.Block(literal, Max(Max(0, parserIndent + 1), 1), ChompingOf(h.sign)), u, 0);
    } else if B.Detect(u, 0, 0, []).Detected? {
      var depth := B.Detect(u, 0, 0, []).depth;
      DetectIsGap(B.Block(literal, Max(Max(depth, parserIndent + 1), 1), ChompingOf(h.sign)), u, 0, 0, []);
    }
  }

  /** A header, the indentation of the lines, the lines, and the spaces before what follows. */
  datatype Spelling = Spelling(head: Head, indent: nat, lines: seq<Line>, k: nat)

  /** The text behind the indicator is that of `s`, and of `rest`. */
  predicate Written(parserIndent: int, s: Spelling, t: seq<Rune>, rest: seq<Rune>) {
    var u := Text(s.indent, s.lines) + (Spaces(s.k) + rest);
    && t == HeadText(s.head) + u && IsHead(s.head, u)
    && Nonempty(s.lines) && Spelled(s.indent, s.lines, s.k, u, rest)
    && (if HintOf(s.head.hint) > 0 then s.indent == Max(parserIndent, 0) + HintOf(s.head.hint)
        else SetByLines(parserIndent, s.indent, s.lines, s.k))
  }

  lemma WrittenReads(literal: bool, parserIndent: int, s: Spelling, t: seq<Rune>, rest: seq<Rune>, col: nat)
    requires parserIndent >= -1 && Written(parserIndent, s, t, rest)
    ensures B.Scan(literal, parserIndent, t, col) == Done(Value(literal, ChompingOf(s.head.sign), s.lines), rest)
  {
    hide B.Scan, B.Content, B.Detect, Spelled, Value, Remaining, IsHead;
    var u := Text(s.indent, s.lines) + (Spaces(s.k) + rest);
    var b := B.Block(literal, s.indent, ChompingOf(s.head.sign));
    ScanBehind(literal, parserIndent, s.head, u, col);
    if HintOf(s.head.hint) == 0 {
      DetectsIndent(parserIndent, s.indent, s.lines, s.k, u, rest);
    }
    Reads(b, s.lines, s.k, u, rest, [], [], false);
    FromStart(b, s.lines);
  }

  lemma BodyFound(literal: bool, parserIndent: int, h: Head, u: seq<Rune>)
    returns (indent: nat, ls: seq<Line>, k: nat)
    requires parserIndent >= -1 && HintOf(h.hint) >= 0 && Behind(literal, parserIndent, h, u).Done?
    ensures var d := Behind(literal, parserIndent, h, u);
            && Nonempty(ls) && Spelled(indent, ls, k, u, d.rest) && Value(literal, ChompingOf(h.sign), ls) == d.value
            && (if HintOf(h.hint) > 0 then indent == Max(parserIndent, 0) + HintOf(h.hint)
                else SetByLines(parserIndent, indent, ls, k))
  {
    hide B.Content, B.Detect, Spelled, Value, Remaining, SetByLines;
    indent := if HintOf(h.hint) > 0 then Max(parserIndent, 0) + HintOf(h.hint)
              else Max(Max(B.Detect(u, 0, 0, []).depth, parserIndent + 1), 1);
    var b := B.Block(literal, indent, ChompingOf(h.sign));
    ls, k := IsSpelled(b, u, [], [], false);
    if HintOf(h.hint) == 0 {
      DetectsIndent(parserIndent, indent, ls, k, u, Behind(literal, parserIndent, h, u).rest);
    }
    FromStart(b, ls);
  }

  lemma IsWritten(literal: bool, parserIndent: int, t: seq<Rune>, col: nat) returns (s: Spelling)
    requires parserIndent >= -1 && B.Scan(literal, parserIndent, t, col).Done?
    ensures var d := B.Scan(literal, parserIndent, t, col);
            Written(parserIndent, s, t, d.rest) && Value(literal, ChompingOf(s.head.sign), s.lines) == d.value
  {
    assert B.ReadHeader(t, col).Header?;
    hide B.Scan, B.ReadHeader, Spelled, Value, IsHead, Behind, SetByLines;
    var h := HeadFound(t, col);
    var u := B.ReadHeader(t, col).rest;
    ScanBehind(literal, parserIndent, h, u, col);
    var indent, ls, k := BodyFound(literal, parserIndent, h, u);
    SpelledText(indent, ls, k, u, B.Scan(literal, parserIndent, t, col).rest);
    s := Spelling(h, indent, ls, k);
  }

  lemma SpelledText(indent: nat, ls: seq<Line>, k: nat, t: seq<Rune>, rest: seq<Rune>)
    requires Spelled(indent, ls, k, t, rest)
    ensures t == Text(indent, ls) + (Spaces(k) + rest)
  {
  }

  /** Behind its indicator the scanner reads a value exactly if the text is written so, by a header and
      lines whose value it is. */
  lemma ReadsExactly(literal: bool, parserIndent: int, t: seq<Rune>, col: nat, v: seq<Rune>, rest: seq<Rune>)
    requires parserIndent >= -1
    ensures B.Scan(literal, parserIndent, t, col) == Done(v, rest)
       <==> exists s :: Written(parserIndent, s, t, rest) && Value(literal, ChompingOf(s.head.sign), s.lines) == v
  {
    hide B.Scan, Value;
    if B.Scan(literal, parserIndent, t, col) == Done(v, rest) {
      var s := IsWritten(literal, parserIndent, t, col);
    }
    forall s | Written(parserIndent, s, t, rest)
      ensures B.Scan(literal, parserIndent, t, col) == Done(Value(literal, ChompingOf(s.head.sign), s.lines), rest)
    {
      WrittenReads(literal, parserIndent, s, t, rest, col);
    }
  }
}
