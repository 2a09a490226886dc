/** Literal block scalars read back as they were written. */
module LiteralRoundTrip {
  import opened Utf8
  import opened CharClass
  import opened FlowScalar
  import opened ScalarText
  import opened FlowScanSteps
  import B = BlockScalar

  /** What follows the scalar: the end of input, or a line with less indentation. A value that
      does not end with a break needs one before that line. */
  datatype Follow = Follow(newline: bool, k: nat, rest: seq<Rune>)

  predicate Follows(s: Style, v: seq<Rune>, f: Follow) {
    && (f.rest == [] || (!Blank(f.rest[0]) && !Break(f.rest[0])))
    && f.k < s.indent
    && v != []
    && (if Break(v[|v| - 1]) then !f.newline else f.newline || (f.k == 0 && f.rest == []))
  }

  function FollowText(s: Style, f: Follow): seq<Rune> {
    (if f.newline then s.br else []) + (Spaces(f.k) + f.rest)
  }

  function Text(s: Style, v: seq<Rune>, i: nat, p: Pen, breaks: bool, f: Follow): seq<Rune>
    requires i <= |v|
  {
    Literal(s, v, i, p, breaks) + FollowText(s, f)
  }

  /** All characters can be printed and the setting is one the emitter uses. */
  predicate Ready(s: Style, v: seq<Rune>, f: Follow) {
    LineBreak(s.br) && s.indent >= 1 && !Special(s.unicode, v) && Follows(s, v, f)
  }

  lemma CharsAllowed(s: Style, v: seq<Rune>, i: nat)
    requires !Special(s.unicode, v) && i < |v|
    ensures Printable(v[i])
  {
  }

  lemma TextBreak(s: Style, v: seq<Rune>, i: nat, p: Pen, breaks: bool, f: Follow)
    requires i < |v| && Break(v[i])
    ensures Text(s, v, i, p, breaks, f)
         == WrittenBreak(s, v[i]) + Text(s, v, i + 1, Pen(0, p.whitespace, true), true, f)
  {
    var d := Literal(s, v, i + 1, Pen(0, p.whitespace, true), true);
    assert (WrittenBreak(s, v[i]) + d) + FollowText(s, f) == WrittenBreak(s, v[i]) + (d + FollowText(s, f));
  }

  lemma TextChar(s: Style, v: seq<Rune>, i: nat, p: Pen, f: Follow)
    requires i < |v| && !Break(v[i])
    ensures Text(s, v, i, p, false, f)
         == [v[i]] + Text(s, v, i + 1, Pen(p.col + 1, p.whitespace, false), false, f)
  {
    var d := Literal(s, v, i + 1, Pen(p.col + 1, p.whitespace, false), false);
    assert Literal(s, v, i, p, false) == [] + ([v[i]] + d);
    assert ([] + ([v[i]] + d)) + FollowText(s, f) == [v[i]] + (d + FollowText(s, f));
  }

  lemma TextIndent(s: Style, v: seq<Rune>, i: nat, w: bool, f: Follow)
    requires i < |v| && !Break(v[i]) && s.indent >= 1
    ensures Text(s, v, i, Pen(0, w, true), true, f)
         == Spaces(s.indent) + Text(s, v, i, AfterIndent(s), false, f)
  {
    var d := Literal(s, v, i + 1, Pen(s.indent + 1, true, false), false);
    assert Literal(s, v, i, Pen(0, w, true), true) == Spaces(s.indent) + ([v[i]] + d);
    assert Literal(s, v, i, AfterIndent(s), false) == [] + ([v[i]] + d);
    assert (Spaces(s.indent) + ([v[i]] + d)) + FollowText(s, f)
        == Spaces(s.indent) + ([] + ([v[i]] + d) + FollowText(s, f));
  }

  lemma NoStrayLF(s: Style, v: seq<Rune>, i: nat, w: bool, f: Follow)
    requires Ready(s, v, f) && i <= |v| && s.br == [CR] && (i == |v| ==> !f.newline)
    ensures At(Text(s, v, i, Pen(0, w, true), true, f), 0) != LF
  {
    if i < |v| {
      if Break(v[i]) {
        TextBreak(s, v, i, Pen(0, w, true), true, f);
      } else {
        TextIndent(s, v, i, w, f);
      }
    }
  }

  // ---- Steps of the block scanner ----

  lemma {:induction false} SkipIndent(b: B.Block, n: nat, t: seq<Rune>, col: nat, m: B.Mode)
    requires m.Gap? && col + n <= b.indent
    ensures B.Content(b, Spaces(n) + t, col, m) == B.Content(b, t, col + n, m)
    decreases n
  {
    if n == 0 {
      assert Spaces(0) + t == t;
    } else {
      assert (Spaces(n) + t)[1..] == Spaces(n - 1) + t;
      SkipIndent(b, n - 1, t, col + 1, m);
    }
  }

  lemma StartLine(b: B.Block, c: Rune, u: seq<Rune>, lead: seq<Rune>, trail: seq<Rune>, blank: bool)
    requires b.literal && !Break(c) && c != 0
    ensures B.Content(b, [c] + u, b.indent, B.Gap(lead, trail, blank))
         == Push(lead + trail, B.Content(b, [c] + u, b.indent, B.Line(Blank(c))))
  {
  }

  lemma StepChar(b: B.Block, c: Rune, u: seq<Rune>, col: nat, m: B.Mode)
    requires m.Line? && !Break(c) && c != 0
    ensures B.Content(b, [c] + u, col, m) == Push([c], B.Content(b, u, col + 1, m))
  {
    assert ([c] + u)[1..] == u;
  }

  lemma StepBreak(b: B.Block, br: seq<Rune>, c: Rune, u: seq<Rune>, col: nat, blank: bool)
    requires BreakAs(br, c) && (br == [CR] ==> At(u, 0) != LF)
    ensures B.Content(b, br + u, col, B.Line(blank)) == B.Content(b, u, 0, B.Gap([c], [], blank))
  {
    ReadBreak(br, c, u);
  }

  lemma StepMoreBreak(b: B.Block, br: seq<Rune>, c: Rune, u: seq<Rune>, lead: seq<Rune>, trail: seq<Rune>, blank: bool)
    requires BreakAs(br, c) && (br == [CR] ==> At(u, 0) != LF)
    ensures B.Content(b, br + u, 0, B.Gap(lead, trail, blank))
         == B.Content(b, u, 0, B.Gap(lead, trail + [c], blank))
  {
    ReadBreak(br, c, u);
  }

  lemma StepEnd(b: B.Block, k: nat, u: seq<Rune>, lead: seq<Rune>, trail: seq<Rune>, blank: bool)
    requires k < b.indent && (u == [] || (!Blank(u[0]) && !Break(u[0])))
    ensures B.Content(b, Spaces(k) + u, 0, B.Gap(lead, trail, blank))
         == Done(B.Chomped(b, lead, trail), u)
  {
    SkipIndent(b, k, u, 0, B.Gap(lead, trail, blank));
  }

  // ---- The content ----

  /** The block header the emitter wrote for `v`. */
  ghost predicate HeaderFor(b: B.Block, s: Style, v: seq<Rune>)
    requires v != []
  {
    && b.literal && b.indent == s.indent
    && ChompHint(v) == (if b.chomping == -1 then [0x2D] else if b.chomping == 1 then [0x2B] else [])
    && -1 <= b.chomping <= 1
  }

  /** `lead` and `trail` are the run of breaks that ends at v[i - 1]. */
  ghost predicate Run(v: seq<Rune>, i: nat, lead: seq<Rune>, trail: seq<Rune>)
    requires i <= |v|
  {
    i > 0 ==> Break(v[i - 1]) && (trail != [] ==> i == 1 || Break(v[i - 2]))
  }

  lemma Cons(p: seq<Rune>, v: seq<Rune>, i: nat)
    requires i < |v|
    ensures p + [v[i]] + v[i + 1..] == p + v[i..]
    ensures [v[i]] + v[i + 1..] == v[i..]
  {
  }

  lemma ConsTrail(lead: seq<Rune>, trail: seq<Rune>, v: seq<Rune>, i: nat)
    requires i < |v|
    ensures lead + (trail + [v[i]]) + v[i + 1..] == lead + trail + v[i..]
  {
    Cons(lead + trail, v, i);
    assert lead + (trail + [v[i]]) == lead + trail + [v[i]];
  }

  lemma EndsInBreaks(b: B.Block, s: Style, v: seq<Rune>, w: bool, f: Follow,
      lead: seq<Rune>, trail: seq<Rune>, blank: bool)
    requires Ready(s, v, f) && HeaderFor(b, s, v) && Run(v, |v|, lead, trail)
    ensures B.Content(b, Text(s, v, |v|, Pen(0, w, true), true, f), 0, B.Gap(lead, trail, blank))
         == Done(lead + trail, f.rest)
  {
    hide B.Content;
    assert Text(s, v, |v|, Pen(0, w, true), true, f) == Spaces(f.k) + f.rest;
    StepEnd(b, f.k, f.rest, lead, trail, blank);
    assert B.Chomped(b, lead, trail) == lead + trail;
  }

  lemma {:induction false} InBreaks(b: B.Block, s: Style, v: seq<Rune>, i: nat, w: bool, f: Follow,
      lead: seq<Rune>, trail: seq<Rune>, blank: bool)
    requires Ready(s, v, f) && i <= |v| && HeaderFor(b, s, v) && Run(v, i, lead, trail)
    ensures B.Content(b, Text(s, v, i, Pen(0, w, true), true, f), 0, B.Gap(lead, trail, blank))
         == Done(lead + trail + v[i..], f.rest)
    decreases |v| - i, 1
  {
    hide B.Content;
    if i == |v| {
      EndsInBreaks(b, s, v, w, f, lead, trail, blank);
      assert lead + trail + v[i..] == lead + trail;
      return;
    }
    hide Literal;
    hide Text;
    CharsAllowed(s, v, i);
    if Break(v[i]) {
      var u := Text(s, v, i + 1, Pen(0, w, true), true, f);
      TextBreak(s, v, i, Pen(0, w, true), true, f);
      if s.br == [CR] {
        NoStrayLF(s, v, i + 1, w, f);
      }
      StepMoreBreak(b, WrittenBreak(s, v[i]), v[i], u, lead, trail, blank);
      InBreaks(b, s, v, i + 1, w, f, lead, trail + [v[i]], blank);
      ConsTrail(lead, trail, v, i);
    } else {
      var t := Text(s, v, i, AfterIndent(s), false, f);
      TextIndent(s, v, i, w, f);
      SkipIndent(b, s.indent, t, 0, B.Gap(lead, trail, blank));
      TextChar(s, v, i, AfterIndent(s), f);
      StartLine(b, v[i], Text(s, v, i + 1, Pen(s.indent + 1, true, false), false, f), lead, trail, blank);
      InLine(b, s, v, i, AfterIndent(s), f, s.indent, Blank(v[i]));
    }
  }

  lemma {:induction false} InLine(b: B.Block, s: Style, v: seq<Rune>, i: nat, p: Pen, f: Follow,
      col: nat, blank: bool)
    requires Ready(s, v, f) && i <= |v| && HeaderFor(b, s, v) && (i == |v| ==> !Break(v[i - 1]))
    ensures B.Content(b, Text(s, v, i, p, false, f), col, B.Line(blank)) == Done(v[i..], f.rest)
    decreases |v| - i, 0
  {
    hide B.Content;
    hide Literal;
    hide Text;
    if i == |v| {
      AtEnd(b, s, v, p, f, col, blank);
      return;
    }
    CharsAllowed(s, v, i);
    Cons([], v, i);
    if Break(v[i]) {
      var u := Text(s, v, i + 1, Pen(0, p.whitespace, true), true, f);
      TextBreak(s, v, i, p, false, f);
      if s.br == [CR] {
        NoStrayLF(s, v, i + 1, p.whitespace, f);
      }
      StepBreak(b, WrittenBreak(s, v[i]), v[i], u, col, blank);
      InBreaks(b, s, v, i + 1, p.whitespace, f, [v[i]], [], blank);
      assert [v[i]] + [] == [v[i]];
    } else {
      var q := Pen(p.col + 1, p.whitespace, false);
      TextChar(s, v, i, p, f);
      StepChar(b, v[i], Text(s, v, i + 1, q, false, f), col, B.Line(blank));
      InLine(b, s, v, i + 1, q, f, col + 1, blank);
    }
  }

  /** The value ends without a break, which '-' makes good. */
  lemma AtEnd(b: B.Block, s: Style, v: seq<Rune>, p: Pen, f: Follow, col: nat, blank: bool)
    requires Ready(s, v, f) && HeaderFor(b, s, v) && !Break(v[|v| - 1])
    ensures B.Content(b, Text(s, v, |v|, p, false, f), col, B.Line(blank)) == Done([], f.rest)
  {
    assert Text(s, v, |v|, p, false, f) == FollowText(s, f);
    if f.newline {
      StepBreak(b, s.br, LF, Spaces(f.k) + f.rest, col, blank);
      StepEnd(b, f.k, f.rest, [LF], [], blank);
    }
  }

  // ---- The header ----

  lemma HeaderEnd(chomping: int, increment: int, br: seq<Rune>, u: seq<Rune>, col: nat)
    requires LineBreak(br) && (br == [CR] ==> At(u, 0) != LF)
    ensures B.EndOfHeader(chomping, increment, br + u, col) == B.Header(chomping, increment, u, 0)
  {
    ReadBreak(br, LF, u);
  }

  function Increment(bestIndent: nat, v: seq<Rune>): nat
    requires v != []
  {
    if v[0] == SPACE || Break(v[0]) then bestIndent else 0
  }

  function ChompSign(v: seq<Rune>): int
    requires v != []
  {
    if ChompHint(v) == [] then 0 else B.Chomping(ChompHint(v)[0])
  }

  lemma HintsRead(bestIndent: nat, v: seq<Rune>, w: seq<Rune>, col: nat)
    requires v != [] && 2 <= bestIndent <= 9 && w != [] && Break(w[0])
    ensures var h := BlockHints(bestIndent, v);
            B.ReadHeader(h + w, col)
            == B.EndOfHeader(ChompSign(v), Increment(bestIndent, v), w, col + |h|)
  {
    hide B.EndOfHeader;
    var h := BlockHints(bestIndent, v);
    var t := h + w;
    assert t[|h|..] == w;
    if h == [] {
      assert t == w;
    }
  }

  /** The indentation is told only where it could be mistaken: if the value begins with a space or a break. */
  lemma HintOnlyIfNeeded(bestIndent: nat, v: seq<Rune>)
    requires v != [] && bestIndent <= 9
    ensures (exists i | 0 <= i < |BlockHints(bestIndent, v)| :: Digit(BlockHints(bestIndent, v)[i]))
       <==> v[0] in {SPACE, CR, LF, NEL, LS, PS}
  {
    var h := BlockHints(bestIndent, v);
    if v[0] in {SPACE, CR, LF, NEL, LS, PS} {
      assert Digit(h[0]);
    }
  }

  lemma HeaderReads(s: Style, bestIndent: nat, v: seq<Rune>, u: seq<Rune>, col: nat)
    requires v != [] && 2 <= bestIndent <= 9 && LineBreak(s.br) && (s.br == [CR] ==> At(u, 0) != LF)
    ensures B.ReadHeader(BlockHints(bestIndent, v) + (s.br + u), col)
         == B.Header(ChompSign(v), Increment(bestIndent, v), u, 0)
  {
    hide B.ReadHeader;
    HintsRead(bestIndent, v, s.br + u, col);
    HeaderEnd(ChompSign(v), Increment(bestIndent, v), s.br, u, col + |BlockHints(bestIndent, v)|);
  }

  /** Every non-empty printable value, written with the emitter's indentation for a block of
      the parser's, reads back, whatever ends the block. */
  lemma RoundTrip(s: Style, bestIndent: nat, parserIndent: int, v: seq<Rune>, f: Follow, col: nat)
    requires Ready(s, v, f) && 2 <= bestIndent <= 9 && parserIndent >= -1
    requires s.indent == Max(parserIndent, 0) + bestIndent
    ensures B.Scan(true, parserIndent, LiteralWritten(s, bestIndent, v) + FollowText(s, f), col) == Done(v, f.rest)
  {
    hide B.Content;
    hide B.ReadHeader;
    hide B.Detect;
    hide Literal;
    hide Text;
    hide BlockHints;
    hide ChompHint;
    var u := Text(s, v, 0, Pen(0, true, true), true, f);
    WrittenText(s, bestIndent, v, f);
    if s.br == [CR] {
      NoStrayLF(s, v, 0, true, f);
    }
    HeaderReads(s, bestIndent, v, u, col);
    hide FollowText;
    ContentReads(s, v, f);
    if Increment(bestIndent, v) == 0 {
      CharsAllowed(s, v, 0);
      DetectsIndent(B.Block(true, s.indent, ChompSign(v)), s, v, f);
    }
  }

  lemma WrittenText(s: Style, bestIndent: nat, v: seq<Rune>, f: Follow)
    requires v != [] && bestIndent <= 9
    ensures LiteralWritten(s, bestIndent, v) + FollowText(s, f)
         == BlockHints(bestIndent, v) + (s.br + Text(s, v, 0, Pen(0, true, true), true, f))
  {
    hide Literal;
    hide FollowText;
    hide BlockHints;
    Assoc3(BlockHints(bestIndent, v), s.br, Literal(s, v, 0, Pen(0, true, true), true), FollowText(s, f));
  }

  lemma ContentReads(s: Style, v: seq<Rune>, f: Follow)
    requires Ready(s, v, f)
    ensures B.Content(B.Block(true, s.indent, ChompSign(v)), Text(s, v, 0, Pen(0, true, true), true, f), 0,
                      B.Gap([], [], false)) == Done(v, f.rest)
  {
    InBreaks(B.Block(true, s.indent, ChompSign(v)), s, v, 0, true, f, [], [], false);
    assert [] + [] + v[0..] == v;
  }

  /** Without a hint the first line shows the indentation. */
  lemma DetectsIndent(b: B.Block, s: Style, v: seq<Rune>, f: Follow)
    requires Ready(s, v, f) && !Blank(v[0]) && !Break(v[0]) && b.indent == s.indent
    ensures var u := Text(s, v, 0, Pen(0, true, true), true, f);
            var w := Text(s, v, 0, AfterIndent(s), false, f);
            && B.Detect(u, 0, 0, []) == B.Detected(w, s.indent, s.indent, [])
            && B.Content(b, u, 0, B.Gap([], [], false)) == B.Content(b, w, s.indent, B.Gap([], [], false))
  {
    hide B.Content;
    hide B.Detect;
    hide Literal;
    hide Text;
    var w := Text(s, v, 0, AfterIndent(s), false, f);
    TextIndent(s, v, 0, true, f);
    TextChar(s, v, 0, AfterIndent(s), f);
    DetectIndent(s.indent, w, 0);
    SkipIndent(b, s.indent, w, 0, B.Gap([], [], false));
  }

  lemma {:induction false} DetectIndent(n: nat, t: seq<Rune>, col: nat)
    requires t != [] && !Blank(t[0]) && !Break(t[0])
    ensures B.Detect(Spaces(n) + t, col, 0, []) == B.Detected(t, col + n, col + n, [])
    decreases n
  {
    if n == 0 {
      assert Spaces(0) + t == t;
    } else {
      assert (Spaces(n) + t)[1..] == Spaces(n - 1) + t;
      DetectIndent(n - 1, t, col + 1);
    }
  }
}
