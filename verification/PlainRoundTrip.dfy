/** Plain scalars that the analysis allows read back as they were written, in blocks and in flow
    collections; and the analysis is exact. */
module PlainRoundTrip {
  import opened Utf8
  import opened CharClass
  import opened ScalarText
  import opened PlainScalar
  import F = FlowScalar
  import S = ScannerSpec
  import K = ScannerTable

  // ---- What follows a plain scalar ----

  /** In whatever column, the scalar ends before `rest`: there `r` is left, behind a break if `broken`. */
  ghost predicate EndsBefore(flow: bool, indent: int, rest: seq<Rune>, r: seq<Rune>, broken: bool) {
    forall col: nat :: Scan(flow, indent, rest, col, Word, Nothing) == Done([], r, broken)
  }

  /** The end of the input, a ':' with a blank behind it, or an indicator of a flow collection. */
  lemma EndsAtOnce(flow: bool, indent: int, rest: seq<Rune>)
    requires F.At(rest, 0) == 0 || Ends(flow, rest)
    ensures EndsBefore(flow, indent, rest, rest, false)
  {
  }

  /** A line break, and a line that is indented less. */
  lemma EndsWithLine(indent: int, br: seq<Rune>, k: nat, u: seq<Rune>)
    requires LineBreak(br) && k < indent && u != [] && !White(u[0])
    ensures EndsBefore(false, indent, br + Spaces(k) + u, u, true)
  {
    var w := Spaces(k) + u;
    var t := br + Spaces(k) + u;
    assert t == br + w && t[|br|..] == w;
    assert F.At(w, 0) != LF;
    assert t[0] == br[0];
    forall col: nat
      ensures Scan(false, indent, t, col, Word, Nothing) == Done([], u, true)
    {
      WordStep(false, indent, t, col, Nothing, []);
      GapStep(false, indent, t, col, Nothing);
      SkipSpaces(false, indent, k, u, 0, Breaks([LF], []));
      GapStep(false, indent, u, k, Breaks([LF], []));
      hide Scan;
    }
  }

  /** A blank and a comment. */
  lemma EndsWithComment(flow: bool, indent: int, u: seq<Rune>)
    requires u != [] && u[0] == '#' as int
    ensures EndsBefore(flow, indent, [SPACE] + u, u, false)
  {
    var t := [SPACE] + u;
    assert t[1..] == u;
    forall col: nat
      ensures Scan(flow, indent, t, col, Word, Nothing) == Done([], u, false)
    {
      WordStep(flow, indent, t, col, Nothing, []);
      GapStep(flow, indent, t, col, Nothing);
      GapStep(flow, indent, u, col + 1, Blanks([SPACE]));
      TopStep(flow, indent, u, col + 1, Blanks([SPACE]));
      hide Scan;
    }
  }

  lemma {:induction false} SkipSpaces(flow: bool, indent: int, n: nat, u: seq<Rune>, col: nat, p: Pending)
    requires p.Breaks?
    ensures Scan(flow, indent, Spaces(n) + u, col, Gap, p) == Scan(flow, indent, u, col + n, Gap, p)
    decreases n
  {
    if n == 0 {
      assert Spaces(0) + u == u;
    } else {
      var t := Spaces(n) + u;
      assert t[0] == SPACE && t[1..] == Spaces(n - 1) + u;
      GapStep(flow, indent, t, col, p);
      hide Scan;
      SkipSpaces(flow, indent, n - 1, u, col + 1, p);
    }
  }

  // ---- What the analysis says of the characters ----

  predicate Allowed(flow: bool, unicode: bool, v: seq<Rune>) {
    v != [] && if flow then FlowPlainAllowed(unicode, v) else BlockPlainAllowed(unicode, v)
  }

  /** Nothing ends the scalar at v[i], whatever precedes it. */
  predicate Inner(flow: bool, v: seq<Rune>, i: nat)
    requires i < |v|
  {
    && !BlankZ(v[i]) && (flow ==> !FlowEnd(v[i]))
    && (v[i] == 0x23 ==> i > 0 && v[i - 1] != SPACE)
    && (v[i] == 0x3A ==> i + 1 < |v| && !BlankZ(v[i + 1]))
  }

  lemma CharsAllowed(flow: bool, unicode: bool, v: seq<Rune>, i: nat)
    requires Allowed(flow, unicode, v) && i < |v|
    ensures v[i] == SPACE || Inner(flow, v, i)
    ensures v[i] == SPACE ==> 0 < i < |v| - 1
  {
    assert !SpecialChar(unicode, v[i]) && !Break(v[i]);
    if i + 1 < |v| {
      assert !SpecialChar(unicode, v[i + 1]) && !Break(v[i + 1]);
    }
    if flow {
      assert !FlowIndicator(v, i);
    } else {
      assert !BlockIndicator(v, i);
    }
  }

  // ---- The text ----

  function Text(s: Style, v: seq<Rune>, i: nat, p: Pen, spaces: bool, rest: seq<Rune>): seq<Rune>
    requires i <= |v|
  {
    Plain(s, v, i, p, spaces, false) + rest
  }

  lemma OnePiece(s: Style, v: seq<Rune>, i: nat, p: Pen, spaces: bool, rest: seq<Rune>)
    requires i < |v|
    ensures var a := PlainPiece(s, v, i, p, spaces, false);
            !a.breaks ==> Text(s, v, i, p, spaces, rest) == a.text + Text(s, v, i + 1, a.pen, a.spaces, rest)
  {
    var a := PlainPiece(s, v, i, p, spaces, false);
    assert Plain(s, v, i, p, spaces, false) == a.text + Plain(s, v, i + 1, a.pen, a.spaces, a.breaks);
    hide Plain, PlainPiece;
    assert a.text + Plain(s, v, i + 1, a.pen, a.spaces, a.breaks) + rest
        == a.text + (Plain(s, v, i + 1, a.pen, a.spaces, a.breaks) + rest);
  }

  lemma TextChar(s: Style, v: seq<Rune>, i: nat, p: Pen, spaces: bool, rest: seq<Rune>)
    requires i < |v| && v[i] != SPACE && !Break(v[i])
    ensures Text(s, v, i, p, spaces, rest) == [v[i]] + Text(s, v, i + 1, Pen(p.col + 1, p.whitespace, false), false, rest)
  {
    OnePiece(s, v, i, p, spaces, rest);
    hide Text;
    assert [] + [v[i]] == [v[i]];
  }

  lemma TextSpace(s: Style, v: seq<Rune>, i: nat, p: Pen, spaces: bool, rest: seq<Rune>)
    requires i < |v| && v[i] == SPACE && !FoldsPlain(s, v, i, p, spaces)
    ensures Text(s, v, i, p, spaces, rest) == [SPACE] + Text(s, v, i + 1, p.(col := p.col + 1), true, rest)
  {
    OnePiece(s, v, i, p, spaces, rest);
  }

  lemma TextFold(s: Style, v: seq<Rune>, i: nat, p: Pen, rest: seq<Rune>)
    requires i < |v| && v[i] == SPACE && FoldsPlain(s, v, i, p, false) && !p.indention && s.indent >= 1
    ensures Text(s, v, i, p, false, rest) == s.br + Spaces(s.indent) + Text(s, v, i + 1, AfterIndent(s), true, rest)
  {
    OnePiece(s, v, i, p, false, rest);
  }

  // ---- Reading it back ----

  /** The writer's setting, and where the scanner reads. */
  ghost predicate Fits(flow: bool, s: Style, indent: int, v: seq<Rune>, rest: seq<Rune>, r: seq<Rune>, broken: bool) {
    && LineBreak(s.br) && s.indent >= 1 && (flow || indent <= s.indent)
    && Allowed(flow, s.unicode, v) && EndsBefore(flow, indent, rest, r, broken)
  }

  lemma Cons(a: seq<Rune>, v: seq<Rune>, i: nat)
    requires i < |v|
    ensures a + [v[i]] + v[i + 1..] == a + v[i..] && [] + v[i..] == v[i..]
  {
    assert v[i..] == [v[i]] + v[i + 1..];
  }

  lemma WordReads(flow: bool, indent: int, c: Rune, u: seq<Rune>, col: nat, held: Pending)
    requires !BlankZ(c) && !Ends(flow, [c] + u)
    ensures Scan(flow, indent, [c] + u, col, Word, held)
         == Push(PendingText(held) + [c], Scan(flow, indent, u, col + 1, Word, Nothing))
  {
    var t := [c] + u;
    assert t[1..] == u && t[0] == c;
    WordStep(flow, indent, t, col, held, []);
    hide Scan, PendingText;
    PushNothing(Scan(flow, indent, t, col, Word, held));
    assert [] + PendingText(held) + [c] == PendingText(held) + [c];
  }

  lemma NoEnd(flow: bool, s: Style, v: seq<Rune>, i: nat, p: Pen, rest: seq<Rune>)
    requires i < |v| && Inner(flow, v, i)
    ensures !BlankZ(v[i]) && !Break(v[i]) && !Ends(flow, [v[i]] + Text(s, v, i + 1, p, false, rest))
  {
    var u := Text(s, v, i + 1, p, false, rest);
    var t := [v[i]] + u;
    assert t[0] == v[i];
    if v[i] == 0x3A {
      TextChar(s, v, i + 1, p, false, rest);
      assert t[1] == u[0];
    }
  }

  /** A character that is no space, after whatever is held. */
  lemma {:induction false} InWord(flow: bool, s: Style, indent: int, v: seq<Rune>, i: nat, p: Pen, spaces: bool,
      rest: seq<Rune>, r: seq<Rune>, broken: bool, col: nat, held: Pending)
    requires Fits(flow, s, indent, v, rest, r, broken) && i < |v| && v[i] != SPACE
    requires flow || col + 1 >= indent
    ensures Scan(flow, indent, Text(s, v, i, p, spaces, rest), col, Word, held) == Done(PendingText(held) + v[i..], r, broken)
    decreases |v| - i, 0
  {
    var q := Pen(p.col + 1, p.whitespace, false);
    var u := Text(s, v, i + 1, q, false, rest);
    hide Scan, Text, Plain, Allowed, EndsBefore, Ends, Inner, BlankZ, Break, LineBreak, PendingText, Push;
    CharsAllowed(flow, s.unicode, v, i);
    NoEnd(flow, s, v, i, q, rest);
    TextChar(s, v, i, p, spaces, rest);
    WordReads(flow, indent, v[i], u, col, held);
    InLine(flow, s, indent, v, i + 1, q, false, rest, r, broken, col + 1, Nothing);
    PushMore(PendingText(held), v, i, r, broken);
  }

  lemma PushMore(a: seq<Rune>, v: seq<Rune>, i: nat, r: seq<Rune>, broken: bool)
    requires i < |v|
    ensures Push(a + [v[i]], Done(PendingText(Nothing) + v[i + 1..], r, broken)) == Done(a + v[i..], r, broken)
  {
    Cons(a, v, i);
    assert [] + v[i + 1..] == v[i + 1..];
  }

  lemma PendingNothing()
    ensures PendingText(Nothing) == [] && PendingText(Breaks([LF], [])) == [SPACE]
    ensures forall ws :: PendingText(Blanks(ws)) == ws
  {
  }

  /** A blank is held. */
  lemma SpaceReads(flow: bool, indent: int, u: seq<Rune>, col: nat, held: Pending)
    requires !held.Breaks?
    ensures Scan(flow, indent, [SPACE] + u, col, if held.Nothing? then Word else Gap, held)
         == Scan(flow, indent, u, col + 1, Gap, MoreBlank(held, SPACE))
  {
    var t := [SPACE] + u;
    assert t[0] == SPACE && t[1..] == u;
    WordStep(flow, indent, t, col, held, []);
    GapStep(flow, indent, t, col, held);
    hide Scan;
  }

  /** The scalar goes on. */
  lemma GapReads(flow: bool, indent: int, t: seq<Rune>, col: nat, held: Pending)
    requires !White(F.At(t, 0)) && F.At(t, 0) != 0x23 && col >= 1 && (flow || col >= indent)
    ensures Scan(flow, indent, t, col, Gap, held) == Scan(flow, indent, t, col, Word, held)
  {
    GapStep(flow, indent, t, col, held);
    TopStep(flow, indent, t, col, held);
  }

  /** A fold is held as one break. */
  lemma FoldReads(flow: bool, s: Style, indent: int, u: seq<Rune>, col: nat)
    requires LineBreak(s.br) && s.indent >= 1 && (flow || indent <= s.indent)
    requires !White(F.At(u, 0)) && F.At(u, 0) != 0x23
    ensures Scan(flow, indent, s.br + Spaces(s.indent) + u, col, Word, Nothing)
         == Scan(flow, indent, u, s.indent, Word, Breaks([LF], []))
  {
    var w := Spaces(s.indent) + u;
    var t := s.br + w;
    assert s.br + Spaces(s.indent) + u == t;
    BreakAhead(s, w);
    WordStep(flow, indent, t, col, Nothing, []);
    GapStep(flow, indent, t, col, Nothing);
    hide Scan, LineBreak;
    SkipSpaces(flow, indent, s.indent, u, 0, Breaks([LF], []));
    GapReads(flow, indent, u, s.indent, Breaks([LF], []));
  }

  lemma BreakAhead(s: Style, w: seq<Rune>)
    requires LineBreak(s.br) && w != [] && w[0] == SPACE
    ensures var t := s.br + w;
            F.AtBreak(t) && F.BreakLen(t) == |s.br| && F.BreakText(t) == [LF] && t[|s.br|..] == w
  {
    assert (s.br + w)[0] == s.br[0];
  }

  /** Behind v[i - 1], with the blanks held that stand there. */
  lemma {:induction false} InLine(flow: bool, s: Style, indent: int, v: seq<Rune>, i: nat, p: Pen, spaces: bool,
      rest: seq<Rune>, r: seq<Rune>, broken: bool, col: nat, held: Pending)
    requires Fits(flow, s, indent, v, rest, r, broken) && 0 < i <= |v| && (!spaces ==> !p.indention)
    requires col >= 1 && (flow || col >= indent)
    requires if v[i - 1] == SPACE then held.Blanks? && spaces else held.Nothing?
    ensures Scan(flow, indent, Text(s, v, i, p, spaces, rest), col, if held.Nothing? then Word else Gap, held)
         == Done(PendingText(held) + v[i..], r, broken)
    decreases |v| - i, 1
  {
    hide Scan, Plain, Allowed, PendingText;
    PendingNothing();
    if i == |v| {
      AtEnd(flow, s, indent, v, p, spaces, rest, r, broken, col);
      assert [] + v[i..] == [];
      return;
    }
    hide EndsBefore, Text;
    CharsAllowed(flow, s.unicode, v, i);
    if v[i] != SPACE {
      TextChar(s, v, i, p, spaces, rest);
      if !held.Nothing? {
        GapReads(flow, indent, Text(s, v, i, p, spaces, rest), col, held);
      }
      InWord(flow, s, indent, v, i, p, spaces, rest, r, broken, col, held);
    } else if FoldsPlain(s, v, i, p, spaces) {
      InLineFold(flow, s, indent, v, i, p, rest, r, broken, col);
      assert [] + v[i..] == v[i..];
    } else {
      var q := p.(col := p.col + 1);
      TextSpace(s, v, i, p, spaces, rest);
      SpaceReads(flow, indent, Text(s, v, i + 1, q, true, rest), col, held);
      InLine(flow, s, indent, v, i + 1, q, true, rest, r, broken, col + 1, MoreBlank(held, SPACE));
      HeldMore(held);
      Cons(PendingText(held), v, i);
    }
  }

  lemma HeldMore(held: Pending)
    requires !held.Breaks?
    ensures PendingText(MoreBlank(held, SPACE)) == PendingText(held) + [SPACE]
  {
  }

  lemma AtEnd(flow: bool, s: Style, indent: int, v: seq<Rune>, p: Pen, spaces: bool, rest: seq<Rune>, r: seq<Rune>,
      broken: bool, col: nat)
    requires Fits(flow, s, indent, v, rest, r, broken)
    ensures Scan(flow, indent, Text(s, v, |v|, p, spaces, rest), col, Word, Nothing) == Done([], r, broken)
    ensures v[|v| - 1] != SPACE
  {
    CharsAllowed(flow, s.unicode, v, |v| - 1);
    assert [] + rest == rest;
  }

  /** A fold, and the character behind it. */
  lemma {:induction false} InLineFold(flow: bool, s: Style, indent: int, v: seq<Rune>, i: nat, p: Pen,
      rest: seq<Rune>, r: seq<Rune>, broken: bool, col: nat)
    requires Fits(flow, s, indent, v, rest, r, broken) && 0 < i < |v| && v[i] == SPACE && !p.indention
    requires FoldsPlain(s, v, i, p, false)
    ensures Scan(flow, indent, Text(s, v, i, p, false, rest), col, Word, Nothing) == Done(v[i..], r, broken)
    decreases |v| - i, 0
  {
    hide Scan, Text, Plain, Allowed, EndsBefore, PendingText;
    CharsAllowed(flow, s.unicode, v, i);
    CharsAllowed(flow, s.unicode, v, i + 1);
    PendingNothing();
    var u := Text(s, v, i + 1, AfterIndent(s), true, rest);
    TextFold(s, v, i, p, rest);
    TextChar(s, v, i + 1, AfterIndent(s), true, rest);
    FoldReads(flow, s, indent, u, col);
    InWord(flow, s, indent, v, i + 1, AfterIndent(s), true, rest, r, broken, s.indent, Breaks([LF], []));
    assert [SPACE] + v[i + 1..] == v[i..];
  }

  // ---- The first character ----

  lemma RestFirst(flow: bool, indent: int, rest: seq<Rune>, r: seq<Rune>, broken: bool)
    requires EndsBefore(flow, indent, rest, r, broken)
    ensures BlankZ(F.At(rest, 0)) || Ends(flow, rest)
  {
    assert Scan(flow, indent, rest, 0, Word, Nothing) == Done([], r, broken);
  }

  lemma TextFirst(s: Style, v: seq<Rune>, i: nat, p: Pen, spaces: bool, rest: seq<Rune>)
    requires i <= |v| && LineBreak(s.br) && (!spaces ==> !p.indention) && (i < |v| ==> !Break(v[i])) && s.indent >= 1
    ensures var c := F.At(Text(s, v, i, p, spaces, rest), 0);
            if i == |v| then c == F.At(rest, 0) else if v[i] == SPACE then White(c) else c == v[i]
  {
    if i == |v| {
      assert [] + rest == rest;
    } else if v[i] != SPACE {
      TextChar(s, v, i, p, spaces, rest);
    } else if !FoldsPlain(s, v, i, p, spaces) {
      TextSpace(s, v, i, p, spaces, rest);
    } else {
      var u := Text(s, v, i + 1, AfterIndent(s), true, rest);
      TextFold(s, v, i, p, rest);
      assert (s.br + Spaces(s.indent) + u)[0] == s.br[0];
    }
  }

  /** A value on one line, of ordinary characters. */
  predicate Ordinary(v: seq<Rune>) {
    v != [] && forall i | 0 <= i < |v| :: v[i] == SPACE || !BlankZ(v[i])
  }

  lemma AllowedIsOrdinary(flow: bool, unicode: bool, v: seq<Rune>)
    requires Allowed(flow, unicode, v)
    ensures Ordinary(v) && !DocStart(v) && v[0] != SPACE
  {
    forall i | 0 <= i < |v|
      ensures v[i] == SPACE || !BlankZ(v[i])
    {
      CharsAllowed(flow, unicode, v, i);
    }
  }

  /** The text begins as its value, as far as that has no spaces; behind it there is no dash or dot. */
  lemma TextFirsts(s: Style, v: seq<Rune>, p: Pen, rest: seq<Rune>)
    requires LineBreak(s.br) && s.indent >= 1 && Ordinary(v) && v[0] != SPACE
    ensures var t := Text(s, v, 0, p, false, rest);
            && F.At(t, 0) == v[0]
            && (if |v| == 1 then F.At(t, 1) == F.At(rest, 0) else if v[1] == SPACE then White(F.At(t, 1)) else F.At(t, 1) == v[1])
            && (|v| > 1 && v[1] != SPACE ==>
                  if |v| == 2 then F.At(t, 2) == F.At(rest, 0) else if v[2] == SPACE then White(F.At(t, 2)) else F.At(t, 2) == v[2])
  {
    var q := Pen(p.col + 1, p.whitespace, false);
    var q2 := Pen(p.col + 2, p.whitespace, false);
    TextChar(s, v, 0, p, false, rest);
    TextFirst(s, v, 1, q, false, rest);
    if |v| > 1 && v[1] != SPACE {
      TextChar(s, v, 1, q, false, rest);
      TextFirst(s, v, 2, q2, false, rest);
      Seconds(v[1], Text(s, v, 2, q2, false, rest));
    }
    hide Text, Plain, Ordinary;
    Seconds(v[0], Text(s, v, 1, q, false, rest));
  }

  lemma Seconds(c: Rune, u: seq<Rune>)
    ensures forall i: nat | i <= |u| :: F.At([c] + u, i + 1) == F.At(u, i)
    ensures F.At([c] + u, 0) == c && F.At([c] + u, 1) == F.At(u, 0) && F.At([c] + u, 2) == F.At(u, 1)
  {
  }

  /** The text does not begin as a document indicator. */
  lemma NoIndicator(flow: bool, s: Style, v: seq<Rune>, p: Pen, rest: seq<Rune>)
    requires LineBreak(s.br) && s.indent >= 1 && Ordinary(v) && v[0] != SPACE && !DocStart(v)
    requires BlankZ(F.At(rest, 0)) || Ends(flow, rest)
    ensures !F.DocIndicator(Text(s, v, 0, p, false, rest))
  {
    TextFirsts(s, v, p, rest);
    hide Text, Ordinary;
  }

  /** What the token scanner sees at the first character of a text. */
  function LookAt(t: seq<Rune>): S.Look {
    S.Look(Encode(F.At(t, 0))[0], BlankZ(F.At(t, 0)), F.DocIndicator(t), Blank(F.At(t, 1)), BlankZ(F.At(t, 1)))
  }

  lemma FirstByte(c: Rune)
    ensures c < 0x80 ==> Encode(c)[0] == c
    ensures c >= 0x80 ==> Encode(c)[0] >= 0x80
  {
  }

  lemma StarterListed(k: nat)
    requires k < |K.INDICATORS|
    ensures var c := K.INDICATORS[k] as int; c < 0x80 && (Starter(c) || c == 0x2D || c == 0x3F || c == 0x3A)
  {
    var s := K.INDICATORS;
    assert s[0] == '-' && s[1] == '?' && s[2] == ':' && s[3] == ',' && s[4] == '[' && s[5] == ']' && s[6] == '{';
    assert s[7] == '}' && s[8] == '#' && s[9] == '&' && s[10] == '*' && s[11] == '!' && s[12] == '|' && s[13] == '>';
    assert s[14] == '\'' && s[15] == '"' && s[16] == '%' && s[17] == '@' && s[18] == '`';
  }

  lemma StarterIsListed(c: Rune)
    requires Starter(c) || c == 0x2D || c == 0x3F || c == 0x3A
    ensures exists k | 0 <= k < |K.INDICATORS| :: K.INDICATORS[k] as int == c
  {
    var s := K.INDICATORS;
    assert s[0] == '-' && s[1] == '?' && s[2] == ':' && s[3] == ',' && s[4] == '[' && s[5] == ']' && s[6] == '{';
    assert s[7] == '}' && s[8] == '#' && s[9] == '&' && s[10] == '*' && s[11] == '!' && s[12] == '|' && s[13] == '>';
    assert s[14] == '\'' && s[15] == '"' && s[16] == '%' && s[17] == '@' && s[18] == '`';
  }

  /** A text calls for a plain scalar exactly if its first character, with the one behind it, is none that
      the analysis calls an indicator there. */
  lemma CallsPlain(flow: bool, t: seq<Rune>, x: S.Lexeme)
    requires x.look == LookAt(t) && !F.DocIndicator(t) && !BlankZ(F.At(t, 0))
    ensures K.PlainHere(x, if flow then 1 else 0)
       <==> var c := F.At(t, 0);
            !(|| Starter(c)
              || (c == 0x2D && Blank(F.At(t, 1))) || (c == 0x2D && BlankZ(F.At(t, 1)))
              || (if flow then c == 0x3F || c == 0x3A else (c == 0x3F || c == 0x3A) && BlankZ(F.At(t, 1))))
  {
    var c := F.At(t, 0);
    FirstByte(c);
    hide Encode;
    if Starter(c) || c == 0x2D || c == 0x3F || c == 0x3A {
      StarterIsListed(c);
    }
    forall k | 0 <= k < |K.INDICATORS|
      ensures var d := K.INDICATORS[k] as int; d < 0x80 && (Starter(d) || d == 0x2D || d == 0x3F || d == 0x3A)
    {
      StarterListed(k);
    }
  }

  lemma CallsIfAllowed(flow: bool, s: Style, indent: int, v: seq<Rune>, p: Pen, rest: seq<Rune>, r: seq<Rune>, broken: bool, x: S.Lexeme)
    requires Fits(flow, s, indent, v, rest, r, broken) && x.look == LookAt(Text(s, v, 0, p, false, rest))
    ensures K.PlainHere(x, if flow then 1 else 0) && !F.DocIndicator(Text(s, v, 0, p, false, rest))
  {
    AllowedIsOrdinary(flow, s.unicode, v);
    RestFirst(flow, indent, rest, r, broken);
    TextFirsts(s, v, p, rest);
    NoIndicator(flow, s, v, p, rest);
    assert if flow then !FlowIndicator(v, 0) else !BlockIndicator(v, 0);
    CharsAllowed(flow, s.unicode, v, 0);
    hide Text, Plain, Allowed, EndsBefore, FlowPlainAllowed, BlockPlainAllowed;
    CallsPlain(flow, Text(s, v, 0, p, false, rest), x);
    hide K.PlainHere;
  }

  /** Whenever the analysis allows a plain scalar, what is written calls for one, and reads back as the value,
      with folds, in a block or in a flow collection. In a block the scalar begins at most one column left of
      where its lines go on. */
  lemma RoundTrip(flow: bool, s: Style, indent: int, v: seq<Rune>, p: Pen, rest: seq<Rune>, r: seq<Rune>, broken: bool, x: S.Lexeme)
    requires Fits(flow, s, indent, v, rest, r, broken) && (flow || x.start.column + 1 >= indent)
    ensures var w := if p.whitespace then 0 else 1;
            var t := PlainWritten(s, v, p) + rest;
            && |t| > w
            && (x.look == LookAt(t[w..]) ==> K.PlainHere(x, if flow then 1 else 0))
            && Scan(flow, indent, t[w..], x.start.column, Top, Nothing) == Done(v, r, broken)
  {
    var w := if p.whitespace then 0 else 1;
    var q := PlainStart(p);
    var t := Text(s, v, 0, q, false, rest);
    Behind(s, v, p, rest);
    CharsAllowed(flow, s.unicode, v, 0);
    TextChar(s, v, 0, q, false, rest);
    AllowedIsOrdinary(flow, s.unicode, v);
    RestFirst(flow, indent, rest, r, broken);
    NoIndicator(flow, s, v, q, rest);
    if x.look == LookAt(t) {
      CallsIfAllowed(flow, s, indent, v, q, rest, r, broken, x);
    }
    TopStep(flow, indent, t, x.start.column, Nothing);
    hide Scan, Text, Plain, Allowed, EndsBefore, K.PlainHere, LookAt, PlainWritten;
    InWord(flow, s, indent, v, 0, q, false, rest, r, broken, x.start.column, Nothing);
    PendingNothing();
    assert [] + v[0..] == v;
  }

  lemma Behind(s: Style, v: seq<Rune>, p: Pen, rest: seq<Rune>)
    ensures var w := if p.whitespace then 0 else 1;
            var t := PlainWritten(s, v, p) + rest;
            |t| >= w && t[w..] == Text(s, v, 0, PlainStart(p), false, rest)
  {
    hide Plain;
    AfterFirst(Plain(s, v, 0, PlainStart(p), false, false), rest);
  }

  lemma AfterFirst(d: seq<Rune>, rest: seq<Rune>)
    ensures ([] + d + rest)[0..] == d + rest && ([SPACE] + d + rest)[1..] == d + rest
  {
    assert [] + d == d;
  }

  // ---- The analysis is exact ----

  /** Blanks that are held do not matter where the scalar ends. */
  lemma {:induction false} NothingRead(flow: bool, indent: int, t: seq<Rune>, col: nat, m: Mode, p: Pending, q: Pending)
    requires Scan(flow, indent, t, col, m, p).Done? && Scan(flow, indent, t, col, m, p).value == []
    ensures Scan(flow, indent, t, col, m, q).Done? ==> Scan(flow, indent, t, col, m, q).value == []
    decreases |t|, Rank(m, t)
  {
    var c := F.At(t, 0);
    match m
    case Top =>
      if !((col == 0 && F.DocIndicator(t)) || c == 0x23) {
        NothingRead(flow, indent, t, col, Word, p, q);
      }
    case Word =>
      if White(c) {
        NothingRead(flow, indent, t, col, Gap, p, q);
      }
    case Gap =>
      if Blank(c) {
        if !(q.Breaks? && col < indent && c == TAB) {
          NothingRead(flow, indent, t[1..], col + 1, Gap, MoreBlank(p, c), MoreBlank(q, c));
        }
      } else if Break(c) {
        NothingRead(flow, indent, t[F.BreakLen(t)..], 0, Gap, MoreBreak(p, F.BreakText(t)), MoreBreak(q, F.BreakText(t)));
      } else if !(!flow && col < indent) {
        NothingRead(flow, indent, t, col, Top, p, q);
      }
  }

  /** Somewhere from v[i] on the scalar ends before the value does. */
  predicate EndsInside(flow: bool, v: seq<Rune>, i: nat)
    requires v != []
  {
    v[|v| - 1] == SPACE || exists j | i <= j < |v| :: v[j] != SPACE && !Inner(flow, v, j)
  }

  ghost predicate Tried(flow: bool, s: Style, indent: int, v: seq<Rune>, rest: seq<Rune>, r: seq<Rune>, broken: bool) {
    && LineBreak(s.br) && s.indent >= 1 && (flow || indent <= s.indent)
    && Ordinary(v) && BlankZ(F.At(rest, 0)) && EndsBefore(flow, indent, rest, r, broken)
  }

  predicate Shorter(d: Result, held: Pending, v: seq<Rune>, i: nat) {
    d.Done? ==> |d.value| < |PendingText(held)| + |v| - i
  }

  lemma PushShorter(d: Result, held: Pending, v: seq<Rune>, i: nat)
    requires i < |v| && Shorter(d, Nothing, v, i + 1)
    ensures Shorter(Push(PendingText(held) + [v[i]], d), held, v, i)
  {
  }

  /** An indicator in the value ends the scalar; so does a '#', behind a blank. */
  lemma IndicatorEnds(flow: bool, s: Style, v: seq<Rune>, i: nat, p: Pen, rest: seq<Rune>)
    requires LineBreak(s.br) && s.indent >= 1 && Ordinary(v) && BlankZ(F.At(rest, 0)) && i < |v|
    requires v[i] != SPACE && v[i] != 0x23 && !Inner(flow, v, i) && !p.indention
    ensures Ends(flow, [v[i]] + Text(s, v, i + 1, p, false, rest))
  {
    TextFirst(s, v, i + 1, p, false, rest);
    hide Text;
    var u := Text(s, v, i + 1, p, false, rest);
    assert F.At([v[i]] + u, 1) == F.At(u, 0);
  }

  lemma {:induction false} ShortWord(flow: bool, s: Style, indent: int, v: seq<Rune>, i: nat, p: Pen, spaces: bool, rest: seq<Rune>,
      r: seq<Rune>, broken: bool, col: nat, held: Pending)
    requires Tried(flow, s, indent, v, rest, r, broken) && i < |v| && v[i] != SPACE && EndsInside(flow, v, i)
    requires (v[i] == 0x23 ==> Inner(flow, v, i)) && (flow || col + 1 >= indent)
    ensures Shorter(Scan(flow, indent, Text(s, v, i, p, spaces, rest), col, Word, held), held, v, i)
    decreases |v| - i, 0
  {
    var q := Pen(p.col + 1, p.whitespace, false);
    var u := Text(s, v, i + 1, q, false, rest);
    TextChar(s, v, i, p, spaces, rest);
    hide Scan, Text, Plain, EndsBefore, Ends, PendingText;
    if Inner(flow, v, i) {
      NoEnd(flow, s, v, i, q, rest);
      WordReads(flow, indent, v[i], u, col, held);
      ShortLine(flow, s, indent, v, i + 1, q, false, rest, r, broken, col + 1, Nothing);
      PushShorter(Scan(flow, indent, u, col + 1, Word, Nothing), held, v, i);
    } else {
      IndicatorEnds(flow, s, v, i, q, rest);
      WordStep(flow, indent, [v[i]] + u, col, held, []);
    }
  }

  lemma TextEnd(s: Style, v: seq<Rune>, p: Pen, spaces: bool, rest: seq<Rune>)
    ensures Text(s, v, |v|, p, spaces, rest) == rest
  {
    assert [] + rest == rest;
  }

  lemma {:induction false} ShortLine(flow: bool, s: Style, indent: int, v: seq<Rune>, i: nat, p: Pen, spaces: bool, rest: seq<Rune>,
      r: seq<Rune>, broken: bool, col: nat, held: Pending)
    requires Tried(flow, s, indent, v, rest, r, broken) && 0 < i <= |v| && (!spaces ==> !p.indention) && EndsInside(flow, v, i)
    requires col >= 1 && (flow || col >= indent)
    requires if v[i - 1] == SPACE then held.Blanks? && held.ws != [] && spaces else held.Nothing?
    ensures Shorter(Scan(flow, indent, Text(s, v, i, p, spaces, rest), col, if held.Nothing? then Word else Gap, held), held, v, i)
    decreases |v| - i, 1
  {
    hide Scan, Plain;
    PendingNothing();
    if i == |v| {
      TextEnd(s, v, p, spaces, rest);
      ShortEnd(flow, indent, rest, r, broken, col, held);
      return;
    }
    hide EndsBefore, Text, PendingText;
    if v[i] != SPACE {
      TextChar(s, v, i, p, spaces, rest);
      var t := Text(s, v, i, p, spaces, rest);
      if v[i] == 0x23 && held.Blanks? {
        GapStep(flow, indent, t, col, held);
        TopStep(flow, indent, t, col, held);
      } else {
        if held.Blanks? {
          GapReads(flow, indent, t, col, held);
        }
        ShortWord(flow, s, indent, v, i, p, spaces, rest, r, broken, col, held);
      }
    } else if FoldsPlain(s, v, i, p, spaces) {
      ShortFold(flow, s, indent, v, i, p, rest, r, broken, col);
    } else {
      var q := p.(col := p.col + 1);
      TextSpace(s, v, i, p, spaces, rest);
      SpaceReads(flow, indent, Text(s, v, i + 1, q, true, rest), col, held);
      ShortLine(flow, s, indent, v, i + 1, q, true, rest, r, broken, col + 1, MoreBlank(held, SPACE));
      HeldMore(held);
    }
  }

  lemma ShortEnd(flow: bool, indent: int, rest: seq<Rune>, r: seq<Rune>, broken: bool, col: nat, held: Pending)
    requires EndsBefore(flow, indent, rest, r, broken) && BlankZ(F.At(rest, 0)) && held.Blanks? && held.ws != []
    ensures var d := Scan(flow, indent, rest, col, Gap, held); d.Done? ==> |d.value| < |held.ws|
  {
    assert Scan(flow, indent, rest, col, Word, Nothing) == Done([], r, broken);
    if White(F.At(rest, 0)) {
      NothingRead(flow, indent, rest, col, Gap, Nothing, held);
    } else {
      GapStep(flow, indent, rest, col, held);
      TopStep(flow, indent, rest, col, held);
      WordStep(flow, indent, rest, col, held, []);
    }
  }

  lemma {:induction false} ShortFold(flow: bool, s: Style, indent: int, v: seq<Rune>, i: nat, p: Pen, rest: seq<Rune>,
      r: seq<Rune>, broken: bool, col: nat)
    requires Tried(flow, s, indent, v, rest, r, broken) && 0 < i < |v| && v[i] == SPACE && !p.indention && EndsInside(flow, v, i)
    requires FoldsPlain(s, v, i, p, false)
    ensures Shorter(Scan(flow, indent, Text(s, v, i, p, false, rest), col, Word, Nothing), Nothing, v, i)
    decreases |v| - i, 0
  {
    hide Scan, Text, Plain, EndsBefore, PendingText;
    PendingNothing();
    var u := Text(s, v, i + 1, AfterIndent(s), true, rest);
    var held := Breaks([LF], []);
    TextFold(s, v, i, p, rest);
    FoldIsGap(flow, s, indent, u, col);
    if i + 1 == |v| {
      LastFold(flow, s, indent, v, rest, r, broken);
    } else {
      TextChar(s, v, i + 1, AfterIndent(s), true, rest);
      if v[i + 1] == 0x23 {
        GapStep(flow, indent, u, s.indent, held);
        TopStep(flow, indent, u, s.indent, held);
      } else {
        GapReads(flow, indent, u, s.indent, held);
        ShortWord(flow, s, indent, v, i + 1, AfterIndent(s), true, rest, r, broken, s.indent, held);
      }
    }
  }

  lemma FoldIsGap(flow: bool, s: Style, indent: int, u: seq<Rune>, col: nat)
    requires LineBreak(s.br) && s.indent >= 1
    ensures Scan(flow, indent, s.br + Spaces(s.indent) + u, col, Word, Nothing)
         == Scan(flow, indent, u, s.indent, Gap, Breaks([LF], []))
  {
    var w := Spaces(s.indent) + u;
    var t := s.br + w;
    assert s.br + Spaces(s.indent) + u == t;
    BreakAhead(s, w);
    WordStep(flow, indent, t, col, Nothing, []);
    GapStep(flow, indent, t, col, Nothing);
    hide Scan, LineBreak;
    SkipSpaces(flow, indent, s.indent, u, 0, Breaks([LF], []));
  }

  lemma LastFold(flow: bool, s: Style, indent: int, v: seq<Rune>, rest: seq<Rune>, r: seq<Rune>, broken: bool)
    requires Tried(flow, s, indent, v, rest, r, broken)
    ensures var d := Scan(flow, indent, Text(s, v, |v|, AfterIndent(s), true, rest), s.indent, Gap, Breaks([LF], []));
            d.Done? ==> d.value == []
  {
    assert [] + rest == rest;
    assert Scan(flow, indent, rest, s.indent, Word, Nothing) == Done([], r, broken);
    if White(F.At(rest, 0)) {
      NothingRead(flow, indent, rest, s.indent, Gap, Nothing, Breaks([LF], []));
    } else {
      GapStep(flow, indent, rest, s.indent, Breaks([LF], []));
      TopStep(flow, indent, rest, s.indent, Breaks([LF], []));
      WordStep(flow, indent, rest, s.indent, Breaks([LF], []), []);
    }
  }

  /** Before an end that is no indicator, a text whose first character calls for a plain scalar reads short if
      the analysis does not allow it. */
  lemma NotAllowedReadsShort(flow: bool, s: Style, indent: int, v: seq<Rune>, p: Pen, rest: seq<Rune>, r: seq<Rune>, broken: bool, x: S.Lexeme)
    requires Tried(flow, s, indent, v, rest, r, broken) && !Special(s.unicode, v) && !Multiline(v) && !DocStart(v)
    requires !Allowed(flow, s.unicode, v) && (flow ==> 0x3A !in v) && (flow || x.start.column + 1 >= indent)
    requires x.look == LookAt(Text(s, v, 0, p, false, rest)) && K.PlainHere(x, if flow then 1 else 0)
    ensures Scan(flow, indent, Text(s, v, 0, p, false, rest), x.start.column, Top, Nothing) != Done(v, r, broken)
  {
    var t := Text(s, v, 0, p, false, rest);
    if v[0] == SPACE {
      NotBlank(flow, t, x);
      FirstRead(flow, indent, t, x.start.column);
    } else {
      TextFirsts(s, v, p, rest);
      NoIndicator(flow, s, v, p, rest);
      CallsPlain(flow, t, x);
      hide K.PlainHere, Text, EndsBefore;
      assert !IndicatorAt(flow, v, 0);
      SomewhereEnds(flow, s.unicode, v);
      hide Special, Multiline, Allowed;
      TopStep(flow, indent, t, x.start.column, Nothing);
      ShortWord(flow, s, indent, v, 0, p, false, rest, r, broken, x.start.column, Nothing);
      hide Scan;
      PendingNothing();
    }
  }

  lemma NotBlank(flow: bool, t: seq<Rune>, x: S.Lexeme)
    requires x.look == LookAt(t) && K.PlainHere(x, if flow then 1 else 0)
    ensures !BlankZ(F.At(t, 0))
  {
    FirstByte(F.At(t, 0));
  }

  /** A value begins with the first character. */
  lemma FirstRead(flow: bool, indent: int, t: seq<Rune>, col: nat)
    requires !BlankZ(F.At(t, 0))
    ensures var d := Scan(flow, indent, t, col, Top, Nothing); d.Done? ==> d.value == [] || d.value[0] == t[0]
  {
    TopStep(flow, indent, t, col, Nothing);
    if !Ends(flow, t) {
      WordStep(flow, indent, t, col, Nothing, []);
      PushNothing(Scan(flow, indent, t, col, Word, Nothing));
      hide Scan;
    }
  }

  predicate IndicatorAt(flow: bool, v: seq<Rune>, i: nat)
    requires i < |v|
  {
    if flow then FlowIndicator(v, i) else BlockIndicator(v, i)
  }

  lemma SomewhereEnds(flow: bool, unicode: bool, v: seq<Rune>)
    requires Ordinary(v) && !Special(unicode, v) && !Multiline(v) && !DocStart(v) && !Allowed(flow, unicode, v)
    requires v[0] != SPACE && !IndicatorAt(flow, v, 0) && (flow ==> 0x3A !in v)
    ensures EndsInside(flow, v, 0)
  {
    if v[|v| - 1] != SPACE {
      assert !Break(v[0]) && !Break(v[|v| - 1]);
      assert !BreakSpace(v) && !SpaceBreak(v);
      assert PlainAllowed(unicode, v);
      hide Special, Multiline, BreakSpace, SpaceBreak, PlainAllowed;
      if flow {
        var i :| 0 <= i < |v| && FlowIndicator(v, i);
        assert v[i] != SPACE && !Inner(flow, v, i);
      } else {
        var i :| 0 <= i < |v| && BlockIndicator(v, i);
        assert v[i] != SPACE && !Inner(flow, v, i);
      }
    }
  }

  lemma NoColon(flow: bool, unicode: bool, v: seq<Rune>)
    requires Allowed(flow, unicode, v) && flow
    ensures 0x3A !in v
  {
    forall i | 0 <= i < |v|
      ensures v[i] != 0x3A
    {
      assert !FlowIndicator(v, i);
    }
  }

  /** For a value on one line without special characters that does not begin as a document indicator, the
      analysis is exact: in a block it allows a plain scalar if and only if what is written calls for one and
      reads back as the value; in a flow collection if and only if also no ':' is in the value. */
  lemma AllowedExactly(flow: bool, s: Style, indent: int, v: seq<Rune>, p: Pen, rest: seq<Rune>, r: seq<Rune>, broken: bool, x: S.Lexeme)
    requires LineBreak(s.br) && s.indent >= 1 && (flow || indent <= s.indent) && (flow || x.start.column + 1 >= indent)
    requires v != [] && !Special(s.unicode, v) && !Multiline(v) && !DocStart(v)
    requires BlankZ(F.At(rest, 0)) && EndsBefore(flow, indent, rest, r, broken)
    ensures var w := if p.whitespace then 0 else 1;
            var t := PlainWritten(s, v, p) + rest;
            && |t| >= w
            && (x.look == LookAt(t[w..]) ==>
                  (Allowed(flow, s.unicode, v)
                   <==> && (flow ==> 0x3A !in v)
                        && K.PlainHere(x, if flow then 1 else 0)
                        && Scan(flow, indent, t[w..], x.start.column, Top, Nothing) == Done(v, r, broken)))
  {
    var w := if p.whitespace then 0 else 1;
    Behind(s, v, p, rest);
    assert Ordinary(v) by {
      forall i | 0 <= i < |v|
        ensures v[i] == SPACE || !BlankZ(v[i])
      {
        assert !SpecialChar(s.unicode, v[i]) && !Break(v[i]);
      }
    }
    hide Scan, Text, PlainWritten, K.PlainHere, EndsBefore, LookAt, Special, Multiline, DocStart, Ordinary, Allowed;
    var t := PlainWritten(s, v, p) + rest;
    if x.look == LookAt(t[w..]) {
      if Allowed(flow, s.unicode, v) {
        if flow {
          NoColon(flow, s.unicode, v);
        }
        RoundTrip(flow, s, indent, v, p, rest, r, broken, x);
      } else if K.PlainHere(x, if flow then 1 else 0) && (flow ==> 0x3A !in v) {
        NotAllowedReadsShort(flow, s, indent, v, PlainStart(p), rest, r, broken, x);
      }
    }
  }
}
