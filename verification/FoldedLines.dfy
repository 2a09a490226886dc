/** Where quoted scalars are folded: lines are broken only beyond the width, and beyond it at every space
    that can be broken. Columns are counted on the text, without the emitter's own column. */
module FoldedLines {
  import opened Utf8
  import opened CharClass
  import opened ScalarText
  import D = DoubleQuotedRoundTrip
  import Q = SingleQuotedRoundTrip

  /** The column behind the text `t` that starts in column `col`. */
  function ColumnAfter(t: seq<Rune>, col: nat): nat {
    if t == [] then col
    else if Break(t[|t| - 1]) then 0
    else ColumnAfter(t[..|t| - 1], col) + 1
  }

  /** The column of the character t[k]. */
  function ColumnAt(t: seq<Rune>, k: nat, col: nat): nat
    requires k <= |t|
  {
    ColumnAfter(t[..k], col)
  }

  /** A line ends before t[k]; CR LF is one break. */
  predicate EndsLine(t: seq<Rune>, k: nat) {
    k < |t| && Break(t[k]) && (k == 0 || !Break(t[k - 1]))
  }

  /** Lines end only beyond the width. */
  predicate BreaksBeyond(t: seq<Rune>, col: nat, width: int) {
    forall k: nat | k < |t| && EndsLine(t, k) :: ColumnAt(t, k, col) > width
  }

  /** The space t[k] cannot be broken: it is the first or last character, it stands behind another space, a
      break or a backslash, or (in single quotes) before another space. */
  predicate Unbreakable(single: bool, t: seq<Rune>, k: nat)
    requires k < |t|
  {
    || k == 0 || k == |t| - 1
    || t[k - 1] == SPACE || Break(t[k - 1]) || t[k - 1] == BACKSLASH
    || (single && t[k + 1] == SPACE)
  }

  /** Beyond the width no space is left that can be broken. */
  predicate SpacesBroken(single: bool, t: seq<Rune>, col: nat, width: int) {
    forall k | 0 <= k < |t| && t[k] == SPACE && ColumnAt(t, k, col) > width :: Unbreakable(single, t, k)
  }

  // ---- Columns ----

  lemma {:induction false} ColumnConcat(a: seq<Rune>, b: seq<Rune>, col: nat)
    ensures ColumnAfter(a + b, col) == ColumnAfter(b, ColumnAfter(a, col))
    decreases |b|
  {
    if b == [] {
      assert a + b == a;
    } else {
      assert (a + b)[..|a + b| - 1] == a + b[..|b| - 1];
      ColumnConcat(a, b[..|b| - 1], col);
    }
  }

  lemma {:induction false} ColumnOnLine(b: seq<Rune>, col: nat)
    requires forall i | 0 <= i < |b| :: !Break(b[i])
    ensures ColumnAfter(b, col) == col + |b|
    decreases |b|
  {
    if b != [] {
      ColumnOnLine(b[..|b| - 1], col);
    }
  }

  lemma ColumnOfIndent(br: seq<Rune>, n: nat, end: seq<Rune>, col: nat)
    requires LineBreak(br) && (forall i | 0 <= i < |end| :: !Break(end[i]))
    ensures ColumnAfter(br + Spaces(n) + end, col) == n + |end|
  {
    var e := Spaces(n) + end;
    ColumnOnLine(e, 0);
    ColumnConcat(br, e, col);
    assert br + Spaces(n) + end == br + e;
  }

  /** An indentation ends in its column, and what follows it is set off from what is before it. No line is
      begun where only indentation stands. */
  lemma IndentMeant(s: Style, p: Pen)
    requires LineBreak(s.br)
    ensures var t := IndentText(s, p);
            && ColumnAfter(t, p.col) == Max(s.indent, 0)
            && (t == [] ==> p.whitespace) && (t != [] ==> t[|t| - 1] == SPACE || Break(t[|t| - 1]))
            && (p.indention && p.col < s.indent ==> forall k | 0 <= k < |t| :: !Break(t[k]))
  {
    var n := Max(s.indent, 0);
    if IndentBreaks(s.indent, p) {
      ColumnOfIndent(s.br, n, [], p.col);
      assert s.br + Spaces(n) + [] == s.br + Spaces(n);
    } else {
      ColumnOnLine(Spaces(n - p.col), p.col);
    }
  }

  // ---- One more piece ----

  predicate Behind(c: Rune) {
    c == SPACE || Break(c) || c == BACKSLASH
  }

  /** The space t[k] will not be one that can be broken, whatever is written for v[i..]. */
  predicate Settled(single: bool, v: seq<Rune>, i: nat, t: seq<Rune>, k: nat)
    requires k < |t| && i <= |v|
  {
    || k == 0 || Behind(t[k - 1])
    || (single && if k + 1 < |t| then t[k + 1] == SPACE else i < |v| && v[i] == SPACE)
    || (i == |v| && k == |t| - 1)
  }

  /** The text `t` has been written for v[..i], and its lines are as they should be. */
  predicate Laid(single: bool, v: seq<Rune>, i: nat, t: seq<Rune>, col: nat, width: int, spaces: bool)
    requires i <= |v|
  {
    && BreaksBeyond(t, col, width)
    && (forall k | 0 <= k < |t| && t[k] == SPACE && ColumnAt(t, k, col) > width :: Settled(single, v, i, t, k))
    && (i == 0 ==> t == [])
    && (if spaces then t != [] && (t[|t| - 1] == SPACE || t[|t| - 1] == BACKSLASH) else t != [] ==> t[|t| - 1] != SPACE)
  }

  lemma Prefixes(a: seq<Rune>, b: seq<Rune>, col: nat)
    ensures forall k | 0 <= k < |a| :: (a + b)[k] == a[k] && ColumnAt(a + b, k, col) == ColumnAt(a, k, col)
    ensures ColumnAt(a + b, |a|, col) == ColumnAfter(a, col)
    ensures forall k | |a| <= k < |a + b| :: (a + b)[k] == b[k - |a|]
  {
    forall k | 0 <= k <= |a|
      ensures (a + b)[..k] == a[..k]
    {
    }
    assert a[..|a|] == a;
  }

  lemma NoBreakAdded(a: seq<Rune>, b: seq<Rune>, col: nat, width: int)
    requires BreaksBeyond(a, col, width) && forall j | 0 <= j < |b| :: !Break(b[j])
    ensures BreaksBeyond(a + b, col, width)
  {
    Prefixes(a, b, col);
    hide ColumnAfter, ColumnAt;
    forall k: nat | EndsLine(a + b, k)
      ensures ColumnAt(a + b, k, col) > width
    {
      assert EndsLine(a, k);
    }
  }

  /** Characters other than spaces and breaks. */
  lemma AddWord(single: bool, v: seq<Rune>, i: nat, a: seq<Rune>, b: seq<Rune>, col: nat, width: int, spaces: bool)
    requires i < |v| && (single ==> v[i] != SPACE) && Laid(single, v, i, a, col, width, spaces)
    requires b != [] && forall j | 0 <= j < |b| :: b[j] != SPACE && !Break(b[j])
    ensures Laid(single, v, i + 1, a + b, col, width, false)
    ensures ColumnAfter(a + b, col) == ColumnAfter(a, col) + |b|
  {
    Prefixes(a, b, col);
    ColumnOnLine(b, ColumnAfter(a, col));
    ColumnConcat(a, b, col);
    hide ColumnAfter, ColumnAt;
    var t := a + b;
    NoBreakAdded(a, b, col, width);
    hide BreaksBeyond;
    forall k | 0 <= k < |t| && t[k] == SPACE && ColumnAt(t, k, col) > width
      ensures Settled(single, v, i + 1, t, k)
    {
      assert Settled(single, v, i, a, k);
    }
  }

  /** A space that stays. */
  lemma AddSpace(single: bool, v: seq<Rune>, i: nat, a: seq<Rune>, col: nat, width: int, spaces: bool)
    requires i < |v| && v[i] == SPACE && Laid(single, v, i, a, col, width, spaces)
    requires spaces || ColumnAfter(a, col) <= width || i == 0 || i == |v| - 1 || (single && v[i + 1] == SPACE)
    ensures Laid(single, v, i + 1, a + [SPACE], col, width, true)
    ensures ColumnAfter(a + [SPACE], col) == ColumnAfter(a, col) + 1
  {
    var b := [SPACE];
    Prefixes(a, b, col);
    ColumnOnLine(b, ColumnAfter(a, col));
    ColumnConcat(a, b, col);
    hide ColumnAfter, ColumnAt;
    NoBreakAdded(a, b, col, width);
    hide BreaksBeyond;
    var t := a + b;
    forall k | 0 <= k < |t| && t[k] == SPACE && ColumnAt(t, k, col) > width
      ensures Settled(single, v, i + 1, t, k)
    {
      if k < |a| {
        assert Settled(single, v, i, a, k);
      }
    }
  }

  /** A fold begins with the break, and holds spaces only behind it and behind each other. */
  predicate IsFold(b: seq<Rune>) {
    && b != [] && Break(b[0]) && Behind(b[|b| - 1]) && !Break(b[|b| - 1])
    && (forall j | 1 <= j < |b| && b[j] == SPACE :: Behind(b[j - 1]))
    && (forall j | 1 <= j < |b| && Break(b[j]) :: Break(b[j - 1]))
  }

  lemma FoldIsOne(br: seq<Rune>, n: nat, end: seq<Rune>)
    requires LineBreak(br) && n >= 1 && (end == [] || end == [BACKSLASH])
    ensures IsFold(br + Spaces(n) + end)
  {
  }

  /** A line break and the indentation in place of a space, with or without a backslash. */
  lemma AddFold(single: bool, v: seq<Rune>, i: nat, a: seq<Rune>, br: seq<Rune>, n: nat, end: seq<Rune>,
      col: nat, width: int)
    requires i < |v| && Laid(single, v, i, a, col, width, false) && ColumnAfter(a, col) > width
    requires LineBreak(br) && n >= 1 && (end == [] || end == [BACKSLASH])
    ensures var t := a + (br + Spaces(n) + end);
            Laid(single, v, i + 1, t, col, width, true) && ColumnAfter(t, col) == n + |end| && !Break(t[|t| - 1])
  {
    var b := br + Spaces(n) + end;
    ColumnOfIndent(br, n, end, ColumnAfter(a, col));
    ColumnConcat(a, b, col);
    FoldIsOne(br, n, end);
    hide ColumnAfter, ColumnAt, Spaces;
    FoldSettles(single, v, i, a, b, col, width);
    FoldIsBeyond(a, b, col, width);
  }

  lemma FoldSettles(single: bool, v: seq<Rune>, i: nat, a: seq<Rune>, b: seq<Rune>, col: nat, width: int)
    requires i < |v| && Laid(single, v, i, a, col, width, false) && IsFold(b)
    ensures forall k | 0 <= k < |a + b| && (a + b)[k] == SPACE && ColumnAt(a + b, k, col) > width ::
              Settled(single, v, i + 1, a + b, k)
  {
    Prefixes(a, b, col);
    hide ColumnAfter, ColumnAt;
    var t := a + b;
    forall k | 0 <= k < |t| && t[k] == SPACE && ColumnAt(t, k, col) > width
      ensures Settled(single, v, i + 1, t, k)
    {
      if k < |a| {
        assert Settled(single, v, i, a, k);
      } else {
        assert t[k] == b[k - |a|] && t[k - 1] == b[k - |a| - 1];
      }
    }
  }

  lemma FoldIsBeyond(a: seq<Rune>, b: seq<Rune>, col: nat, width: int)
    requires BreaksBeyond(a, col, width) && ColumnAfter(a, col) > width && IsFold(b)
    ensures BreaksBeyond(a + b, col, width)
  {
    Prefixes(a, b, col);
    hide ColumnAfter, ColumnAt;
    var t := a + b;
    forall k: nat | EndsLine(t, k)
      ensures ColumnAt(t, k, col) > width
    {
      if k < |a| {
        assert EndsLine(a, k);
      }
    }
  }

  lemma AtTheEnd(single: bool, v: seq<Rune>, t: seq<Rune>, col: nat, width: int, spaces: bool)
    requires Laid(single, v, |v|, t, col, width, spaces)
    ensures BreaksBeyond(t, col, width) && SpacesBroken(single, t, col, width)
  {
    forall k | 0 <= k < |t| && t[k] == SPACE && ColumnAt(t, k, col) > width
      ensures Unbreakable(single, t, k)
    {
      assert Settled(single, v, |v|, t, k);
    }
  }

  // ---- Double quotes ----

  lemma EscapeIsWord(c: Rune)
    ensures EscapeText(c) != [] && forall j | 0 <= j < |EscapeText(c)| :: EscapeText(c)[j] != SPACE && !Break(EscapeText(c)[j])
  {
    HexIsWord(c, 2);
    HexIsWord(c, 4);
    HexIsWord(c, 8);
    hide HexText;
  }

  lemma {:induction false} HexIsWord(v: nat, n: nat)
    ensures forall j | 0 <= j < |HexText(v, n)| :: HexText(v, n)[j] != SPACE && !Break(HexText(v, n)[j])
  {
    if n > 0 {
      HexIsWord(v / 16, n - 1);
    }
  }

  /** What is behind `a` so far in the column of the pen. */
  predicate Penned(single: bool, s: Style, v: seq<Rune>, i: nat, p: Pen, spaces: bool, a: seq<Rune>, col: nat)
    requires i <= |v|
  {
    && Laid(single, v, i, a, col, s.width, spaces)
    && p.col == ColumnAfter(a, col) && (a != [] ==> !Break(a[|a| - 1]))
  }

  lemma Assoc(a: seq<Rune>, b: seq<Rune>, c: seq<Rune>)
    ensures a + b + c == a + (b + c)
  {
  }

  lemma NothingMore(s: Style, v: seq<Rune>, p: Pen, spaces: bool, a: seq<Rune>)
    ensures a + DoubleQuoted(s, v, |v|, p, spaces) == a && a + SingleQuoted(s, v, |v|, p, spaces, false) == a
  {
    assert a + [] == a;
  }

  lemma PennedAtTheEnd(single: bool, s: Style, v: seq<Rune>, p: Pen, spaces: bool, a: seq<Rune>, col: nat)
    requires Penned(single, s, v, |v|, p, spaces, a, col)
    ensures BreaksBeyond(a, col, s.width) && SpacesBroken(single, a, col, s.width)
  {
    AtTheEnd(single, v, a, col, s.width, spaces);
  }

  lemma DoubleQuotedStep(s: Style, v: seq<Rune>, i: nat, p: Pen, spaces: bool, a: seq<Rune>, col: nat)
    requires i < |v| && LineBreak(s.br) && s.indent >= 1 && s.allowBreaks && D.Mid(s, p, spaces)
    requires Penned(false, s, v, i, p, spaces, a, col)
    ensures var x := DoubleQuotedPiece(s, v, i, p, spaces);
            D.Mid(s, x.pen, x.spaces) && Penned(false, s, v, i + 1, x.pen, x.spaces, a + x.text, col)
  {
    hide ColumnAfter, Laid, EscapeText;
    var x := DoubleQuotedPiece(s, v, i, p, spaces);
    if NeedsEscape(s, v, i) {
      EscapeIsWord(v[i]);
      AddWord(false, v, i, a, x.text, col, s.width, spaces);
    } else if v[i] != SPACE {
      AddWord(false, v, i, a, x.text, col, s.width, spaces);
    } else if Folds(s, v, i, p, spaces) {
      var end := if v[i + 1] == SPACE then [BACKSLASH] else [];
      assert x.text == s.br + Spaces(s.indent) + end;
      AddFold(false, v, i, a, s.br, s.indent, end, col, s.width);
    } else {
      AddSpace(false, v, i, a, col, s.width, spaces);
    }
  }

  /** The text of v[i..] behind `a`. */
  lemma {:induction false} DoubleQuotedLaid(s: Style, v: seq<Rune>, i: nat, p: Pen, spaces: bool, a: seq<Rune>, col: nat)
    requires i <= |v| && LineBreak(s.br) && s.indent >= 1 && s.allowBreaks && D.Mid(s, p, spaces)
    requires Penned(false, s, v, i, p, spaces, a, col)
    ensures var t := a + DoubleQuoted(s, v, i, p, spaces);
            BreaksBeyond(t, col, s.width) && SpacesBroken(false, t, col, s.width)
    decreases |v| - i
  {
    hide DoubleQuoted, DoubleQuotedPiece, BreaksBeyond, SpacesBroken, Penned, D.Mid;
    if i == |v| {
      NothingMore(s, v, p, spaces, a);
      PennedAtTheEnd(false, s, v, p, spaces, a, col);
    } else {
      D.OnePiece(s, v, i, p, spaces);
      var x := DoubleQuotedPiece(s, v, i, p, spaces);
      DoubleQuotedStep(s, v, i, p, spaces, a, col);
      DoubleQuotedLaid(s, v, i + 1, x.pen, x.spaces, a + x.text, col);
      Assoc(a, x.text, DoubleQuoted(s, v, i + 1, x.pen, x.spaces));
    }
  }

  /** Double-quoted text is broken beyond the width only, and there wherever it can be. */
  lemma DoubleQuotedLines(s: Style, v: seq<Rune>, p: Pen)
    requires LineBreak(s.br) && s.indent >= 1
    ensures var q := Pen(p.col + (if p.whitespace then 0 else 1) + 1, false, false);
            var t := DoubleQuoted(s, v, 0, q, false);
            && DoubleQuotedWritten(s, v, p) == (if p.whitespace then [] else [SPACE]) + [DQUOTE] + t + [DQUOTE]
            && (if s.allowBreaks then BreaksBeyond(t, q.col, s.width) && SpacesBroken(false, t, q.col, s.width)
                else forall k | 0 <= k < |t| :: !Break(t[k]))
  {
    var q := Pen(p.col + (if p.whitespace then 0 else 1) + 1, false, false);
    if s.allowBreaks {
      DoubleQuotedLaid(s, v, 0, q, false, [], q.col);
      assert [] + DoubleQuoted(s, v, 0, q, false) == DoubleQuoted(s, v, 0, q, false);
    } else {
      DoubleQuotedOneLine(s, v, 0, q, false);
    }
  }

  lemma {:induction false} DoubleQuotedOneLine(s: Style, v: seq<Rune>, i: nat, p: Pen, spaces: bool)
    requires i <= |v| && !s.allowBreaks
    ensures var t := DoubleQuoted(s, v, i, p, spaces); forall k | 0 <= k < |t| :: !Break(t[k])
    decreases |v| - i
  {
    if i < |v| {
      EscapeIsWord(v[i]);
      hide EscapeText;
      D.OnePiece(s, v, i, p, spaces);
      hide DoubleQuoted;
      var x := DoubleQuotedPiece(s, v, i, p, spaces);
      assert forall k | 0 <= k < |x.text| :: !Break(x.text[k]);
      DoubleQuotedOneLine(s, v, i + 1, x.pen, x.spaces);
    }
  }

  // ---- Single quotes ----

  lemma SingleQuotedStep(s: Style, v: seq<Rune>, i: nat, p: Pen, spaces: bool, a: seq<Rune>, col: nat)
    requires i < |v| && LineBreak(s.br) && s.indent >= 1 && s.allowBreaks && !Break(v[i]) && (!spaces ==> !p.indention)
    requires Penned(true, s, v, i, p, spaces, a, col)
    ensures var x := SingleQuotedPiece(s, v, i, p, spaces, false);
            && (!x.spaces ==> !x.pen.indention) && !x.breaks
            && Penned(true, s, v, i + 1, x.pen, x.spaces, a + x.text, col)
  {
    hide ColumnAfter, Laid;
    var x := SingleQuotedPiece(s, v, i, p, spaces, false);
    if v[i] != SPACE {
      AddWord(true, v, i, a, x.text, col, s.width, spaces);
    } else if Folds(s, v, i, p, spaces) && v[i + 1] != SPACE {
      assert x.text == s.br + Spaces(s.indent) + [];
      AddFold(true, v, i, a, s.br, s.indent, [], col, s.width);
    } else {
      AddSpace(true, v, i, a, col, s.width, spaces);
    }
  }

  /** The text of v[i..] behind `a`, for a value on one line. */
  lemma {:induction false} SingleQuotedLaid(s: Style, v: seq<Rune>, i: nat, p: Pen, spaces: bool, a: seq<Rune>, col: nat)
    requires i <= |v| && LineBreak(s.br) && s.indent >= 1 && s.allowBreaks && !Multiline(v) && (!spaces ==> !p.indention)
    requires Penned(true, s, v, i, p, spaces, a, col)
    ensures var t := a + SingleQuoted(s, v, i, p, spaces, false);
            BreaksBeyond(t, col, s.width) && SpacesBroken(true, t, col, s.width)
    decreases |v| - i
  {
    assert i < |v| ==> !Break(v[i]);
    hide SingleQuoted, SingleQuotedPiece, BreaksBeyond, SpacesBroken, Penned, Multiline;
    if i == |v| {
      NothingMore(s, v, p, spaces, a);
      PennedAtTheEnd(true, s, v, p, spaces, a, col);
    } else {
      Q.OnePiece(s, v, i, p, spaces, false);
      var x := SingleQuotedPiece(s, v, i, p, spaces, false);
      SingleQuotedStep(s, v, i, p, spaces, a, col);
      SingleQuotedLaid(s, v, i + 1, x.pen, x.spaces, a + x.text, col);
      Assoc(a, x.text, SingleQuoted(s, v, i + 1, x.pen, x.spaces, false));
    }
  }

  /** The same for the single-quoted text of a value on one line. */
  lemma SingleQuotedLines(s: Style, v: seq<Rune>, p: Pen)
    requires LineBreak(s.br) && s.indent >= 1 && !Multiline(v) && s.allowBreaks
    ensures var q := Pen(p.col + (if p.whitespace then 0 else 1) + 1, false, false);
            var t := SingleQuoted(s, v, 0, q, false, false);
            && SingleQuotedWritten(s, v, p) == (if p.whitespace then [] else [SPACE]) + [SQUOTE] + t + [SQUOTE]
            && BreaksBeyond(t, q.col, s.width) && SpacesBroken(true, t, q.col, s.width)
  {
    var q := Pen(p.col + (if p.whitespace then 0 else 1) + 1, false, false);
    SingleQuotedLaid(s, v, 0, q, false, [], q.col);
    assert [] + SingleQuoted(s, v, 0, q, false, false) == SingleQuoted(s, v, 0, q, false, false);
  }
}
