/** What the writers of scalars put out, for every value: characters that the reader takes, no escape
    that is not called for, and lines that are folded at the width and nowhere else. */
module WrittenText {
  import opened Utf8
  import opened CharClass
  import opened ScalarText
  import T = Transcoding
  import D = DoubleQuotedRoundTrip

  // ---- The reader takes it ----

  /** Printable characters, and line breaks; only ASCII unless `unicode`. */
  predicate CleanChar(unicode: bool, c: Rune) {
    c == CR || c == LF || (Printable(c) && (unicode || c < 0x80))
  }

  predicate Clean(unicode: bool, t: seq<Rune>) {
    forall i | 0 <= i < |t| :: CleanChar(unicode, t[i])
  }

  lemma CleanConcat(unicode: bool, a: seq<Rune>, b: seq<Rune>)
    requires Clean(unicode, a) && Clean(unicode, b)
    ensures Clean(unicode, a + b)
  {
  }

  lemma IndentClean(s: Style, p: Pen)
    requires LineBreak(s.br)
    ensures Clean(s.unicode, IndentText(s, p))
  {
  }

  lemma {:induction false} HexClean(unicode: bool, v: nat, n: nat)
    ensures Clean(unicode, HexText(v, n))
  {
    if n > 0 {
      HexClean(unicode, v / 16, n - 1);
    }
  }

  lemma EscapeClean(unicode: bool, c: Rune)
    ensures Clean(unicode, EscapeText(c))
  {
    HexClean(unicode, c, 2);
    HexClean(unicode, c, 4);
    HexClean(unicode, c, 8);
    hide HexText;
  }

  lemma {:induction false} DoubleQuotedClean(s: Style, v: seq<Rune>, i: nat, p: Pen, spaces: bool)
    requires i <= |v| && LineBreak(s.br)
    ensures Clean(s.unicode, DoubleQuoted(s, v, i, p, spaces))
    decreases |v| - i
  {
    if i < |v| {
      EscapeClean(s.unicode, v[i]);
      IndentClean(s, p);
      hide EscapeText, IndentText;
      var a := DoubleQuotedPiece(s, v, i, p, spaces);
      assert Clean(s.unicode, a.text);
      DoubleQuotedClean(s, v, i + 1, a.pen, a.spaces);
    }
  }

  lemma BreakClean(s: Style, c: Rune)
    requires LineBreak(s.br) && CleanChar(s.unicode, c)
    ensures Clean(s.unicode, WrittenBreak(s, c)) && Clean(s.unicode, s.br)
  {
  }

  lemma {:induction false} SingleQuotedClean(s: Style, v: seq<Rune>, i: nat, p: Pen, spaces: bool, breaks: bool)
    requires i <= |v| && LineBreak(s.br) && !Special(s.unicode, v)
    ensures Clean(s.unicode, SingleQuoted(s, v, i, p, spaces, breaks))
    decreases |v| - i
  {
    if i < |v| {
      IndentClean(s, p);
      assert !SpecialChar(s.unicode, v[i]);
      BreakClean(s, v[i]);
      hide IndentText, WrittenBreak;
      var a := SingleQuotedPiece(s, v, i, p, spaces, breaks);
      assert Clean(s.unicode, a.text);
      SingleQuotedClean(s, v, i + 1, a.pen, a.spaces, a.breaks);
    }
  }

  lemma {:induction false} LiteralClean(s: Style, v: seq<Rune>, i: nat, p: Pen, breaks: bool)
    requires i <= |v| && LineBreak(s.br) && !Special(s.unicode, v)
    ensures Clean(s.unicode, Literal(s, v, i, p, breaks))
    decreases |v| - i
  {
    if i < |v| {
      IndentClean(s, p);
      assert !SpecialChar(s.unicode, v[i]);
      BreakClean(s, v[i]);
      hide IndentText, WrittenBreak;
      var a := LiteralPiece(s, v, i, p, breaks);
      assert Clean(s.unicode, a.text);
      LiteralClean(s, v, i + 1, a.pen, a.breaks);
    }
  }

  /** The reader allows more than is written: also tabs, NEL, a byte order mark, and the characters beyond
      the first plane, which are always escaped. */
  lemma AllowedExactly(c: Rune)
    ensures T.Allowed(c) <==> CleanChar(true, c) || c == TAB || c == NEL || c == BOM || c >= 0x10000
  {
  }

  /** The analysis calls a character special if it must not be written, or is a CR. */
  lemma SpecialExactly(unicode: bool, c: Rune)
    ensures SpecialChar(unicode, c) <==> !CleanChar(unicode, c) || c == CR
  {
  }

  lemma NoMark(unicode: bool, t: seq<Rune>)
    requires Clean(unicode, t)
    ensures !T.Marked(EncodeAll(t))
  {
    if t != [] {
      var e := Encode(t[0]);
      var b := EncodeAll(t);
      assert forall i | 0 <= i < |e| :: b[i] == e[i];
      assert !(|e| == 3 && e[0] == 0xEF && e[1] == 0xBB && e[2] == 0xBF);
    }
  }

  /** Clean text in UTF-8 is a stream of the reader, and is read as itself. */
  lemma ReaderTakes(unicode: bool, t: seq<Rune>)
    requires Clean(unicode, t)
    ensures T.StreamText(EncodeAll(t)) == T.Text(t)
  {
    NoMark(unicode, t);
    T.AcceptsExactly(EncodeAll(t), t);
    hide EncodeAll, T.StreamText, T.EncodeAllIn;
    assert T.AllAllowed(t);
  }

  /** Text between indicators that are ASCII. */
  lemma Enclosed(unicode: bool, a: seq<Rune>, t: seq<Rune>, b: seq<Rune>)
    requires Clean(false, a) && Clean(unicode, t) && Clean(false, b)
    ensures Clean(unicode, a + t + b) && T.StreamText(EncodeAll(a + t + b)) == T.Text(a + t + b)
  {
    ReaderTakes(unicode, a + t + b);
    hide EncodeAll, T.StreamText;
  }

  function Opening(p: Pen, quote: Rune): seq<Rune> {
    (if p.whitespace then [] else [SPACE]) + [quote]
  }

  lemma OpeningClean(p: Pen, quote: Rune)
    requires quote == DQUOTE || quote == SQUOTE
    ensures Clean(false, Opening(p, quote)) && Clean(false, [quote])
  {
  }

  /** Whatever the value, the reader takes the text that is written for it. Without `unicode` it is
      ASCII. */
  lemma DoubleQuotedIsRead(s: Style, v: seq<Rune>, p: Pen)
    requires LineBreak(s.br)
    ensures var t := DoubleQuotedWritten(s, v, p);
            Clean(s.unicode, t) && T.StreamText(EncodeAll(t)) == T.Text(t)
  {
    var q := Pen(p.col + (if p.whitespace then 0 else 1) + 1, false, false);
    hide EncodeAll, T.StreamText, DoubleQuoted, Clean, LineBreak;
    DoubleQuotedClean(s, v, 0, q, false);
    OpeningClean(p, DQUOTE);
    Enclosed(s.unicode, Opening(p, DQUOTE), DoubleQuoted(s, v, 0, q, false), [DQUOTE]);
  }

  lemma SingleQuotedIsRead(s: Style, v: seq<Rune>, p: Pen)
    requires LineBreak(s.br) && SingleQuotedAllowed(s.unicode, v)
    ensures var t := SingleQuotedWritten(s, v, p);
            Clean(s.unicode, t) && T.StreamText(EncodeAll(t)) == T.Text(t)
  {
    var q := Pen(p.col + (if p.whitespace then 0 else 1) + 1, false, false);
    hide EncodeAll, T.StreamText, SingleQuoted, Clean, LineBreak, Special, BreakSpace, SpaceBreak;
    SingleQuotedClean(s, v, 0, q, false, false);
    OpeningClean(p, SQUOTE);
    Enclosed(s.unicode, Opening(p, SQUOTE), SingleQuoted(s, v, 0, q, false, false), [SQUOTE]);
  }

  lemma LiteralIsRead(s: Style, v: seq<Rune>, bestIndent: nat)
    requires LineBreak(s.br) && BlockAllowed(s.unicode, v) && bestIndent <= 9
    ensures var t := LiteralWritten(s, bestIndent, v);
            Clean(s.unicode, t) && T.StreamText(EncodeAll(t)) == T.Text(t)
  {
    var d := Literal(s, v, 0, Pen(0, true, true), true);
    LiteralClean(s, v, 0, Pen(0, true, true), true);
    var h := BlockHints(bestIndent, v) + s.br;
    assert Clean(false, h);
    hide EncodeAll, T.StreamText, Literal, BlockAllowed, BlockHints;
    Enclosed(s.unicode, h, d, []);
    assert h + d + [] == LiteralWritten(s, bestIndent, v);
  }

  // ---- What is escaped ----

  /** A character that stands for itself in double quotes. */
  predicate Itself(unicode: bool, c: Rune) {
    || (0x20 <= c <= 0x7E && c as char != '"' && c as char != '\\')
    || (unicode && 0xA0 <= c <= 0xFFFD && c != 0x2028 && c != 0x2029 && c != 0xFEFF)
  }

  /** Only what cannot stand for itself is escaped; but all of a value that begins with a byte order
      mark. */
  lemma EscapedExactly(s: Style, v: seq<Rune>, i: nat)
    requires i < |v|
    ensures NeedsEscape(s, v, i) <==> !Itself(s.unicode, v[i]) || v[0] == BOM
  {
  }

  function Escaped(unicode: bool, all: bool, v: seq<Rune>): seq<Rune> {
    if v == [] then []
    else (if all || !Itself(unicode, v[0]) then EscapeText(v[0]) else [v[0]]) + Escaped(unicode, all, v[1..])
  }

  /** Without folds the text is that of its characters. */
  lemma {:induction false} WithoutFolds(s: Style, v: seq<Rune>, i: nat, p: Pen, spaces: bool)
    requires i <= |v| && !s.allowBreaks
    ensures DoubleQuoted(s, v, i, p, spaces) == Escaped(s.unicode, v != [] && v[0] == BOM, v[i..])
    decreases |v| - i
  {
    if i < |v| {
      EscapedExactly(s, v, i);
      hide NeedsEscape, Itself, EscapeText;
      var a := DoubleQuotedPiece(s, v, i, p, spaces);
      assert v[i..][1..] == v[i + 1..];
      WithoutFolds(s, v, i + 1, a.pen, a.spaces);
    }
  }

  /** Two characters if there is a letter for it, and otherwise as many digits as are needed: 2, 4 or 8. A
      space and a single quote have letters, but need no escape. */
  lemma EscapeShape(c: Rune)
    ensures |EscapeText(c)| == if c in D.MEANT && c != SPACE && c != SQUOTE then 2
                              else if c <= 0xFF then 4 else if c <= 0xFFFF then 6 else 10
  {
  }
}
