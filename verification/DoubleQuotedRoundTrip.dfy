/** Double-quoted scalars read back as they were written. */
module DoubleQuotedRoundTrip {
  import opened Utf8
  import opened CharClass
  import opened FlowScalar
  import opened ScalarText
  import opened FlowScanSteps

  predicate Fits(v: nat, n: nat) {
    if n == 0 then v == 0 else Fits(v / 16, n - 1)
  }

  lemma {:induction false} HexReadsBack(v: nat, n: nat, rest: seq<Rune>)
    requires Fits(v, n)
    ensures HexNumber(HexText(v, n) + rest, n) == v
  {
    if n > 0 {
      var d := HexDigit(v % 16);
      assert HexText(v, n) + rest == HexText(v / 16, n - 1) + ([d] + rest);
      HexReadsBack(v / 16, n - 1, [d] + rest);
      assert Hex(d) && HexValue(d) == v % 16;
    }
  }

  lemma CodesFit(c: Rune)
    ensures c <= 0xFF ==> Fits(c, 2)
    ensures c <= 0xFFFF ==> Fits(c, 4)
    ensures Fits(c, 8)
  {
    assert c <= 0xFF ==> Fits(c / 16 / 16, 0);
    assert c <= 0xFFFF ==> Fits(c / 16 / 16 / 16, 1);
    var x := c / 16 / 16 / 16 / 16;
    assert Fits(x / 16 / 16, 2) && Fits(x, 4);
    assert Fits(c / 16 / 16, 6);
  }

  lemma ShortReadsBack(c: Rune)
    requires ShortEscape(c) != 0
    ensures SimpleEscape(ShortEscape(c)) == c && !Break(ShortEscape(c))
  {
  }

  lemma LongReadsBack(c: Rune, u: Rune, n: nat, rest: seq<Rune>)
    requires SimpleEscape(u) == -1 && CodeLength(u) == n > 0 && Fits(c, n)
    ensures ReadEscape([BACKSLASH, u] + HexText(c, n) + rest) == Escaped(c, n + 2)
  {
    var t := [BACKSLASH, u] + HexText(c, n) + rest;
    assert t[2..] == HexText(c, n) + rest;
    HexReadsBack(c, n, rest);
    hide HexNumber;
    hide HexText;
  }

  lemma EscapeReadsBack(c: Rune, rest: seq<Rune>)
    ensures ReadEscape(EscapeText(c) + rest) == Escaped(c, |EscapeText(c)|)
    ensures !Break(EscapeText(c)[1]) && EscapeText(c)[0] == BACKSLASH
  {
    hide HexText;
    hide Fits;
    if ShortEscape(c) != 0 {
      hide ShortEscape;
      ShortReadsBack(c);
    } else {
      hide ShortEscape;
      hide ReadEscape;
      CodesFit(c);
      if c <= 0xFF {
        LongReadsBack(c, 0x78, 2, rest);
      } else if c <= 0xFFFF {
        LongReadsBack(c, 0x75, 4, rest);
      } else {
        LongReadsBack(c, 0x55, 8, rest);
      }
    }
  }

  /** Folding replaces a space only right after a non-space character, so a scanner that has
      collected blanks meets no fold, and a fold always starts a new line. */
  ghost predicate Mid(s: Style, p: Pen, spaces: bool) {
    p.indention ==> p.col >= s.indent && (!spaces ==> p.col > s.indent)
  }

  function Text(s: Style, v: seq<Rune>, i: nat, p: Pen, spaces: bool, rest: seq<Rune>): seq<Rune>
    requires i <= |v|
  {
    DoubleQuoted(s, v, i, p, spaces) + ([DQUOTE] + rest)
  }

  lemma TextChar(s: Style, v: seq<Rune>, i: nat, p: Pen, spaces: bool, rest: seq<Rune>)
    requires i < |v| && !NeedsEscape(s, v, i) && !(v[i] == SPACE && Folds(s, v, i, p, spaces))
    ensures Text(s, v, i, p, spaces, rest)
         == [v[i]] + Text(s, v, i + 1, p.(col := p.col + 1), v[i] == SPACE, rest)
  {
    var d := DoubleQuoted(s, v, i + 1, p.(col := p.col + 1), v[i] == SPACE);
    assert DoubleQuoted(s, v, i, p, spaces) == [v[i]] + d;
    hide DoubleQuoted;
    assert ([v[i]] + d) + ([DQUOTE] + rest) == [v[i]] + (d + ([DQUOTE] + rest));
  }

  lemma OnePiece(s: Style, v: seq<Rune>, i: nat, p: Pen, spaces: bool)
    requires i < |v|
    ensures var a := DoubleQuotedPiece(s, v, i, p, spaces);
            DoubleQuoted(s, v, i, p, spaces) == a.text + DoubleQuoted(s, v, i + 1, a.pen, a.spaces)
  {
  }

  lemma TextEscape(s: Style, v: seq<Rune>, i: nat, p: Pen, spaces: bool, rest: seq<Rune>)
    requires i < |v| && NeedsEscape(s, v, i)
    ensures var e := EscapeText(v[i]);
            Text(s, v, i, p, spaces, rest) == e + Text(s, v, i + 1, p.(col := p.col + |e|), false, rest)
  {
    var e := EscapeText(v[i]);
    var d := DoubleQuoted(s, v, i + 1, p.(col := p.col + |e|), false);
    assert DoubleQuoted(s, v, i, p, spaces) == e + d;
    hide DoubleQuoted;
    assert (e + d) + ([DQUOTE] + rest) == e + (d + ([DQUOTE] + rest));
  }

  lemma TextFold(s: Style, v: seq<Rune>, i: nat, p: Pen, rest: seq<Rune>)
    requires i < |v| && !NeedsEscape(s, v, i) && v[i] == SPACE && Folds(s, v, i, p, false)
    requires s.indent >= 1 && Mid(s, p, false) && v[i + 1] != SPACE
    ensures Text(s, v, i, p, false, rest)
         == s.br + Spaces(s.indent) + Text(s, v, i + 1, AfterIndent(s), true, rest)
  {
    OnePiece(s, v, i, p, false);
    hide DoubleQuoted;
    var f := s.br + Spaces(s.indent);
    var d := DoubleQuoted(s, v, i + 1, AfterIndent(s), true);
    assert DoubleQuoted(s, v, i, p, false) == f + d;
    assert (f + d) + ([DQUOTE] + rest) == f + (d + ([DQUOTE] + rest));
  }

  /** When the next character is a space too, it is written as a backslash and a space. */
  lemma TextFoldSpace(s: Style, v: seq<Rune>, i: nat, p: Pen, rest: seq<Rune>)
    requires i < |v| && !NeedsEscape(s, v, i) && v[i] == SPACE && Folds(s, v, i, p, false)
    requires s.indent >= 1 && Mid(s, p, false) && v[i + 1] == SPACE
    ensures Text(s, v, i, p, false, rest)
         == s.br + Spaces(s.indent)
            + ([BACKSLASH, SPACE] + Text(s, v, i + 2, Pen(s.indent + 2, true, true), true, rest))
  {
    OnePiece(s, v, i, p, false);
    hide DoubleQuoted;
    var f := s.br + Spaces(s.indent);
    var q := Pen(s.indent + 1, true, true);
    var d := DoubleQuoted(s, v, i + 1, q, true);
    assert DoubleQuoted(s, v, i, p, false) == f + [BACKSLASH] + d;
    hide DoubleQuotedPiece, IndentText;
    TextChar(s, v, i + 1, q, true, rest);
    var e := DoubleQuoted(s, v, i + 2, Pen(s.indent + 2, true, true), true) + ([DQUOTE] + rest);
    Assoc3(f, [BACKSLASH], d, [DQUOTE] + rest);
    assert [BACKSLASH] + ([SPACE] + e) == [BACKSLASH, SPACE] + e;
  }

  lemma NoBlankAhead(s: Style, v: seq<Rune>, i: nat, p: Pen, rest: seq<Rune>)
    requires 0 < i < |v| && v[i] != SPACE
    ensures var t := Text(s, v, i, p, true, rest); t != [] && !BlankZ(t[0])
  {
    if NeedsEscape(s, v, i) {
      EscapeReadsBack(v[i], []);
    }
  }

  /** Reading the text of v[i..] in the middle of the scalar, after the blanks `ws`. */
  lemma {:induction false} ReadsFrom(s: Style, v: seq<Rune>, i: nat, p: Pen, spaces: bool,
      rest: seq<Rune>, col: nat, ws: seq<Rune>)
    requires i <= |v| && LineBreak(s.br) && s.indent >= 1 && Mid(s, p, spaces) && col >= 1
    requires ws != [] ==> spaces
    ensures Scan(false, Text(s, v, i, p, spaces, rest), col, After(ws)) == Done(ws + v[i..], rest)
    decreases |v| - i
  {
    hide Scan;
    hide After;
    if i == |v| {
      assert Text(s, v, i, p, spaces, rest) == [DQUOTE] + rest;
      StepQuote(false, rest, col, ws);
      assert ws + v[i..] == ws;
      return;
    }
    hide DoubleQuoted;
    hide Text;
    if NeedsEscape(s, v, i) {
      ReadsEscape(s, v, i, p, spaces, rest, col, ws);
    } else if v[i] == SPACE && Folds(s, v, i, p, spaces) {
      ReadsFold(s, v, i, p, rest, col);
      assert [] + v[i..] == v[i..];
      AfterNothing();
    } else {
      ReadsChar(s, v, i, p, spaces, rest, col, ws);
    }
  }

  lemma {:induction false} ReadsEscape(s: Style, v: seq<Rune>, i: nat, p: Pen, spaces: bool,
      rest: seq<Rune>, col: nat, ws: seq<Rune>)
    requires i < |v| && LineBreak(s.br) && s.indent >= 1 && Mid(s, p, spaces) && col >= 1
    requires NeedsEscape(s, v, i)
    ensures Scan(false, Text(s, v, i, p, spaces, rest), col, After(ws)) == Done(ws + v[i..], rest)
    decreases |v| - i, 0
  {
    hide Scan;
    hide After;
    hide DoubleQuoted;
    hide Text;
    var e := EscapeText(v[i]);
    var q := p.(col := p.col + |e|);
    var u := Text(s, v, i + 1, q, false, rest);
    TextEscape(s, v, i, p, spaces, rest);
    EscapeReadsBack(v[i], u);
    StepEscape(e, v[i], u, col, ws);
    ReadsFrom(s, v, i + 1, q, false, rest, col + |e|, []);
    AfterNothing();
    Cons(ws, v, i);
  }

  lemma Cons(ws: seq<Rune>, v: seq<Rune>, i: nat)
    requires i < |v|
    ensures ws + [v[i]] + v[i + 1..] == ws + v[i..]
    ensures [] + v[i + 1..] == v[i + 1..]
  {
    assert v[i..] == [v[i]] + v[i + 1..];
  }

  lemma {:induction false} ReadsChar(s: Style, v: seq<Rune>, i: nat, p: Pen, spaces: bool,
      rest: seq<Rune>, col: nat, ws: seq<Rune>)
    requires i < |v| && LineBreak(s.br) && s.indent >= 1 && Mid(s, p, spaces) && col >= 1
    requires !NeedsEscape(s, v, i) && !(v[i] == SPACE && Folds(s, v, i, p, spaces))
    ensures Scan(false, Text(s, v, i, p, spaces, rest), col, After(ws)) == Done(ws + v[i..], rest)
    decreases |v| - i, 0
  {
    hide Scan;
    hide After;
    hide DoubleQuoted;
    hide Text;
    var q := p.(col := p.col + 1);
    var u := Text(s, v, i + 1, q, v[i] == SPACE, rest);
    TextChar(s, v, i, p, spaces, rest);
    Cons(ws, v, i);
    if v[i] == SPACE {
      StepSpace(false, u, col, ws);
      ReadsFrom(s, v, i + 1, q, true, rest, col + 1, ws + [SPACE]);
      AfterSome(ws + [SPACE]);
    } else {
      StepLiteral(false, v[i], u, col, ws);
      ReadsFrom(s, v, i + 1, q, false, rest, col + 1, []);
      AfterNothing();
    }
  }

  lemma AfterNothing()
    ensures After([]) == Content
  {
  }

  lemma AfterSome(ws: seq<Rune>)
    requires ws != []
    ensures After(ws) == Blanks(ws)
  {
  }

  lemma {:induction false} ReadsFold(s: Style, v: seq<Rune>, i: nat, p: Pen, rest: seq<Rune>, col: nat)
    requires i < |v| && LineBreak(s.br) && s.indent >= 1 && Mid(s, p, false) && col >= 1
    requires !NeedsEscape(s, v, i) && v[i] == SPACE && Folds(s, v, i, p, false)
    ensures Scan(false, Text(s, v, i, p, false, rest), col, Content) == Done(v[i..], rest)
    decreases |v| - i, 1
  {
    hide Scan;
    hide Text;
    hide DoubleQuoted;
    if v[i + 1] == SPACE {
      ReadsFoldBefore(s, v, i, p, rest, col);
    } else {
      var q := AfterIndent(s);
      var u := Text(s, v, i + 1, q, true, rest);
      TextFold(s, v, i, p, rest);
      NoBlankAhead(s, v, i + 1, q, rest);
      StepFold(false, s, u, col);
      ReadsFrom(s, v, i + 1, q, true, rest, s.indent, []);
      assert [] + v[i + 1..] == v[i + 1..];
      assert [SPACE] + v[i + 1..] == v[i..];
    }
  }

  /** A fold before another space, which is escaped. */
  lemma {:induction false} ReadsFoldBefore(s: Style, v: seq<Rune>, i: nat, p: Pen, rest: seq<Rune>, col: nat)
    requires i + 1 < |v| && LineBreak(s.br) && s.indent >= 1 && Mid(s, p, false) && col >= 1
    requires !NeedsEscape(s, v, i) && v[i] == SPACE && v[i + 1] == SPACE && Folds(s, v, i, p, false)
    ensures Scan(false, Text(s, v, i, p, false, rest), col, Content) == Done(v[i..], rest)
    decreases |v| - i, 0
  {
    hide Scan;
    hide Text;
    hide DoubleQuoted;
    TextFoldSpace(s, v, i, p, rest);
    var q2 := Pen(s.indent + 2, true, true);
    var u := Text(s, v, i + 2, q2, true, rest);
    StepFold(false, s, [BACKSLASH, SPACE] + u, col);
    StepEscape([BACKSLASH, SPACE], SPACE, u, s.indent, []);
    ReadsFrom(s, v, i + 2, q2, true, rest, s.indent + 2, []);
    PushPush([SPACE], [SPACE], Done(v[i + 2..], rest));
    assert [] + [SPACE] == [SPACE] && [] + v[i + 2..] == v[i + 2..];
    assert [SPACE] + [SPACE] + v[i + 2..] == v[i..];
  }

  /** Scanning what was written, from the opening quote on, gives the value back and leaves
      exactly the text that follows. */
  lemma RoundTrip(s: Style, v: seq<Rune>, p: Pen, rest: seq<Rune>, col: nat)
    requires LineBreak(s.br) && s.indent >= 1
    ensures var w := if p.whitespace then 0 else 1;
            var t := DoubleQuotedWritten(s, v, p) + rest;
            t[w] == DQUOTE && Scan(false, t[w + 1..], col + 1, LineStart) == Done(v, rest)
  {
    var q := Pen(p.col + (if p.whitespace then 0 else 1) + 1, false, false);
    ReadsFrom(s, v, 0, q, false, rest, col + 1, []);
    hide Scan;
    hide DoubleQuoted;
    assert [] + v[0..] == v;
    AfterOpening(if p.whitespace then [] else [SPACE], DQUOTE, DoubleQuoted(s, v, 0, q, false), rest);
  }

  // ---- Escapes by their names ----

  /** The letters of YAML 1.2 section 5.7 without the slash, and the single quote. */
  const LETTERS: string := "0abt\tnvfre \"'\\N_LP"

  const MEANT: seq<Rune> := [0, 0x07, 0x08, TAB, TAB, LF, 0x0B, 0x0C, CR, 0x1B, SPACE, DQUOTE, SQUOTE, BACKSLASH, NEL, 0xA0, LS, PS]

  lemma LettersListed()
    ensures |LETTERS| == |MEANT| == 18
    ensures forall i | 0 <= i < 18 :: SimpleEscape(LETTERS[i] as Rune) == MEANT[i]
  {
    var s := LETTERS;
    assert s[0] == '0' && s[1] == 'a' && s[2] == 'b' && s[3] == 't' && s[4] == '\t' && s[5] == 'n' && s[6] == 'v' && s[7] == 'f';
    assert s[8] == 'r' && s[9] == 'e' && s[10] == ' ' && s[11] == '"' && s[12] == '\'' && s[13] == '\\' && s[14] == 'N';
    assert s[15] == '_' && s[16] == 'L' && s[17] == 'P';
  }

  /** Where a letter is listed. */
  function Listed(c: Rune): int {
    match c
    case 0x30 => 0
    case 0x61 => 1
    case 0x62 => 2
    case 0x74 => 3
    case 0x09 => 4
    case 0x6E => 5
    case 0x76 => 6
    case 0x66 => 7
    case 0x72 => 8
    case 0x65 => 9
    case 0x20 => 10
    case 0x22 => 11
    case 0x27 => 12
    case 0x5C => 13
    case 0x4E => 14
    case 0x5F => 15
    case 0x4C => 16
    case 0x50 => 17
    case _ => -1
  }

  lemma EscapesListed(c: Rune)
    requires SimpleEscape(c) != -1
    ensures 0 <= Listed(c) < |LETTERS| && LETTERS[Listed(c)] as int == c
  {
    var s := LETTERS;
    assert s[0] == '0' && s[1] == 'a' && s[2] == 'b' && s[3] == 't' && s[4] == '\t' && s[5] == 'n' && s[6] == 'v' && s[7] == 'f';
    assert s[8] == 'r' && s[9] == 'e' && s[10] == ' ' && s[11] == '"' && s[12] == '\'' && s[13] == '\\' && s[14] == 'N';
    assert s[15] == '_' && s[16] == 'L' && s[17] == 'P';
  }

  /** The scanner takes exactly these letters, each for what it is meant for; and the writer's letters
      are among them. */
  lemma LettersMeant(c: Rune)
    ensures |LETTERS| == |MEANT|
    ensures SimpleEscape(c) == -1 <==> forall i | 0 <= i < |LETTERS| :: LETTERS[i] as int != c
    ensures forall i | 0 <= i < |LETTERS| && LETTERS[i] as int == c :: SimpleEscape(c) == MEANT[i]
    ensures ShortEscape(c) != 0 ==> exists i | 0 <= i < |LETTERS| :: LETTERS[i] as int == ShortEscape(c) && MEANT[i] == c
  {
    LettersListed();
    NoMeantIsBad();
    hide SimpleEscape, ShortEscape, Listed;
    if SimpleEscape(c) != -1 {
      EscapesListed(c);
    }
    if ShortEscape(c) != 0 {
      LetterOf(c);
    }
  }

  lemma NoMeantIsBad()
    ensures forall i | 0 <= i < |MEANT| :: MEANT[i] != -1
  {
  }

  lemma LetterOf(c: Rune)
    requires ShortEscape(c) != 0
    ensures exists i | 0 <= i < |LETTERS| :: LETTERS[i] as int == ShortEscape(c) && MEANT[i] == c
  {
    var s := LETTERS;
    match c
    case 0x00 => assert s[0] as int == ShortEscape(c) && MEANT[0] == c;
    case 0x07 => assert s[1] as int == ShortEscape(c) && MEANT[1] == c;
    case 0x08 => assert s[2] as int == ShortEscape(c) && MEANT[2] == c;
    case 0x09 => assert s[3] as int == ShortEscape(c) && MEANT[3] == c;
    case 0x0A => assert s[5] as int == ShortEscape(c) && MEANT[5] == c;
    case 0x0B => assert s[6] as int == ShortEscape(c) && MEANT[6] == c;
    case 0x0C => assert s[7] as int == ShortEscape(c) && MEANT[7] == c;
    case 0x0D => assert s[8] as int == ShortEscape(c) && MEANT[8] == c;
    case 0x1B => assert s[9] as int == ShortEscape(c) && MEANT[9] == c;
    case 0x22 => assert s[11] as int == ShortEscape(c) && MEANT[11] == c;
    case 0x5C => assert s[13] as int == ShortEscape(c) && MEANT[13] == c;
    case 0x85 => assert s[14] as int == ShortEscape(c) && MEANT[14] == c;
    case 0xA0 => assert s[15] as int == ShortEscape(c) && MEANT[15] == c;
    case 0x2028 => assert s[16] as int == ShortEscape(c) && MEANT[16] == c;
    case 0x2029 => assert s[17] as int == ShortEscape(c) && MEANT[17] == c;
    case _ =>
  }

  const UPPER: string := "0123456789ABCDEF"

  const LOWER: string := "0123456789abcdef"

  /** Digits are written in upper case, and read in both. */
  lemma DigitsMeant(d: nat)
    requires d < 16
    ensures |UPPER| == |LOWER| == 16 && HexDigit(d) == UPPER[d] as int
    ensures Hex(UPPER[d] as Rune) && HexValue(UPPER[d] as Rune) == d
    ensures Hex(LOWER[d] as Rune) && HexValue(LOWER[d] as Rune) == d
  {
    var u, l := UPPER, LOWER;
    assert u[..10] == "0123456789" && u[10..] == "ABCDEF" && l[..10] == "0123456789" && l[10..] == "abcdef";
    assert d < 10 ==> u[d] == u[..10][d] && l[d] == l[..10][d];
    assert d >= 10 ==> u[d] == u[10..][d - 10] && l[d] == l[10..][d - 10];
    DecimalsRun(if d < 10 then d else 0);
    LettersRun(if d < 10 then 0 else d - 10);
  }

  lemma DecimalsRun(d: nat)
    requires d < 10
    ensures "0123456789"[d] as int == 0x30 + d
  {
  }

  lemma LettersRun(d: nat)
    requires d < 6
    ensures "ABCDEF"[d] as int == 0x41 + d && "abcdef"[d] as int == 0x61 + d
  {
  }
}
