/** The text half of the emitter: the functions of emitterc.go that put characters and write
    scalars, on bytes. Each one is tied to the text that ScalarText gives for its value. */
module EmitterText {
  import opened Utf8
  import opened CharClass
  import opened ScalarText
  import T = TagUri

  datatype LineBreakSetting = CrBreak | LnBreak | CrLnBreak

  function BreakChars(b: LineBreakSetting): (br: seq<Rune>)
    ensures LineBreak(br)
  {
    match b
    case CrBreak => [CR]
    case LnBreak => [LF]
    case CrLnBreak => [CR, LF]
  }

  lemma EncodeAscii(t: seq<Rune>, b: seq<Byte>)
    requires AsciiBytes(t, b)
    ensures EncodeAll(t) == b
  {
    if t != [] {
      EncodeAscii(t[1..], b[1..]);
      assert Encode(t[0]) == [b[0]];
      assert b == [b[0]] + b[1..];
    }
  }

  class Emitter {
    const lineBreak: LineBreakSetting
    const unicode: bool
    const bestIndent: nat
    const bestWidth: int
    var indent: int
    var column: nat
    var line: nat
    var whitespace: bool
    var indention: bool
    var openEnded: bool
    var output: seq<Byte>

    /** An emitter somewhere in a document. */
    constructor (lineBreak: LineBreakSetting, unicode: bool, bestIndent: nat, bestWidth: int, indent: int, pen: Pen)
      ensures this.lineBreak == lineBreak && this.unicode == unicode && this.bestIndent == bestIndent
      ensures this.bestWidth == bestWidth && this.indent == indent && P() == pen && output == []
    {
      this.lineBreak, this.unicode, this.bestIndent, this.bestWidth := lineBreak, unicode, bestIndent, bestWidth;
      this.indent, column, line, whitespace, indention := indent, pen.col, 0, pen.whitespace, pen.indention;
      openEnded, output := false, [];
    }

    ghost function P(): Pen
      reads this
    {
      Pen(column, whitespace, indention)
    }

    ghost function S(allowBreaks: bool): Style
      reads this
    {
      Style(indent, bestWidth, unicode, allowBreaks, BreakChars(lineBreak))
    }

    method Put(value: Byte)
      modifies this`output, this`column
      ensures output == old(output) + [value] && column == old(column) + 1
    {
      output := output + [value];
      column := column + 1;
    }

    method PutBreak()
      modifies this`output, this`column, this`line
      ensures output == old(output) + EncodeAll(BreakChars(lineBreak))
      ensures column == 0 && line == old(line) + 1
    {
      EncodeAscii(BreakChars(lineBreak), if lineBreak.CrBreak? then [0x0D] else if lineBreak.LnBreak? then [0x0A] else [0x0D, 0x0A]);
      match lineBreak {
        case CrBreak => output := output + [0x0D];
        case LnBreak => output := output + [0x0A];
        case CrLnBreak => output := output + [0x0D, 0x0A];
      }
      column := 0;
      line := line + 1;
    }

    /** write: copy the character at value[i]. */
    method Write(value: seq<Byte>, i: nat, ghost c: Rune) returns (j: nat)
      requires Holds(value, i, c)
      modifies this`output, this`column
      ensures output == old(output) + Encode(c) && column == old(column) + 1
      ensures j == i + |Encode(c)|
    {
      HoldsBytes(value, i, c);
      var w := Width(value[i]);
      output := output + value[i..i + w];
      column := column + 1;
      j := i + w;
    }

    /** write_break: an LF is written as the line-break setting says, other breaks are copied. */
    method WriteBreak(value: seq<Byte>, i: nat, ghost c: Rune) returns (j: nat)
      requires Holds(value, i, c)
      modifies this`output, this`column, this`line
      ensures output == old(output) + EncodeAll(WrittenBreak(S(false), c))
      ensures column == 0 && line == old(line) + 1 && j == i + |Encode(c)|
    {
      BytesAgree(value, i, c);
      if value[i] == 0x0A {
        PutBreak();
        j := i + 1;
      } else {
        EncodeAllOne(c);
        j := Write(value, i, c);
        column := 0;
        line := line + 1;
      }
    }

    method WriteIndicator(indicator: seq<Byte>, needWhitespace: bool, isWhitespace: bool, isIndention: bool)
      modifies this`output, this`column, this`whitespace, this`indention, this`openEnded
      ensures output == old(output) + (if needWhitespace && !old(whitespace) then [0x20] else []) + indicator
      ensures column == old(column) + (if needWhitespace && !old(whitespace) then 1 else 0) + |indicator|
      ensures whitespace == isWhitespace && indention == (old(indention) && isIndention) && !openEnded
    {
      if needWhitespace && !whitespace {
        Put(0x20);
      }
      output := output + indicator;
      column := column + |indicator|;
      whitespace := isWhitespace;
      indention := indention && isIndention;
      openEnded := false;
    }

    method PutSpaces(n: nat)
      modifies this`output, this`column
      ensures output == old(output) + EncodeAll(Spaces(n)) && column == old(column) + n
    {
      ghost var text: seq<Byte> := [];
      var k := 0;
      while k < n
        invariant 0 <= k <= n && column == old(column) + k && output == old(output) + text
        invariant AsciiBytes(Spaces(k), text)
      {
        Put(0x20);
        text := text + [0x20];
        k := k + 1;
      }
      EncodeAscii(Spaces(n), text);
    }

    /** write_indent: start a new line unless the current one is still indentation, and indent. */
    method WriteIndent()
      modifies this`output, this`column, this`line, this`whitespace, this`indention
      ensures output == old(output) + EncodeAll(IndentText(S(false), old(P())))
      ensures P() == AfterIndent(S(false))
    {
      hide EncodeAll;
      hide Spaces;
      hide BreakChars;
      var n := if indent < 0 then 0 else indent;
      ghost var out, br := output, BreakChars(lineBreak);
      ghost var breaks := IndentBreaks(indent, P());
      EncodeAllConcat(br, Spaces(n));
      if !indention || column > n || (column == n && !whitespace) {
        PutBreak();
      }
      PadTo(n);
      assert out + EncodeAll(br) + EncodeAll(Spaces(n)) == out + (EncodeAll(br) + EncodeAll(Spaces(n)));
      assert breaks ==> output == out + EncodeAll(br) + EncodeAll(Spaces(n));
      whitespace := true;
      indention := true;
    }

    method PadTo(n: nat)
      modifies this`output, this`column
      ensures var k := if old(column) < n then n - old(column) else 0;
              output == old(output) + EncodeAll(Spaces(k)) && column == old(column) + k
    {
      hide EncodeAll;
      hide Spaces;
      if column < n {
        PutSpaces(n - column);
      } else {
        NoSpaces();
      }
    }

    // ---- yaml_emitter_write_double_quoted_scalar ----

    /** The escape sequence for one character. */
    method PutEscape(v: Rune)
      modifies this`output, this`column
      ensures output == old(output) + EncodeAll(EscapeText(v))
      ensures column == old(column) + |EscapeText(v)|
    {
      EscapeBytes(v);
      hide HexText;
      hide EncodeAll;
      hide EscapeText;
      hide ShortEscape;
      Put(0x5C);
      var short := ShortEscape(v);
      if short != 0 {
        Put(short);
      } else if v <= 0xFF {
        PutHex(0x78, v, 2);
      } else if v <= 0xFFFF {
        PutHex(0x75, v, 4);
      } else {
        PutHex(0x55, v, 8);
      }
    }

    /** The letter and the digits of '\\x', '\\u' or '\\U', most significant digit first. */
    method PutHex(letter: Byte, v: nat, w: nat)
      modifies this`output, this`column
      ensures output == old(output) + [letter] + EncodeAll(HexText(v, w))
      ensures column == old(column) + 1 + w
    {
      hide HexText;
      hide Shift;
      Put(letter);
      var k := w;
      ghost var digits: seq<Byte> := [];
      NoDigits(v, w);
      while k > 0
        invariant 0 <= k <= w && output == old(output) + [letter] + digits
        invariant column == old(column) + 1 + (w - k)
        invariant AsciiBytes(HexText(Shift(v, k), w - k), digits)
      {
        k := k - 1;
        var digit := Shift(v, k) % 16;
        HexTextMore(v, k, w - k, digits);
        digits := digits + [HexDigit(digit)];
        Put(if digit < 10 then digit + 0x30 else digit + 0x41 - 10);
      }
      NoShift(v);
      EncodeAscii(HexText(v, w), digits);
    }

    /** A space inside double quotes: a line is folded there if it has become too long. */
    method DoubleQuotedSpace(value: seq<Byte>, i: nat, spaces: bool, allowBreaks: bool, ghost v: seq<Rune>, ghost k: nat)
      returns (j: nat)
      requires value == EncodeAll(v) && k < |v| && Rest(value, i, v[k..]) && (i == 0 <==> k == 0)
      requires v[k] == SPACE && !NeedsEscape(S(allowBreaks), v, k)
      modifies this`output, this`column, this`line, this`whitespace, this`indention
      ensures j > i && Rest(value, j, v[k + 1..])
      ensures var a := DoubleQuotedPiece(S(allowBreaks), v, k, old(P()), spaces);
              output == old(output) + EncodeAll(a.text) && P() == a.pen && a.spaces
    {
      hide EncodeAll;
      hide Encode;
      hide EscapeText;
      hide Spaces;
      hide NeedsEscape;
      ghost var s := S(allowBreaks);
      Around(value, i, v, k);
      if allowBreaks && !spaces && column > bestWidth && i > 0 && i < |value| - 1 {
        ghost var p := P();
        assert Folds(s, v, k, p, spaces);
        WriteIndent();
        if IsSpace(value, i + 1) {
          EncodeAllConcat(IndentText(s, p), [BACKSLASH]);
          EncodeAllOne(BACKSLASH);
          EncodeAsciiOne(BACKSLASH);
          Put(0x5C);
        }
        j := i + Width(value[i]);
      } else {
        EncodeAllOne(v[k]);
        j := Write(value, i, v[k]);
      }
    }

    /** The character at value[i] inside double quotes. */
    method DoubleQuotedChar(value: seq<Byte>, i: nat, spaces: bool, allowBreaks: bool, ghost v: seq<Rune>, ghost k: nat)
      returns (j: nat, nowSpaces: bool)
      requires value == EncodeAll(v) && k < |v| && Rest(value, i, v[k..]) && (i == 0 <==> k == 0)
      modifies this`output, this`column, this`line, this`whitespace, this`indention
      ensures j > i && Rest(value, j, v[k + 1..])
      ensures var a := DoubleQuotedPiece(S(allowBreaks), v, k, old(P()), spaces);
              output == old(output) + EncodeAll(a.text) && P() == a.pen && nowSpaces == a.spaces
    {
      hide EncodeAll;
      hide Encode;
      hide EscapeText;
      hide Spaces;
      ghost var s := S(allowBreaks);
      Around(value, i, v, k);
      if !IsPrintable(value, i) || (!unicode && !IsAscii(value, i)) || IsBom(value, i) || IsBreak(value, i)
         || value[i] == 0x22 || value[i] == 0x5C
      {
        assert NeedsEscape(s, v, k);
        PutEscape(Decode(value, i, v[k]));
        j := i + Width(value[i]);
        nowSpaces := false;
      } else if IsSpace(value, i) {
        assert !NeedsEscape(s, v, k);
        j := DoubleQuotedSpace(value, i, spaces, allowBreaks, v, k);
        nowSpaces := true;
      } else {
        EncodeAllOne(v[k]);
        j := Write(value, i, v[k]);
        nowSpaces := false;
      }
    }

    method WriteDoubleQuoted(value: seq<Byte>, allowBreaks: bool, ghost v: seq<Rune>)
      requires value == EncodeAll(v)
      modifies this
      ensures output == old(output) + EncodeAll(DoubleQuotedWritten(old(S(allowBreaks)), v, old(P())))
      ensures !whitespace && !indention && indent == old(indent)
    {
      hide DoubleQuoted;
      hide EncodeAll;
      ghost var s := S(allowBreaks);
      WriteIndicator([0x22], true, false, false);
      ghost var text := DoubleQuoted(s, v, 0, P(), false);
      DoubleQuotedChars(value, allowBreaks, v);
      QuotedBytes(old(whitespace), DQUOTE, text);
      WriteIndicator([0x22], false, false, false);
      whitespace := false;
      indention := false;
    }

    method DoubleQuotedChars(value: seq<Byte>, allowBreaks: bool, ghost v: seq<Rune>)
      requires value == EncodeAll(v)
      modifies this`output, this`column, this`line, this`whitespace, this`indention
      ensures output == old(output) + EncodeAll(DoubleQuoted(S(allowBreaks), v, 0, old(P()), false))
    {
      hide DoubleQuotedPiece;
      hide EncodeAll;
      ghost var s := S(allowBreaks);
      var spaces := false;
      ghost var out, p0 := output, P();
      ghost var text: seq<Rune> := [];
      EncodeAllEmpty(text);
      var i := 0;
      ghost var k := 0;
      while i < |value|
        invariant k <= |v| && Rest(value, i, v[k..]) && s == S(allowBreaks) && (i == 0 <==> k == 0)
        invariant output == out + EncodeAll(text)
        invariant text + DoubleQuoted(s, v, k, P(), spaces) == DoubleQuoted(s, v, 0, p0, false)
        decreases |value| - i
      {
        EncodeAllEmpty(v[k..]);
        ghost var a := DoubleQuotedPiece(s, v, k, P(), spaces);
        assert text + (a.text + DoubleQuoted(s, v, k + 1, a.pen, a.spaces))
            == text + a.text + DoubleQuoted(s, v, k + 1, a.pen, a.spaces);
        EncodeAllConcat(text, a.text);
        i, spaces := DoubleQuotedChar(value, i, spaces, allowBreaks, v, k);
        text := text + a.text;
        k := k + 1;
      }
      EncodeAllEmpty(v[k..]);
      assert text == DoubleQuoted(s, v, 0, p0, false);
    }

    // ---- yaml_emitter_write_single_quoted_scalar ----

    /** The character at value[i] inside single quotes. */
    method SingleQuotedChar(value: seq<Byte>, i: nat, spaces: bool, breaks: bool, allowBreaks: bool,
        ghost v: seq<Rune>, ghost k: nat)
      returns (j: nat, nowSpaces: bool, nowBreaks: bool)
      requires value == EncodeAll(v) && k < |v| && Rest(value, i, v[k..]) && (i == 0 <==> k == 0)
      modifies this`output, this`column, this`line, this`whitespace, this`indention
      ensures j > i && Rest(value, j, v[k + 1..])
      ensures var a := SingleQuotedPiece(S(allowBreaks), v, k, old(P()), spaces, breaks);
              && output == old(output) + EncodeAll(a.text) && P() == a.pen
              && nowSpaces == a.spaces && nowBreaks == a.breaks
    {
      hide EncodeAll;
      hide Encode;
      hide Spaces;
      Around(value, i, v, k);
      nowSpaces, nowBreaks := spaces, breaks;
      EncodeAllOne(v[k]);
      if IsSpace(value, i) {
        if allowBreaks && !spaces && column > bestWidth && i > 0 && i < |value| - 1 && !IsSpace(value, i + 1) {
          WriteIndent();
          j := i + Width(value[i]);
        } else {
          j := Write(value, i, v[k]);
        }
        nowSpaces := true;
      } else if IsBreak(value, i) {
        j := SingleQuotedBreak(value, i, breaks, v[k]);
        nowBreaks := true;
      } else {
        j := SingleQuotedOther(value, i, breaks, v[k]);
        nowSpaces := false;
        nowBreaks := false;
      }
    }

    method SingleQuotedBreak(value: seq<Byte>, i: nat, breaks: bool, ghost c: Rune) returns (j: nat)
      requires Holds(value, i, c) && Break(c)
      modifies this`output, this`column, this`line, this`indention
      ensures j == i + |Encode(c)|
      ensures output == old(output) + EncodeAll(BreakDoubled(S(false), c, breaks)) && P() == Pen(0, whitespace, true)
    {
      hide EncodeAll;
      hide Encode;
      BytesAgree(value, i, c);
      ghost var first: seq<Rune> := if !breaks && c == LF then BreakChars(lineBreak) else [];
      EncodeAllConcat(first, WrittenBreak(S(false), c));
      EncodeAllEmpty([]);
      if !breaks && value[i] == 0x0A {
        PutBreak();
      }
      j := WriteBreak(value, i, c);
      indention := true;
    }

    method SingleQuotedOther(value: seq<Byte>, i: nat, breaks: bool, ghost c: Rune) returns (j: nat)
      requires Holds(value, i, c)
      modifies this`output, this`column, this`line, this`whitespace, this`indention
      ensures j == i + |Encode(c)|
      ensures var chars := if c == SQUOTE then [SQUOTE, SQUOTE] else [c];
              var q := if breaks then AfterIndent(S(false)) else old(P());
              && output == old(output) + EncodeAll((if breaks then IndentText(S(false), old(P())) else []) + chars)
              && P() == Pen(q.col + |chars|, q.whitespace, false)
    {
      hide EncodeAll;
      hide Encode;
      hide IndentText;
      BytesAgree(value, i, c);
      ghost var first: seq<Rune> := if breaks then IndentText(S(false), P()) else [];
      if c == SQUOTE {
        EncodeAscii([SQUOTE, SQUOTE], [0x27, 0x27]);
        EncodeAllConcat(first, [SQUOTE, SQUOTE]);
        EncodeAsciiOne(c);
      } else {
        EncodeAllOne(c);
        EncodeAllConcat(first, [c]);
      }
      EncodeAllEmpty([]);
      if breaks {
        WriteIndent();
      }
      if value[i] == 0x27 {
        Put(0x27);
      }
      j := Write(value, i, c);
      indention := false;
    }

    method WriteSingleQuoted(value: seq<Byte>, allowBreaks: bool, ghost v: seq<Rune>)
      requires value == EncodeAll(v)
      modifies this
      ensures output == old(output) + EncodeAll(SingleQuotedWritten(old(S(allowBreaks)), v, old(P())))
      ensures !whitespace && !indention && indent == old(indent)
    {
      hide SingleQuoted;
      hide EncodeAll;
      ghost var s := S(allowBreaks);
      WriteIndicator([0x27], true, false, false);
      ghost var text := SingleQuoted(s, v, 0, P(), false, false);
      SingleQuotedChars(value, allowBreaks, v);
      QuotedBytes(old(whitespace), SQUOTE, text);
      WriteIndicator([0x27], false, false, false);
      whitespace := false;
      indention := false;
    }

    method SingleQuotedChars(value: seq<Byte>, allowBreaks: bool, ghost v: seq<Rune>)
      requires value == EncodeAll(v)
      modifies this`output, this`column, this`line, this`whitespace, this`indention
      ensures output == old(output) + EncodeAll(SingleQuoted(S(allowBreaks), v, 0, old(P()), false, false))
    {
      hide SingleQuotedPiece;
      hide EncodeAll;
      ghost var s := S(allowBreaks);
      var spaces, breaks := false, false;
      ghost var out, p0 := output, P();
      ghost var text: seq<Rune> := [];
      EncodeAllEmpty(text);
      var i := 0;
      ghost var k := 0;
      while i < |value|
        invariant k <= |v| && Rest(value, i, v[k..]) && s == S(allowBreaks) && (i == 0 <==> k == 0)
        invariant output == out + EncodeAll(text)
        invariant text + SingleQuoted(s, v, k, P(), spaces, breaks) == SingleQuoted(s, v, 0, p0, false, false)
        decreases |value| - i
      {
        EncodeAllEmpty(v[k..]);
        ghost var a := SingleQuotedPiece(s, v, k, P(), spaces, breaks);
        assert text + (a.text + SingleQuoted(s, v, k + 1, a.pen, a.spaces, a.breaks))
            == text + a.text + SingleQuoted(s, v, k + 1, a.pen, a.spaces, a.breaks);
        EncodeAllConcat(text, a.text);
        i, spaces, breaks := SingleQuotedChar(value, i, spaces, breaks, allowBreaks, v, k);
        text := text + a.text;
        k := k + 1;
      }
      EncodeAllEmpty(v[k..]);
      assert text == SingleQuoted(s, v, 0, p0, false, false);
    }

    // ---- yaml_emitter_write_plain_scalar ----

    /** The character at value[i] of a plain scalar, which does not end with a space: the code looks at the
        character behind a space. */
    method PlainChar(value: seq<Byte>, i: nat, spaces: bool, breaks: bool, allowBreaks: bool, ghost v: seq<Rune>, ghost k: nat)
      returns (j: nat, nowSpaces: bool, nowBreaks: bool)
      requires value == EncodeAll(v) && k < |v| && Rest(value, i, v[k..]) && (i == 0 <==> k == 0) && !TrailingSpace(v)
      modifies this`output, this`column, this`line, this`whitespace, this`indention
      ensures j > i && Rest(value, j, v[k + 1..])
      ensures var a := PlainPiece(S(allowBreaks), v, k, old(P()), spaces, breaks);
              && output == old(output) + EncodeAll(a.text) && P() == a.pen
              && nowSpaces == a.spaces && nowBreaks == a.breaks
    {
      hide EncodeAll;
      hide Encode;
      hide Spaces;
      Around(value, i, v, k);
      nowSpaces, nowBreaks := spaces, breaks;
      EncodeAllOne(v[k]);
      if IsSpace(value, i) {
        if allowBreaks && !spaces && column > bestWidth && !IsSpace(value, i + 1) {
          WriteIndent();
          j := i + Width(value[i]);
        } else {
          j := Write(value, i, v[k]);
        }
        nowSpaces := true;
      } else if IsBreak(value, i) {
        j := SingleQuotedBreak(value, i, breaks, v[k]);
        nowBreaks := true;
      } else {
        j := PlainOther(value, i, breaks, v[k]);
        nowSpaces := false;
        nowBreaks := false;
      }
    }

    method PlainOther(value: seq<Byte>, i: nat, breaks: bool, ghost c: Rune) returns (j: nat)
      requires Holds(value, i, c)
      modifies this`output, this`column, this`line, this`whitespace, this`indention
      ensures j == i + |Encode(c)|
      ensures var q := if breaks then AfterIndent(S(false)) else old(P());
              && output == old(output) + EncodeAll((if breaks then IndentText(S(false), old(P())) else []) + [c])
              && P() == Pen(q.col + 1, q.whitespace, false)
    {
      hide EncodeAll;
      hide Encode;
      hide IndentText;
      ghost var first: seq<Rune> := if breaks then IndentText(S(false), P()) else [];
      EncodeAllOne(c);
      EncodeAllConcat(first, [c]);
      EncodeAllEmpty([]);
      if breaks {
        WriteIndent();
      }
      j := Write(value, i, c);
      indention := false;
    }

    method WritePlain(value: seq<Byte>, allowBreaks: bool, rootContext: bool, ghost v: seq<Rune>)
      requires value == EncodeAll(v) && !TrailingSpace(v)
      modifies this
      ensures output == old(output) + EncodeAll(PlainWritten(old(S(allowBreaks)), v, old(P())))
      ensures !whitespace && !indention && indent == old(indent) && openEnded == (rootContext || old(openEnded))
    {
      hide Plain, EncodeAll, TrailingSpace;
      ghost var s := S(allowBreaks);
      ghost var first: seq<Rune> := if whitespace then [] else [SPACE];
      EncodeAllEmpty([]);
      EncodeAllOne(SPACE);
      if !whitespace {
        Put(0x20);
      }
      ghost var text := Plain(s, v, 0, P(), false, false);
      EncodeAllConcat(first, text);
      PlainChars(value, allowBreaks, v);
      whitespace := false;
      indention := false;
      if rootContext {
        openEnded := true;
      }
    }

    method PlainChars(value: seq<Byte>, allowBreaks: bool, ghost v: seq<Rune>)
      requires value == EncodeAll(v) && !TrailingSpace(v)
      modifies this`output, this`column, this`line, this`whitespace, this`indention
      ensures output == old(output) + EncodeAll(Plain(S(allowBreaks), v, 0, old(P()), false, false))
    {
      hide PlainPiece, EncodeAll, TrailingSpace;
      ghost var s := S(allowBreaks);
      var spaces, breaks := false, false;
      ghost var out, p0 := output, P();
      ghost var text: seq<Rune> := [];
      EncodeAllEmpty(text);
      var i := 0;
      ghost var k := 0;
      while i < |value|
        invariant k <= |v| && Rest(value, i, v[k..]) && s == S(allowBreaks) && (i == 0 <==> k == 0)
        invariant output == out + EncodeAll(text)
        invariant text + Plain(s, v, k, P(), spaces, breaks) == Plain(s, v, 0, p0, false, false)
        decreases |value| - i
      {
        EncodeAllEmpty(v[k..]);
        ghost var a := PlainPiece(s, v, k, P(), spaces, breaks);
        assert text + (a.text + Plain(s, v, k + 1, a.pen, a.spaces, a.breaks))
            == text + a.text + Plain(s, v, k + 1, a.pen, a.spaces, a.breaks);
        EncodeAllConcat(text, a.text);
        i, spaces, breaks := PlainChar(value, i, spaces, breaks, allowBreaks, v, k);
        text := text + a.text;
        k := k + 1;
      }
      EncodeAllEmpty(v[k..]);
      assert text == Plain(s, v, 0, p0, false, false);
    }

    // ---- yaml_emitter_write_literal_scalar ----

    /** The indentation hint and the chomping hint. */
    method WriteBlockScalarHints(value: seq<Byte>, ghost v: seq<Rune>)
      requires value == EncodeAll(v) && v != [] && 2 <= bestIndent <= 9
      modifies this`output, this`column, this`whitespace, this`indention, this`openEnded
      ensures output == old(output) + EncodeAll(BlockHints(bestIndent, v))
    {
      hide EncodeAll;
      hide Encode;
      ghost var hint: seq<Rune> := if v[0] == SPACE || Break(v[0]) then [0x30 + bestIndent] else [];
      EncodeAllEmpty([]);
      assert v[0..] == v && value[0..] == value;
      Around(value, 0, v, 0);
      var hinted := IsSpace(value, 0) || IsBreak(value, 0);
      assert hinted <==> hint != [];
      hide IsSpace, IsBreak, Break, ChompHint;
      if hinted {
        var digit: Byte := 0x30 + bestIndent;
        EncodeAscii([digit], [digit]);
        WriteIndicator([digit], false, false, false);
      }
      openEnded := false;
      var chomp := Chomping(value, v);
      EncodeAllConcat(hint, ChompHint(v));
      EncodeAscii(ChompHint(v), chomp);
      if chomp != [] {
        WriteIndicator(chomp, false, false, false);
      }
    }

    /** The chomping hint, from the last two characters. */
    method Chomping(value: seq<Byte>, ghost v: seq<Rune>) returns (chomp: seq<Byte>)
      requires value == EncodeAll(v) && v != []
      modifies this`openEnded
      ensures AsciiBytes(ChompHint(v), chomp) && openEnded == (chomp == [0x2B] || old(openEnded))
    {
      hide EncodeAll;
      hide Encode;
      chomp := [];
      assert value[..|value|] == value;
      EncodeAllEmpty(v);
      var i := CharStart(value, |value|, v);
      BytesAgree(value, i, v[|v| - 1]);
      if !IsBreak(value, i) {
        chomp := [0x2D];
      } else if i == 0 {
        EncodeAllEmpty(v[..|v| - 1]);
        chomp := [0x2B];
        openEnded := true;
      } else {
        EncodeAllEmpty(v[..|v| - 1]);
        i := CharStart(value, i, v[..|v| - 1]);
        BytesAgree(value, i, v[|v| - 2]);
        if IsBreak(value, i) {
          chomp := [0x2B];
          openEnded := true;
        }
      }
    }

    /** The character at value[i] of a literal scalar. */
    method LiteralChar(value: seq<Byte>, i: nat, breaks: bool, ghost v: seq<Rune>, ghost k: nat)
      returns (j: nat, nowBreaks: bool)
      requires value == EncodeAll(v) && k < |v| && Rest(value, i, v[k..])
      modifies this`output, this`column, this`line, this`whitespace, this`indention
      ensures j > i && Rest(value, j, v[k + 1..])
      ensures var a := LiteralPiece(S(false), v, k, old(P()), breaks);
              output == old(output) + EncodeAll(a.text) && P() == a.pen && nowBreaks == a.breaks
    {
      hide EncodeAll;
      hide Encode;
      hide Spaces;
      hide IndentText;
      Around(value, i, v, k);
      if IsBreak(value, i) {
        j := WriteBreak(value, i, v[k]);
        indention := true;
        nowBreaks := true;
      } else {
        j := LiteralOther(value, i, breaks, v[k]);
        nowBreaks := false;
      }
    }

    method LiteralOther(value: seq<Byte>, i: nat, breaks: bool, ghost c: Rune) returns (j: nat)
      requires Holds(value, i, c)
      modifies this`output, this`column, this`line, this`whitespace, this`indention
      ensures j == i + |Encode(c)|
      ensures var q := if breaks then AfterIndent(S(false)) else old(P());
              && output == old(output) + EncodeAll((if breaks then IndentText(S(false), old(P())) else []) + [c])
              && P() == Pen(q.col + 1, q.whitespace, false)
    {
      hide EncodeAll;
      hide Encode;
      hide IndentText;
      ghost var first: seq<Rune> := if breaks then IndentText(S(false), P()) else [];
      EncodeAllOne(c);
      EncodeAllConcat(first, [c]);
      EncodeAllEmpty([]);
      if breaks {
        WriteIndent();
      }
      j := Write(value, i, c);
      indention := false;
    }

    method WriteLiteral(value: seq<Byte>, ghost v: seq<Rune>)
      requires value == EncodeAll(v) && v != [] && 2 <= bestIndent <= 9
      modifies this
      ensures output == old(output) + EncodeAll((if old(whitespace) then [] else [SPACE]) + [0x7C]
                                                + LiteralWritten(old(S(false)), bestIndent, v))
      ensures indent == old(indent)
    {
      hide Literal;
      hide EncodeAll;
      hide BlockHints;
      ghost var s := S(false);
      WriteIndicator([0x7C], true, false, false);
      WriteBlockScalarHints(value, v);
      PutBreak();
      indention := true;
      whitespace := true;
      ghost var text := Literal(s, v, 0, P(), true);
      LiteralChars(value, v);
      LiteralBytes(old(whitespace), BlockHints(bestIndent, v), s.br, text);
    }

    method LiteralChars(value: seq<Byte>, ghost v: seq<Rune>)
      requires value == EncodeAll(v)
      modifies this`output, this`column, this`line, this`whitespace, this`indention
      ensures output == old(output) + EncodeAll(Literal(S(false), v, 0, old(P()), true))
    {
      hide LiteralPiece;
      hide EncodeAll;
      ghost var s := S(false);
      var breaks := true;
      ghost var out, p0 := output, P();
      ghost var text: seq<Rune> := [];
      EncodeAllEmpty(text);
      var i := 0;
      ghost var k := 0;
      while i < |value|
        invariant k <= |v| && Rest(value, i, v[k..]) && s == S(false)
        invariant output == out + EncodeAll(text)
        invariant text + Literal(s, v, k, P(), breaks) == Literal(s, v, 0, p0, true)
        decreases |value| - i
      {
        EncodeAllEmpty(v[k..]);
        ghost var a := LiteralPiece(s, v, k, P(), breaks);
        assert text + (a.text + Literal(s, v, k + 1, a.pen, a.breaks))
            == text + a.text + Literal(s, v, k + 1, a.pen, a.breaks);
        EncodeAllConcat(text, a.text);
        i, breaks := LiteralChar(value, i, breaks, v, k);
        text := text + a.text;
        k := k + 1;
      }
      EncodeAllEmpty(v[k..]);
      assert text == Literal(s, v, 0, p0, true);
    }

    // ---- yaml_emitter_write_tag_content ----

    method PutPercent(octet: Byte)
      modifies this`output, this`column
      ensures output == old(output) + EncodeAll(T.Percent(octet)) && column == old(column) + 3
    {
      Put(0x25);
      var c: Byte := octet / 16;
      Put(if c < 10 then c + 0x30 else c + 0x41 - 10);
      c := octet % 16;
      Put(if c < 10 then c + 0x30 else c + 0x41 - 10);
      EncodeAscii(T.Percent(octet), [0x25, HexDigit(octet / 16), HexDigit(octet % 16)]);
    }

    /** The octets of one character, each as '%' and two digits. */
    method PutOctets(value: seq<Byte>, i: nat, ghost c: Rune) returns (j: nat)
      requires Holds(value, i, c)
      modifies this`output, this`column
      ensures output == old(output) + EncodeAll(T.PercentAll(Encode(c)))
      ensures j == i + |Encode(c)|
    {
      hide Encode;
      hide EncodeAll;
      HoldsBytes(value, i, c);
      var w := Width(value[i]);
      ghost var e := Encode(c);
      j := i;
      EncodeAllEmpty([]);
      while j < i + w
        invariant i <= j <= i + w
        invariant output + EncodeAll(T.PercentAll(e[j - i..])) == old(output) + EncodeAll(T.PercentAll(e))
      {
        assert value[j] == value[i..i + w][j - i];
        assert e[j - i..][1..] == e[j + 1 - i..];
        EncodeAllConcat(T.Percent(value[j]), T.PercentAll(e[j + 1 - i..]));
        PutPercent(value[j]);
        j := j + 1;
      }
    }

    method WriteTagContent(value: seq<Byte>, needWhitespace: bool, ghost v: seq<Rune>)
      requires value == EncodeAll(v)
      modifies this`output, this`column, this`whitespace, this`indention
      ensures output == old(output) + (if needWhitespace && !old(whitespace) then [0x20] else []) + EncodeAll(T.TagText(v))
      ensures !whitespace && !indention
    {
      hide EncodeAll;
      hide Encode;
      hide T.TagText;
      hide T.PercentAll;
      if needWhitespace && !whitespace {
        Put(0x20);
      }
      ghost var out := output;
      ghost var k := 0;
      var i := 0;
      assert v[0..] == v && value[0..] == value;
      while i < |value|
        invariant k <= |v| && Rest(value, i, v[k..])
        invariant output + EncodeAll(T.TagText(v[k..])) == out + EncodeAll(T.TagText(v))
        decreases |value| - i
      {
        EncodeAllEmpty(v[k..]);
        Around(value, i, v, k);
        BytesAgree(value, i, v[k]);
        T.TagTextStep(v, k);
        EncodeAllConcat(T.CharText(v[k]), T.TagText(v[k + 1..]));
        if T.Mark(value[i]) || IsAlpha(value, i) {
          EncodeAllOne(v[k]);
          i := Write(value, i, v[k]);
        } else {
          i := PutOctets(value, i, v[k]);
        }
        k := k + 1;
      }
      EncodeAllEmpty(v[k..]);
      assert v[k..] == [];
      T.NoTagText();
      EncodeAllEmpty([]);
      assert output + [] == output;
      whitespace := false;
      indention := false;
    }

    // ---- yaml_emitter_analyze_scalar ----

    /** Whether the value starts with a document indicator. */
    method StartsDocument(value: seq<Byte>, ghost v: seq<Rune>) returns (r: bool)
      requires value == EncodeAll(v)
      ensures r == DocStart(v)
    {
      hide EncodeAll;
      hide Encode;
      assert v[0..] == v && value[0..] == value;
      EncodeAllEmpty(v);
      if value == [] || (value[0] != 0x2D && value[0] != 0x2E) {
        if v != [] {
          Around(value, 0, v, 0);
        }
        return false;
      }
      Around(value, 0, v, 0);
      EncodeAsciiOne(v[0]);
      if |value| < 2 || value[1] != value[0] {
        if |v| > 1 {
          Around(value, 1, v, 1);
        }
        return false;
      }
      Around(value, 1, v, 1);
      EncodeAsciiOne(v[1]);
      if |value| < 3 || value[2] != value[0] {
        if |v| > 2 {
          Around(value, 2, v, 2);
        }
        return false;
      }
      Around(value, 2, v, 2);
      return true;
    }

    /** Whether the character at value[i] is an indicator in the flow or the block context. */
    method Indicators(value: seq<Byte>, i: nat, precededByWhitespace: bool, ghost v: seq<Rune>, ghost k: nat)
      returns (flow: bool, block: bool)
      requires value == EncodeAll(v) && k < |v| && Rest(value, i, v[k..]) && (i == 0 <==> k == 0)
      requires precededByWhitespace == BlankBefore(v, k)
      ensures flow == FlowIndicator(v, k) && block == BlockIndicator(v, k)
    {
      hide EncodeAll;
      hide Encode;
      Around(value, i, v, k);
      BytesAgree(value, i, v[k]);
      var j := i + Width(value[i]);
      var c := value[i];
      var followed := j >= |value|;
      if !followed {
        BytesAgree(value, j, v[k + 1]);
        followed := IsBlank(value, j);
      }
      if i == 0 {
        flow := Starter(c) || c == 0x3F || c == 0x3A || (c == 0x2D && followed);
        block := Starter(c) || ((c == 0x3F || c == 0x3A || c == 0x2D) && followed);
      } else {
        flow := c == 0x2C || c == 0x3F || c == 0x5B || c == 0x5D || c == 0x7B || c == 0x7D || c == 0x3A
                || (c == 0x23 && precededByWhitespace);
        block := (c == 0x3A && followed) || (c == 0x23 && precededByWhitespace);
      }
    }

    /** What the character at value[i] adds to the flags. */
    method AnalyzeChar(value: seq<Byte>, i: nat, f: Flags, precededByWhitespace: bool, ghost v: seq<Rune>, ghost k: nat)
      returns (j: nat, g: Flags, nowWhitespace: bool)
      requires value == EncodeAll(v) && k < |v| && Rest(value, i, v[k..]) && (i == 0 <==> k == 0)
      requires FlagsFor(f, unicode, v, k) && precededByWhitespace == BlankBefore(v, k)
      ensures j > i && Rest(value, j, v[k + 1..])
      ensures FlagsFor(g, unicode, v, k + 1) && nowWhitespace == BlankBefore(v, k + 1)
    {
      hide FlagsFor;
      hide FlowIndicator;
      hide BlockIndicator;
      hide EncodeAll;
      hide Encode;
      Around(value, i, v, k);
      BytesAgree(value, i, v[k]);
      j := i + Width(value[i]);
      var flow, block := Indicators(value, i, precededByWhitespace, v, k);
      var special := !IsPrintable(value, i) || (!IsAscii(value, i) && !unicode);
      var space, brk := IsSpace(value, i), IsBreak(value, i);
      g := Flags(
        f.block || block, f.flow || flow, f.lineBreaks || brk, f.special || special,
        f.leading || (i == 0 && (space || brk)),
        f.trailingSpace || (space && j == |value|), f.trailingBreak || (brk && j == |value|),
        f.breakSpace || (space && f.previousBreak), f.spaceBreak || (brk && f.previousSpace),
        space, brk);
      nowWhitespace := IsBlankZ(value, i);
      FlagsStep(f, g, unicode, v, k);
    }

    method AnalyzeScalar(value: seq<Byte>, ghost v: seq<Rune>) returns (d: ScalarData)
      requires value == EncodeAll(v)
      ensures d == Analysis(unicode, v)
    {
      hide EncodeAll;
      hide Encode;
      EncodeAllEmpty(v);
      if |value| == 0 {
        return ScalarData(false, false, true, true, false);
      }
      NoFlags(unicode, v);
      hide FlagsFor, DocStart, Analysis;
      var f := Flags(false, false, false, false, false, false, false, false, false, false, false);
      var docStart := StartsDocument(value, v);
      var precededByWhitespace := true;
      var i := 0;
      ghost var k := 0;
      assert v[0..] == v && value[0..] == value;
      while i < |value|
        invariant k <= |v| && Rest(value, i, v[k..]) && (i == 0 <==> k == 0)
        invariant FlagsFor(f, unicode, v, k) && precededByWhitespace == BlankBefore(v, k)
        decreases |value| - i
      {
        EncodeAllEmpty(v[k..]);
        i, f, precededByWhitespace := AnalyzeChar(value, i, f, precededByWhitespace, v, k);
        k := k + 1;
      }
      EncodeAllEmpty(v[k..]);
      var edge := f.leading || f.trailingSpace || f.trailingBreak;
      var clean := !f.breakSpace && !f.spaceBreak && !f.special;
      var plain := !edge && clean && !f.lineBreaks;
      d := ScalarData(
        f.lineBreaks, plain && !docStart && !f.flow, plain && !docStart && !f.block, clean,
        !f.trailingSpace && !f.spaceBreak && !f.special);
      FlagsEnd(f, unicode, v, d);
    }
  }

  lemma NoFlags(unicode: bool, v: seq<Rune>)
    requires v != []
    ensures FlagsFor(Flags(false, false, false, false, false, false, false, false, false, false, false), unicode, v, 0)
  {
  }

  /** The flags of yaml_emitter_analyze_scalar. */
  datatype Flags = Flags(
    block: bool, flow: bool, lineBreaks: bool, special: bool, leading: bool, trailingSpace: bool,
    trailingBreak: bool, breakSpace: bool, spaceBreak: bool, previousSpace: bool, previousBreak: bool)

  /** What the flags say about the first `k` characters. */
  ghost predicate FlagsFor(f: Flags, unicode: bool, v: seq<Rune>, k: nat)
    requires k <= |v|
  {
    && (f.block <==> exists j | 0 <= j < k :: BlockIndicator(v, j))
    && (f.flow <==> exists j | 0 <= j < k :: FlowIndicator(v, j))
    && f.lineBreaks == Multiline(v[..k])
    && f.special == Special(unicode, v[..k])
    && f.breakSpace == BreakSpace(v[..k])
    && f.spaceBreak == SpaceBreak(v[..k])
    && f.leading == (k > 0 && (v[0] == SPACE || Break(v[0])))
    && f.previousSpace == (k > 0 && v[k - 1] == SPACE)
    && f.previousBreak == (k > 0 && Break(v[k - 1]))
    && f.trailingSpace == (k == |v| && f.previousSpace)
    && f.trailingBreak == (k == |v| && f.previousBreak)
  }

  lemma FlagsStep(f: Flags, g: Flags, unicode: bool, v: seq<Rune>, k: nat)
    requires k < |v| && FlagsFor(f, unicode, v, k)
    requires var c := v[k];
             g == Flags(
               f.block || BlockIndicator(v, k), f.flow || FlowIndicator(v, k), f.lineBreaks || Break(c),
               f.special || SpecialChar(unicode, c), f.leading || (k == 0 && (c == SPACE || Break(c))),
               f.trailingSpace || (c == SPACE && k + 1 == |v|), f.trailingBreak || (Break(c) && k + 1 == |v|),
               f.breakSpace || (c == SPACE && f.previousBreak), f.spaceBreak || (Break(c) && f.previousSpace),
               c == SPACE, Break(c))
    ensures FlagsFor(g, unicode, v, k + 1)
  {
    hide Multiline, Special, BreakSpace, SpaceBreak, BlockIndicator, FlowIndicator, Break, SpecialChar;
    CharsStep(unicode, v, k);
    PairsStep(v, k);
  }

  lemma CharsStep(unicode: bool, v: seq<Rune>, k: nat)
    requires k < |v|
    ensures Multiline(v[..k + 1]) <==> Multiline(v[..k]) || Break(v[k])
    ensures Special(unicode, v[..k + 1]) <==> Special(unicode, v[..k]) || SpecialChar(unicode, v[k])
  {
    hide Break, SpecialChar;
    var u, w := v[..k], v[..k + 1];
    assert w == u + [v[k]];
  }

  lemma PairsStep(v: seq<Rune>, k: nat)
    requires k < |v|
    ensures BreakSpace(v[..k + 1]) <==> BreakSpace(v[..k]) || (k > 0 && Break(v[k - 1]) && v[k] == SPACE)
    ensures SpaceBreak(v[..k + 1]) <==> SpaceBreak(v[..k]) || (k > 0 && v[k - 1] == SPACE && Break(v[k]))
  {
    hide Break;
    var u, w := v[..k], v[..k + 1];
    assert forall j | 0 <= j < k :: w[j] == u[j];
    assert BreakSpace(w) <==> BreakSpace(u) || (k > 0 && Break(w[k - 1]) && w[k] == SPACE);
    assert SpaceBreak(w) <==> SpaceBreak(u) || (k > 0 && w[k - 1] == SPACE && Break(w[k]));
  }

  /** The flags of the whole value, put together as yaml_emitter_analyze_scalar does. */
  lemma FlagsEnd(f: Flags, unicode: bool, v: seq<Rune>, d: ScalarData)
    requires v != [] && FlagsFor(f, unicode, v, |v|)
    requires var edge := f.leading || f.trailingSpace || f.trailingBreak;
             var clean := !f.breakSpace && !f.spaceBreak && !f.special;
             var plain := !edge && clean && !f.lineBreaks;
             d == ScalarData(
               f.lineBreaks, plain && !DocStart(v) && !f.flow, plain && !DocStart(v) && !f.block, clean,
               !f.trailingSpace && !f.spaceBreak && !f.special)
    ensures d == Analysis(unicode, v)
  {
    hide Multiline, Special, BreakSpace, SpaceBreak, BlockIndicator, FlowIndicator, Break, DocStart;
    assert v[..|v|] == v;
  }

  lemma LiteralBytes(whitespace: bool, hints: seq<Rune>, br: seq<Rune>, body: seq<Rune>)
    ensures EncodeAll((if whitespace then [] else [SPACE]) + [0x7C] + (hints + br + body))
         == (if whitespace then [] else [0x20 as Byte]) + [0x7C as Byte]
            + EncodeAll(hints) + EncodeAll(br) + EncodeAll(body)
  {
    hide EncodeAll;
    var a: seq<Rune> := if whitespace then [] else [SPACE];
    var b: seq<Byte> := if whitespace then [] else [0x20];
    EncodeAscii(a + [0x7C], b + [0x7C]);
    EncodeAllConcat(a + [0x7C], hints + br + body);
    BodyBytes(b + [0x7C], hints, br, body);
  }

  lemma BodyBytes(front: seq<Byte>, hints: seq<Rune>, br: seq<Rune>, body: seq<Rune>)
    ensures front + EncodeAll(hints + br + body) == front + EncodeAll(hints) + EncodeAll(br) + EncodeAll(body)
  {
    hide EncodeAll;
    EncodeAllConcat(hints + br, body);
    EncodeAllConcat(hints, br);
  }

  /** Step back over continuation octets to the start of the character that ends at `end`. */
  method CharStart(value: seq<Byte>, end: nat, ghost v: seq<Rune>) returns (i: nat)
    requires 0 < end <= |value| && v != [] && value[..end] == EncodeAll(v)
    ensures i < end && Holds(value, i, v[|v| - 1]) && value[..i] == EncodeAll(v[..|v| - 1])
  {
    hide Encode;
    hide EncodeAll;
    ghost var c := v[|v| - 1];
    ghost var start := end - |Encode(c)|;
    LastChar(value, end, v);
    i := end - 1;
    while 0x80 <= value[i] < 0xC0
      invariant start <= i < end
      decreases i
    {
      Continuation(value, start, c, i);
      i := i - 1;
    }
    Continuation(value, start, c, i);
  }

  lemma LastChar(value: seq<Byte>, end: nat, v: seq<Rune>)
    requires 0 < end <= |value| && v != [] && value[..end] == EncodeAll(v)
    ensures var start := end - |Encode(v[|v| - 1])|;
            Holds(value, start, v[|v| - 1]) && value[..start] == EncodeAll(v[..|v| - 1])
  {
    hide EncodeAll;
    hide Encode;
    var u, e := v[..|v| - 1], Encode(v[|v| - 1]);
    assert v == u + [v[|v| - 1]];
    EncodeAllConcat(u, [v[|v| - 1]]);
    EncodeAllOne(v[|v| - 1]);
    var start := end - |e|;
    assert value[..end][..start] == value[..start] && value[..end][start..] == value[start..end];
  }

  lemma Continuation(value: seq<Byte>, start: nat, c: Rune, i: nat)
    requires Holds(value, start, c) && start <= i < start + |Encode(c)|
    ensures 0x80 <= value[i] < 0xC0 <==> i != start
  {
    assert value[start..start + |Encode(c)|][i - start] == value[i];
  }

  lemma EncodeAllEmpty(v: seq<Rune>)
    ensures EncodeAll(v) == [] <==> v == []
  {
  }

  /** What can be seen of the bytes at the k-th character of `v` and at the next one. */
  lemma Around(value: seq<Byte>, i: nat, v: seq<Rune>, k: nat)
    requires value == EncodeAll(v) && k < |v| && Rest(value, i, v[k..])
    ensures Holds(value, i, v[k]) && Rest(value, i + |Encode(v[k])|, v[k + 1..])
    ensures Holds(value, 0, v[0])
    ensures i + |Encode(v[k])| < |value| <==> k + 1 < |v|
    ensures k + 1 < |v| ==> Holds(value, i + |Encode(v[k])|, v[k + 1])
    ensures CharAt(value, i) && CharAt(value, 0)
    ensures IsPrintable(value, i) <==> Printable(v[k])
    ensures IsBreak(value, i) <==> Break(v[k])
    ensures IsBom(value, i) <==> v[0] == BOM
    ensures value[i] < 0x80 ==> v[k] == value[i]
    ensures v[k] < 0x80 ==> v[k] == value[i]
    ensures v[k] < 0x80 && k + 1 < |v| ==> CharAt(value, i + 1) && (IsSpace(value, i + 1) <==> v[k + 1] == SPACE)
  {
    hide Encode;
    hide EncodeAll;
    RestHolds(value, i, v[k..]);
    assert v[k..][1..] == v[k + 1..];
    assert Rest(value, 0, v) by {
      assert value[0..] == value;
    }
    RestHolds(value, 0, v);
    BytesAgree(value, i, v[k]);
    BytesAgree(value, 0, v[0]);
    EncodeAllEmpty(v[k + 1..]);
    if k + 1 < |v| {
      var j := i + |Encode(v[k])|;
      RestHolds(value, j, v[k + 1..]);
      BytesAgree(value, j, v[k + 1]);
      EncodeAsciiOne(v[k]);
    }
  }

  lemma EncodeAsciiOne(c: Rune)
    ensures c < 0x80 ==> Encode(c) == [c]
  {
  }

  lemma QuotedBytes(whitespace: bool, q: Rune, body: seq<Rune>)
    requires q < 0x80
    ensures EncodeAll((if whitespace then [] else [SPACE]) + [q] + body + [q])
         == (if whitespace then [] else [0x20 as Byte]) + [q as Byte] + EncodeAll(body) + [q as Byte]
  {
    var a := (if whitespace then [] else [SPACE]) + [q];
    EncodeAllConcat(a, body);
    EncodeAllConcat(a + body, [q]);
    EncodeAscii(a, (if whitespace then [] else [0x20]) + [q]);
    EncodeAscii([q], [q]);
  }

  lemma Decodes(c: Rune)
    ensures 0x80 <= c < 0x800 ==> (0xC0 + c / 64) % 32 * 64 + (0x80 + c % 64) % 64 == c
    ensures 0x800 <= c < 0x10000 ==>
              (0xE0 + c / 4096) % 16 * 4096 + (0x80 + c / 64 % 64) % 64 * 64 + (0x80 + c % 64) % 64 == c
    ensures 0x10000 <= c ==>
              (0xF0 + c / 262144) % 8 * 262144 + (0x80 + c / 4096 % 64) % 64 * 4096
              + (0x80 + c / 64 % 64) % 64 * 64 + (0x80 + c % 64) % 64 == c
  {
    var q1 := c / 64;
    var q2 := q1 / 64;
    var q3 := q2 / 64;
    assert c / 4096 == q2 && c / 262144 == q3;
    LeadBits(q1, q2, q3);
    SixBits(c % 64);
    SixBits(q1 % 64);
    SixBits(q2 % 64);
  }

  lemma SixBits(x: nat)
    ensures x < 64 ==> (0x80 + x) % 64 == x
  {
  }

  lemma LeadBits(x: nat, y: nat, z: nat)
    ensures x < 32 ==> (0xC0 + x) % 32 == x
    ensures y < 16 ==> (0xE0 + y) % 16 == y
    ensures z < 8 ==> (0xF0 + z) % 8 == z
  {
  }

  /** The code point at value[i], as the writer computes it from the octets. */
  function Decode(value: seq<Byte>, i: nat, ghost c: Rune): (v: Rune)
    requires Holds(value, i, c)
    ensures v == c
  {
    HoldsBytes(value, i, c);
    Decodes(c);
    var b: int := value[i];
    if b < 0x80 then b
    else
      var x: int := value[i + 1];
      if b < 0xE0 then b % 32 * 64 + x % 64
      else
        var y: int := value[i + 2];
        if b < 0xF0 then b % 16 * 4096 + x % 64 * 64 + y % 64
        else
          var z: int := value[i + 3];
          b % 8 * 262144 + x % 64 * 4096 + y % 64 * 64 + z % 64
  }

  predicate AsciiBytes(t: seq<Rune>, b: seq<Byte>) {
    |t| == |b| && forall j | 0 <= j < |t| :: t[j] < 0x80 && b[j] == t[j]
  }

  lemma HexTextMore(v: nat, k: nat, n: nat, digits: seq<Byte>)
    requires n >= 1 && AsciiBytes(HexText(Shift(v, k + 1), n - 1), digits)
    ensures AsciiBytes(HexText(Shift(v, k), n), digits + [HexDigit(Shift(v, k) % 16) as Byte])
  {
  }

  lemma NoShift(v: nat)
    ensures Shift(v, 0) == v
  {
  }

  lemma NoDigits(v: nat, w: nat)
    ensures HexText(Shift(v, w), 0) == []
  {
  }

  lemma NoSpaces()
    ensures EncodeAll(Spaces(0)) == []
  {
  }

  /** The octets of an escape sequence. */
  lemma EscapeBytes(c: Rune)
    ensures ShortEscape(c) <= 0xFF
    ensures var t, short := EscapeText(c), ShortEscape(c);
            if short != 0 then EncodeAll(t) == [0x5C, short] && |t| == 2
            else if c <= 0xFF then EncodeAll(t) == [0x5C, 0x78] + EncodeAll(HexText(c, 2)) && |t| == 4
            else if c <= 0xFFFF then EncodeAll(t) == [0x5C, 0x75] + EncodeAll(HexText(c, 4)) && |t| == 6
            else EncodeAll(t) == [0x5C, 0x55] + EncodeAll(HexText(c, 8)) && |t| == 10
  {
    hide HexText;
    hide EncodeAll;
    if ShortEscape(c) != 0 {
      EncodeAscii(EscapeText(c), [0x5C, ShortEscape(c)]);
    } else if c <= 0xFF {
      LongEscape(0x78, c, 2);
    } else if c <= 0xFFFF {
      LongEscape(0x75, c, 4);
    } else {
      LongEscape(0x55, c, 8);
    }
  }

  lemma LongEscape(letter: Rune, v: nat, w: nat)
    requires letter < 0x80
    ensures EncodeAll([BACKSLASH, letter] + HexText(v, w)) == [0x5C, letter as Byte] + EncodeAll(HexText(v, w))
  {
    EncodeAllConcat([BACKSLASH, letter], HexText(v, w));
    EncodeAscii([BACKSLASH, letter], [0x5C, letter]);
  }
}
