/** Character classes. The predicates on a byte position are those of yamlprivateh.go;
    those on a scalar value say which code points they accept. */
module CharClass {
  import opened Utf8

  // ---- On scalar values ----

  const TAB: Rune := 0x09
  const LF: Rune := 0x0A
  const CR: Rune := 0x0D
  const SPACE: Rune := 0x20
  const DQUOTE: Rune := 0x22
  const SQUOTE: Rune := 0x27
  const BACKSLASH: Rune := 0x5C
  const NEL: Rune := 0x85
  const LS: Rune := 0x2028
  const PS: Rune := 0x2029
  const BOM: Rune := 0xFEFF

  predicate Printable(c: Rune) {
    c == LF || 0x20 <= c <= 0x7E || 0xA0 <= c <= 0xD7FF || (0xE000 <= c <= 0xFFFD && c != BOM)
  }

  predicate Break(c: Rune) {
    c == CR || c == LF || c == NEL || c == LS || c == PS
  }

  predicate Blank(c: Rune) {
    c == SPACE || c == TAB
  }

  predicate BlankZ(c: Rune) {
    Blank(c) || Break(c) || c == 0
  }

  predicate Alpha(c: Rune) {
    0x30 <= c <= 0x39 || 0x41 <= c <= 0x5A || 0x61 <= c <= 0x7A || c == 0x5F || c == 0x2D
  }

  predicate Digit(c: Rune) {
    0x30 <= c <= 0x39
  }

  predicate Hex(c: Rune) {
    Digit(c) || 0x41 <= c <= 0x46 || 0x61 <= c <= 0x66
  }

  function HexValue(c: Rune): int
    requires Hex(c)
  {
    if 0x41 <= c <= 0x46 then c - 0x41 + 10
    else if 0x61 <= c <= 0x66 then c - 0x61 + 10
    else c - 0x30
  }

  // ---- On bytes: yamlprivateh.go ----

  /** The whole character that starts at `i` is in the buffer, so that the predicates below
      stay in bounds. */
  predicate CharAt(b: seq<Byte>, i: nat) {
    i < |b| && i + Width(b[i]) <= |b|
  }

  predicate IsAlpha(b: seq<Byte>, i: nat)
    requires CharAt(b, i)
  {
    0x30 <= b[i] <= 0x39 || 0x41 <= b[i] <= 0x5A || 0x61 <= b[i] <= 0x7A || b[i] == 0x5F || b[i] == 0x2D
  }

  predicate IsDigit(b: seq<Byte>, i: nat)
    requires CharAt(b, i)
  {
    0x30 <= b[i] <= 0x39
  }

  predicate IsHex(b: seq<Byte>, i: nat)
    requires CharAt(b, i)
  {
    0x30 <= b[i] <= 0x39 || 0x41 <= b[i] <= 0x46 || 0x61 <= b[i] <= 0x66
  }

  function AsHex(b: seq<Byte>, i: nat): int
    requires CharAt(b, i) && IsHex(b, i)
  {
    if 0x41 <= b[i] <= 0x46 then b[i] - 0x41 + 10
    else if 0x61 <= b[i] <= 0x66 then b[i] - 0x61 + 10
    else b[i] - 0x30
  }

  predicate IsAscii(b: seq<Byte>, i: nat)
    requires CharAt(b, i)
  {
    b[i] <= 0x7F
  }

  predicate IsPrintable(b: seq<Byte>, i: nat)
    requires CharAt(b, i)
  {
    || b[i] == 0x0A
    || 0x20 <= b[i] <= 0x7E
    || (b[i] == 0xC2 && b[i + 1] >= 0xA0)
    || 0xC2 < b[i] < 0xED
    || (b[i] == 0xED && b[i + 1] < 0xA0)
    || b[i] == 0xEE
    || (b[i] == 0xEF
        && !(b[i + 1] == 0xBB && b[i + 2] == 0xBF)
        && !(b[i + 1] == 0xBF && (b[i + 2] == 0xBE || b[i + 2] == 0xBF)))
  }

  predicate IsZ(b: seq<Byte>, i: nat)
    requires CharAt(b, i)
  {
    b[i] == 0
  }

  /** As in the source, the index is ignored: this looks at the start of the buffer. */
  predicate IsBom(b: seq<Byte>, i: nat)
    requires CharAt(b, 0)
  {
    b[0] == 0xEF && b[1] == 0xBB && b[2] == 0xBF
  }

  predicate IsSpace(b: seq<Byte>, i: nat)
    requires CharAt(b, i)
  {
    b[i] == 0x20
  }

  predicate IsTab(b: seq<Byte>, i: nat)
    requires CharAt(b, i)
  {
    b[i] == 0x09
  }

  predicate IsBlank(b: seq<Byte>, i: nat)
    requires CharAt(b, i)
  {
    b[i] == 0x20 || b[i] == 0x09
  }

  predicate IsBreak(b: seq<Byte>, i: nat)
    requires CharAt(b, i)
  {
    || b[i] == 0x0D
    || b[i] == 0x0A
    || (b[i] == 0xC2 && b[i + 1] == 0x85)
    || (b[i] == 0xE2 && b[i + 1] == 0x80 && b[i + 2] == 0xA8)
    || (b[i] == 0xE2 && b[i + 1] == 0x80 && b[i + 2] == 0xA9)
  }

  predicate IsBreakZ(b: seq<Byte>, i: nat)
    requires CharAt(b, i)
  {
    IsBreak(b, i) || b[i] == 0
  }

  predicate IsBlankZ(b: seq<Byte>, i: nat)
    requires CharAt(b, i)
  {
    IsBlank(b, i) || IsBreakZ(b, i)
  }

  /** On the bytes of a character, every byte predicate accepts exactly the code points its
      name promises; the bytes examined are always there. */
  lemma BytesAgree(b: seq<Byte>, i: nat, c: Rune)
    requires Holds(b, i, c)
    ensures CharAt(b, i) && Width(b[i]) == |Encode(c)|
    ensures IsPrintable(b, i) <==> Printable(c)
    ensures IsBreak(b, i) <==> Break(c)
    ensures IsBreakZ(b, i) <==> Break(c) || c == 0
    ensures IsBlankZ(b, i) <==> BlankZ(c)
    ensures IsBlank(b, i) <==> Blank(c)
    ensures IsSpace(b, i) <==> c == SPACE
    ensures IsTab(b, i) <==> c == TAB
    ensures IsZ(b, i) <==> c == 0
    ensures IsAscii(b, i) <==> c <= 0x7F
    ensures IsAlpha(b, i) <==> Alpha(c)
    ensures IsDigit(b, i) <==> Digit(c)
    ensures IsHex(b, i) <==> Hex(c)
    ensures IsHex(b, i) ==> AsHex(b, i) == HexValue(c)
    ensures i == 0 ==> (IsBom(b, i) <==> c == BOM)
    ensures b[i] < 0x80 ==> c == b[i]
    ensures c < 0x80 ==> b[i] == c
  {
    HoldsBytes(b, i, c);
  }
}
