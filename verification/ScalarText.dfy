/** The text the emitter writes for quoted scalars, as functions of the value and of the
    emitter's position on the line. */
module ScalarText {
  import opened Utf8
  import opened CharClass

  /** The emitter settings that matter inside a scalar. */
  datatype Style = Style(indent: int, width: int, unicode: bool, allowBreaks: bool, br: seq<Rune>)

  /** The emitter's three line-break settings. */
  predicate LineBreak(br: seq<Rune>) {
    br == [CR] || br == [LF] || br == [CR, LF]
  }

  /** emitter.column, emitter.whitespace and emitter.indention. */
  datatype Pen = Pen(col: nat, whitespace: bool, indention: bool)

  function Spaces(n: nat): seq<Rune> {
    seq(n, _ => SPACE)
  }

  function Max(a: int, b: int): int {
    if a < b then b else a
  }

  predicate IndentBreaks(indent: int, p: Pen) {
    var n := Max(indent, 0);
    !p.indention || p.col > n || (p.col == n && !p.whitespace)
  }

  /** yaml_emitter_write_indent. */
  function IndentText(s: Style, p: Pen): seq<Rune> {
    var n := Max(s.indent, 0);
    if IndentBreaks(s.indent, p) then s.br + Spaces(n) else Spaces(n - p.col)
  }

  function AfterIndent(s: Style): Pen {
    Pen(Max(s.indent, 0), true, true)
  }

  // ---- Double-quoted style ----

  function HexDigit(d: int): Rune
    requires 0 <= d < 16
  {
    if d < 10 then 0x30 + d else 0x41 - 10 + d
  }

  /** v >> 4 * n. */
  function Shift(v: nat, n: nat): nat {
    if n == 0 then v else Shift(v, n - 1) / 16
  }

  /** The `n` lowest hexadecimal digits of `v`, most significant first. */
  function HexText(v: nat, n: nat): (t: seq<Rune>)
    ensures |t| == n
  {
    if n == 0 then [] else HexText(v / 16, n - 1) + [HexDigit(v % 16)]
  }

  /** The letter of a short escape, or 0. */
  function ShortEscape(c: Rune): Rune {
    match c
    case 0x00 => 0x30
    case 0x07 => 0x61
    case 0x08 => 0x62
    case 0x09 => 0x74
    case 0x0A => 0x6E
    case 0x0B => 0x76
    case 0x0C => 0x66
    case 0x0D => 0x72
    case 0x1B => 0x65
    case 0x22 => 0x22
    case 0x5C => 0x5C
    case 0x85 => 0x4E
    case 0xA0 => 0x5F
    case 0x2028 => 0x4C
    case 0x2029 => 0x50
    case _ => 0
  }

  function EscapeText(c: Rune): seq<Rune> {
    if ShortEscape(c) != 0 then [BACKSLASH, ShortEscape(c)]
    else if c <= 0xFF then [BACKSLASH, 0x78] + HexText(c, 2)
    else if c <= 0xFFFF then [BACKSLASH, 0x75] + HexText(c, 4)
    else [BACKSLASH, 0x55] + HexText(c, 8)
  }

  /** A value that starts with a byte order mark has every character escaped. */
  predicate NeedsEscape(s: Style, v: seq<Rune>, i: nat)
    requires i < |v|
  {
    || !Printable(v[i]) || (!s.unicode && v[i] > 0x7F)
    || v[0] == BOM || Break(v[i]) || v[i] == DQUOTE || v[i] == BACKSLASH
  }

  predicate Folds(s: Style, v: seq<Rune>, i: nat, p: Pen, spaces: bool) {
    s.allowBreaks && !spaces && p.col > s.width && 0 < i < |v| - 1
  }

  /** What one character adds to the text, and the emitter's variables after it. */
  datatype Piece = Piece(text: seq<Rune>, pen: Pen, spaces: bool, breaks: bool)

  function DoubleQuotedPiece(s: Style, v: seq<Rune>, i: nat, p: Pen, spaces: bool): Piece
    requires i < |v|
  {
    if NeedsEscape(s, v, i) then
      var e := EscapeText(v[i]);
      Piece(e, p.(col := p.col + |e|), false, false)
    else if v[i] == SPACE && Folds(s, v, i, p, spaces) then
      var q := AfterIndent(s);
      if v[i + 1] == SPACE then Piece(IndentText(s, p) + [BACKSLASH], q.(col := q.col + 1), true, false)
      else Piece(IndentText(s, p), q, true, false)
    else Piece([v[i]], p.(col := p.col + 1), v[i] == SPACE, false)
  }

  /** yaml_emitter_write_double_quoted_scalar: the text of v[i..] between the quotes. */
  function DoubleQuoted(s: Style, v: seq<Rune>, i: nat, p: Pen, spaces: bool): seq<Rune>
    requires i <= |v|
    decreases |v| - i
  {
    if i == |v| then []
    else
      var a := DoubleQuotedPiece(s, v, i, p, spaces);
      a.text + DoubleQuoted(s, v, i + 1, a.pen, a.spaces)
  }

  /** The whole scalar as yaml_emitter_write_double_quoted_scalar writes it at `p`: after the
      space that write_indicator may put first, a quote, the text and a quote. */
  function DoubleQuotedWritten(s: Style, v: seq<Rune>, p: Pen): seq<Rune> {
    var q := Pen(p.col + (if p.whitespace then 0 else 1) + 1, false, false);
    (if p.whitespace then [] else [SPACE]) + [DQUOTE] + DoubleQuoted(s, v, 0, q, false) + [DQUOTE]
  }

  // ---- Single-quoted style ----

  function SingleQuotedPiece(s: Style, v: seq<Rune>, i: nat, p: Pen, spaces: bool, breaks: bool): Piece
    requires i < |v|
  {
    if v[i] == SPACE then
      if Folds(s, v, i, p, spaces) && v[i + 1] != SPACE then Piece(IndentText(s, p), AfterIndent(s), true, breaks)
      else Piece([SPACE], p.(col := p.col + 1), true, breaks)
    else if Break(v[i]) then
      Piece(BreakDoubled(s, v[i], breaks), Pen(0, p.whitespace, true), spaces, true)
    else
      var q := if breaks then AfterIndent(s) else p;
      var c := if v[i] == SQUOTE then [SQUOTE, SQUOTE] else [v[i]];
      Piece((if breaks then IndentText(s, p) else []) + c, Pen(q.col + |c|, q.whitespace, false), false, false)
  }

  /** yaml_emitter_write_single_quoted_scalar: the text of v[i..] between the quotes. The first
      LF of a run of breaks is doubled, because reading folds it away. */
  function SingleQuoted(s: Style, v: seq<Rune>, i: nat, p: Pen, spaces: bool, breaks: bool): seq<Rune>
    requires i <= |v|
    decreases |v| - i
  {
    if i == |v| then []
    else
      var a := SingleQuotedPiece(s, v, i, p, spaces, breaks);
      a.text + SingleQuoted(s, v, i + 1, a.pen, a.spaces, a.breaks)
  }

  /** The whole scalar as yaml_emitter_write_single_quoted_scalar writes it at `p`. */
  function SingleQuotedWritten(s: Style, v: seq<Rune>, p: Pen): seq<Rune> {
    var q := Pen(p.col + (if p.whitespace then 0 else 1) + 1, false, false);
    (if p.whitespace then [] else [SPACE]) + [SQUOTE] + SingleQuoted(s, v, 0, q, false, false) + [SQUOTE]
  }

  function BreakDoubled(s: Style, c: Rune, breaks: bool): seq<Rune> {
    (if !breaks && c == LF then s.br else []) + WrittenBreak(s, c)
  }

  /** write_break: LF becomes the emitter's line break, other breaks are copied. */
  function WrittenBreak(s: Style, c: Rune): seq<Rune> {
    if c == LF then s.br else [c]
  }

  // ---- Plain style ----

  /** Beyond the width a space is folded if it is a single one; unlike in quotes also the last one. */
  predicate FoldsPlain(s: Style, v: seq<Rune>, i: nat, p: Pen, spaces: bool)
    requires i < |v|
  {
    s.allowBreaks && !spaces && p.col > s.width && (i + 1 < |v| ==> v[i + 1] != SPACE)
  }

  function PlainPiece(s: Style, v: seq<Rune>, i: nat, p: Pen, spaces: bool, breaks: bool): Piece
    requires i < |v|
  {
    if v[i] == SPACE then
      if FoldsPlain(s, v, i, p, spaces) then Piece(IndentText(s, p), AfterIndent(s), true, breaks)
      else Piece([SPACE], p.(col := p.col + 1), true, breaks)
    else if Break(v[i]) then
      Piece(BreakDoubled(s, v[i], breaks), Pen(0, p.whitespace, true), spaces, true)
    else
      var q := if breaks then AfterIndent(s) else p;
      Piece((if breaks then IndentText(s, p) else []) + [v[i]], Pen(q.col + 1, q.whitespace, false), false, false)
  }

  /** yaml_emitter_write_plain_scalar: the text of v[i..]. */
  function Plain(s: Style, v: seq<Rune>, i: nat, p: Pen, spaces: bool, breaks: bool): seq<Rune>
    requires i <= |v|
    decreases |v| - i
  {
    if i == |v| then []
    else
      var a := PlainPiece(s, v, i, p, spaces, breaks);
      a.text + Plain(s, v, i + 1, a.pen, a.spaces, a.breaks)
  }

  /** Where the text of a plain scalar starts: behind a space, if there is none. */
  function PlainStart(p: Pen): Pen {
    p.(col := p.col + if p.whitespace then 0 else 1)
  }

  /** The whole scalar as yaml_emitter_write_plain_scalar writes it at `p`. */
  function PlainWritten(s: Style, v: seq<Rune>, p: Pen): seq<Rune> {
    (if p.whitespace then [] else [SPACE]) + Plain(s, v, 0, PlainStart(p), false, false)
  }

  // ---- Literal style ----

  /** The chomping indicator that keeps the final breaks of `v` as they are. */
  function ChompHint(v: seq<Rune>): seq<Rune>
    requires v != []
  {
    if !Break(v[|v| - 1]) then [0x2D]
    else if |v| == 1 || Break(v[|v| - 2]) then [0x2B]
    else []
  }

  /** yaml_emitter_write_block_scalar_hints. */
  function BlockHints(bestIndent: nat, v: seq<Rune>): seq<Rune>
    requires v != [] && bestIndent <= 9
  {
    (if v[0] == SPACE || Break(v[0]) then [0x30 + bestIndent] else []) + ChompHint(v)
  }

  function LiteralPiece(s: Style, v: seq<Rune>, i: nat, p: Pen, breaks: bool): Piece
    requires i < |v|
  {
    if Break(v[i]) then Piece(WrittenBreak(s, v[i]), Pen(0, p.whitespace, true), false, true)
    else
      var q := if breaks then AfterIndent(s) else p;
      Piece((if breaks then IndentText(s, p) else []) + [v[i]], Pen(q.col + 1, q.whitespace, false), false, false)
  }

  /** yaml_emitter_write_literal_scalar: the text of v[i..] on the lines after the header. */
  function Literal(s: Style, v: seq<Rune>, i: nat, p: Pen, breaks: bool): seq<Rune>
    requires i <= |v|
    decreases |v| - i
  {
    if i == |v| then []
    else
      var a := LiteralPiece(s, v, i, p, breaks);
      a.text + Literal(s, v, i + 1, a.pen, a.breaks)
  }

  /** '|', the hints, a line break and the content, as yaml_emitter_write_literal_scalar
      writes them after its '|'. */
  function LiteralWritten(s: Style, bestIndent: nat, v: seq<Rune>): seq<Rune>
    requires v != [] && bestIndent <= 9
  {
    BlockHints(bestIndent, v) + s.br + Literal(s, v, 0, Pen(0, true, true), true)
  }

  // ---- What yaml_emitter_analyze_scalar finds ----

  predicate Multiline(v: seq<Rune>) {
    exists i | 0 <= i < |v| :: Break(v[i])
  }

  predicate Special(unicode: bool, v: seq<Rune>) {
    exists i | 0 <= i < |v| :: SpecialChar(unicode, v[i])
  }

  predicate SpecialChar(unicode: bool, c: Rune) {
    !Printable(c) || (!unicode && c > 0x7F)
  }

  predicate BreakSpace(v: seq<Rune>) {
    exists i | 0 < i < |v| :: Break(v[i - 1]) && v[i] == SPACE
  }

  predicate SpaceBreak(v: seq<Rune>) {
    exists i | 0 < i < |v| :: v[i - 1] == SPACE && Break(v[i])
  }

  predicate TrailingSpace(v: seq<Rune>) {
    v != [] && v[|v| - 1] == SPACE
  }

  predicate EdgeBlank(v: seq<Rune>) {
    v != [] && (v[0] == SPACE || Break(v[0]) || v[|v| - 1] == SPACE || Break(v[|v| - 1]))
  }

  predicate SingleQuotedAllowed(unicode: bool, v: seq<Rune>) {
    !BreakSpace(v) && !SpaceBreak(v) && !Special(unicode, v)
  }

  predicate BlockAllowed(unicode: bool, v: seq<Rune>) {
    v != [] && !TrailingSpace(v) && !SpaceBreak(v) && !Special(unicode, v)
  }

  /** '---' or '...' at the start of the value. */
  predicate DocStart(v: seq<Rune>) {
    |v| >= 3 && ((v[0] == 0x2D && v[1] == 0x2D && v[2] == 0x2D) || (v[0] == 0x2E && v[1] == 0x2E && v[2] == 0x2E))
  }

  predicate BlankNext(v: seq<Rune>, i: nat) {
    i + 1 < |v| ==> Blank(v[i + 1])
  }

  predicate BlankBefore(v: seq<Rune>, i: nat)
    requires i <= |v|
  {
    i > 0 ==> BlankZ(v[i - 1])
  }

  /** The characters that cannot start a plain scalar. */
  predicate Starter(c: int) {
    || c == 0x23 || c == 0x2C || c == 0x5B || c == 0x5D || c == 0x7B || c == 0x7D || c == 0x26 || c == 0x2A
    || c == 0x21 || c == 0x7C || c == 0x3E || c == 0x27 || c == 0x22 || c == 0x25 || c == 0x40 || c == 0x60
  }

  /** v[i] is an indicator in the flow context. */
  predicate FlowIndicator(v: seq<Rune>, i: nat)
    requires i < |v|
  {
    var c := v[i];
    if i == 0 then Starter(c) || c == 0x3F || c == 0x3A || (c == 0x2D && BlankNext(v, i))
    else c == 0x2C || c == 0x3F || c == 0x5B || c == 0x5D || c == 0x7B || c == 0x7D || c == 0x3A
         || (c == 0x23 && BlankBefore(v, i))
  }

  /** v[i] is an indicator in the block context. */
  predicate BlockIndicator(v: seq<Rune>, i: nat)
    requires i < |v|
  {
    var c := v[i];
    if i == 0 then Starter(c) || ((c == 0x3F || c == 0x3A || c == 0x2D) && BlankNext(v, i))
    else (c == 0x3A && BlankNext(v, i)) || (c == 0x23 && BlankBefore(v, i))
  }

  predicate PlainAllowed(unicode: bool, v: seq<Rune>) {
    !EdgeBlank(v) && !BreakSpace(v) && !SpaceBreak(v) && !Special(unicode, v) && !Multiline(v)
  }

  predicate FlowPlainAllowed(unicode: bool, v: seq<Rune>) {
    v != [] && PlainAllowed(unicode, v) && !DocStart(v) && forall i | 0 <= i < |v| :: !FlowIndicator(v, i)
  }

  predicate BlockPlainAllowed(unicode: bool, v: seq<Rune>) {
    PlainAllowed(unicode, v) && !DocStart(v) && forall i | 0 <= i < |v| :: !BlockIndicator(v, i)
  }

  /** emitter.scalar_data, without the value and the style. */
  datatype ScalarData = ScalarData(
    multiline: bool, flowPlainAllowed: bool, blockPlainAllowed: bool, singleQuotedAllowed: bool, blockAllowed: bool)

  ghost function Analysis(unicode: bool, v: seq<Rune>): ScalarData {
    ScalarData(Multiline(v), FlowPlainAllowed(unicode, v), BlockPlainAllowed(unicode, v),
               SingleQuotedAllowed(unicode, v), BlockAllowed(unicode, v))
  }
}
