/** What yaml_parser_scan_flow_scalar reads, as a function of the characters that remain
    after the opening quote. NUL stands for the end of input, which the reader appends. */
module FlowScalar {
  import opened Utf8
  import opened CharClass

  /** The value read and the characters after the closing quote, or a scanner error. */
  datatype Result = Fail | Done(value: seq<Rune>, rest: seq<Rune>)

  function Push(p: seq<Rune>, r: Result): Result {
    match r
    case Fail => Fail
    case Done(v, rest) => Done(p + v, rest)
  }

  lemma PushPush(a: seq<Rune>, b: seq<Rune>, r: Result)
    ensures Push(a, Push(b, r)) == Push(a + b, r)
  {
    if r.Done? {
      assert a + (b + r.value) == a + b + r.value;
    }
  }

  lemma PushNothing(r: Result)
    ensures Push([], r) == r
  {
    if r.Done? {
      assert [] + r.value == r.value;
    }
  }

  lemma FailsFrom(p: seq<Rune>, r: Result)
    ensures Push(p, r) == Fail <==> r == Fail
  {
  }

  function At(t: seq<Rune>, i: nat): Rune {
    if i < |t| then t[i] else 0
  }

  predicate AtBreak(t: seq<Rune>) {
    t != [] && Break(t[0])
  }

  /** CR LF is one line break. */
  function BreakLen(t: seq<Rune>): (n: nat)
    requires AtBreak(t)
    ensures 1 <= n <= |t|
  {
    if t[0] == CR && At(t, 1) == LF then 2 else 1
  }

  /** Every line break reads as LF, except LS and PS, which are kept. */
  function BreakText(t: seq<Rune>): seq<Rune>
    requires AtBreak(t)
  {
    if t[0] == LS || t[0] == PS then [t[0]] else [LF]
  }

  /** '---' or '...' followed by a blank, a line break or the end of input. */
  predicate DocIndicator(t: seq<Rune>) {
    ((At(t, 0) == 0x2D && At(t, 1) == 0x2D && At(t, 2) == 0x2D)
     || (At(t, 0) == 0x2E && At(t, 1) == 0x2E && At(t, 2) == 0x2E))
    && BlankZ(At(t, 3))
  }

  /** What a backslash and the characters after it stand for, and how many there are. */
  datatype Escape = BadEscape | Escaped(c: Rune, len: nat)

  function SimpleEscape(c: Rune): (r: int)
    ensures r == -1 || 0 <= r < 0xD800
  {
    match c
    case 0x30 => 0
    case 0x61 => 0x07
    case 0x62 => 0x08
    case 0x74 => 0x09
    case 0x09 => 0x09
    case 0x6E => 0x0A
    case 0x76 => 0x0B
    case 0x66 => 0x0C
    case 0x72 => 0x0D
    case 0x65 => 0x1B
    case 0x20 => 0x20
    case 0x22 => 0x22
    case 0x27 => 0x27
    case 0x5C => 0x5C
    case 0x4E => 0x85
    case 0x5F => 0xA0
    case 0x4C => 0x2028
    case 0x50 => 0x2029
    case _ => -1
  }

  /** Number of hexadecimal digits after '\x', '\u' and '\U'. */
  function CodeLength(c: Rune): nat {
    match c
    case 0x78 => 2
    case 0x75 => 4
    case 0x55 => 8
    case _ => 0
  }

  /** The number written by the first `n` characters in hexadecimal; -1 when one of them is
      not a digit. */
  function HexNumber(t: seq<Rune>, n: nat): (r: int)
    ensures r >= -1
    ensures r >= 0 ==> n <= |t|
  {
    if n == 0 then 0
    else
      var r := HexNumber(t, n - 1);
      if r < 0 || !Hex(At(t, n - 1)) then -1 else r * 16 + HexValue(At(t, n - 1))
  }

  function ReadEscape(t: seq<Rune>): (e: Escape)
    requires At(t, 0) == BACKSLASH
    ensures e.Escaped? ==> 2 <= e.len <= |t|
  {
    var simple := SimpleEscape(At(t, 1));
    if simple >= 0 then
      if |t| < 2 then BadEscape else Escaped(simple, 2)
    else
      var n := CodeLength(At(t, 1));
      if n == 0 then BadEscape
      else
        var v := HexNumber(t[2..], n);
        if v < 0 || 0xD800 <= v <= 0xDFFF || v > 0x10FFFF then BadEscape
        else Escaped(v, 2 + n)
  }

  /** Where the scanner is: at the top of its outer loop, among non-blank characters, after
      some blanks, or after a first line break. */
  datatype Mode =
    | LineStart
    | Content
    | Blanks(ws: seq<Rune>)
    | Breaks(lead: seq<Rune>, trail: seq<Rune>)

  function Rank(m: Mode): nat {
    match m case Content => 0 case LineStart => 1 case _ => 2
  }

  /** Line folding: one break is a space, further breaks are kept instead of the first. */
  function Join(lead: seq<Rune>, trail: seq<Rune>): seq<Rune> {
    if lead != [] && lead[0] == LF then
      if trail == [] then [SPACE] else trail
    else lead + trail
  }

  function Quote(single: bool): Rune {
    if single then SQUOTE else DQUOTE
  }

  function Scan(single: bool, t: seq<Rune>, col: nat, m: Mode): Result
    decreases |t|, Rank(m)
  {
    var c := At(t, 0);
    match m
    case LineStart =>
      if (col == 0 && DocIndicator(t)) || c == 0 then Fail
      else Scan(single, t, col, Content)
    case Content =>
      if c == 0 then Fail
      else if Blank(c) then Scan(single, t[1..], col + 1, Blanks([c]))
      else if Break(c) then Scan(single, t[BreakLen(t)..], 0, Breaks(BreakText(t), []))
      else if single && c == SQUOTE && At(t, 1) == SQUOTE then
        Push([SQUOTE], Scan(single, t[2..], col + 2, Content))
      else if c == Quote(single) then Done([], t[1..])
      else if !single && c == BACKSLASH && Break(At(t, 1)) then
        Scan(single, t[1 + BreakLen(t[1..])..], 0, Breaks([], []))
      else if !single && c == BACKSLASH then
        match ReadEscape(t)
        case BadEscape => Fail
        case Escaped(e, n) => Push([e], Scan(single, t[n..], col + n, Content))
      else Push([c], Scan(single, t[1..], col + 1, Content))
    case Blanks(ws) =>
      if Blank(c) then Scan(single, t[1..], col + 1, Blanks(ws + [c]))
      else if Break(c) then Scan(single, t[BreakLen(t)..], 0, Breaks(BreakText(t), []))
      else Push(ws, Scan(single, t, col, LineStart))
    case Breaks(lead, trail) =>
      if Blank(c) then Scan(single, t[1..], col + 1, m)
      else if Break(c) then Scan(single, t[BreakLen(t)..], 0, Breaks(lead, trail + BreakText(t)))
      else Push(Join(lead, trail), Scan(single, t, col, LineStart))
  }
}
