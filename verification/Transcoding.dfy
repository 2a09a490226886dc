/** The encodings that the reader understands: how readerc.go decodes one character, and the
    reference encodings of RFC 3629 and RFC 2781 that it inverts. */
module Transcoding {
  import opened Utf8

  datatype Encoding = AnyEncoding | Utf8Encoding | Utf16LEEncoding | Utf16BEEncoding

  /** The characters that a YAML stream may hold: YAML 1.2 section 5.1. */
  predicate Allowed(c: int) {
    || c == 0x09 || c == 0x0A || c == 0x0D || 0x20 <= c <= 0x7E || c == 0x85
    || 0xA0 <= c <= 0xD7FF || 0xE000 <= c <= 0xFFFD || 0x10000 <= c <= 0x10FFFF
  }

  // ---- Reference encodings ----

  /** One 16-bit unit. */
  function Unit(u: int, little: bool): seq<Byte>
    requires 0 <= u < 0x10000
  {
    if little then [u % 256, u / 256] else [u / 256, u % 256]
  }

  /** RFC 2781 section 2.1: a scalar value as one unit or as a surrogate pair. */
  function Encode16(c: Rune, little: bool): (r: seq<Byte>)
    ensures |r| == if c < 0x10000 then 2 else 4
  {
    if c < 0x10000 then Unit(c, little)
    else Unit(0xD800 + (c - 0x10000) / 1024, little) + Unit(0xDC00 + (c - 0x10000) % 1024, little)
  }

  function EncodeIn(c: Rune, e: Encoding): (r: seq<Byte>)
    ensures 1 <= |r| <= 4
  {
    if e.Utf16LEEncoding? then Encode16(c, true) else if e.Utf16BEEncoding? then Encode16(c, false) else Encode(c)
  }

  function EncodeAllIn(v: seq<Rune>, e: Encoding): seq<Byte> {
    if v == [] then [] else EncodeIn(v[0], e) + EncodeAllIn(v[1..], e)
  }

  // ---- Decoding as the code does it ----

  /** One character of so many bytes; or the bytes are too few to tell; or they are malformed. */
  datatype One = One(value: int, width: nat) | Short | Wrong

  /** The trailing octets from the k-th on; `value` is what the octets before them stand for. */
  function Trailing(b: seq<Byte>, k: nat, width: nat, value: int): One
    requires 1 <= k <= width <= |b|
    decreases width - k
  {
    if k == width then One(value, width)
    else if b[k] < 0x80 || b[k] >= 0xC0 then Wrong
    else Trailing(b, k + 1, width, value * 64 + b[k] % 64)
  }

  /** The bits of a leading octet that belong to the character. */
  function LeadBits(b: Byte): int {
    if b < 0x80 then b else if b < 0xE0 then b % 32 else if b < 0xF0 then b % 16 else b % 8
  }

  predicate LongEnough(width: nat, value: int) {
    width == 1 || (width == 2 && value >= 0x80) || (width == 3 && value >= 0x800) || (width == 4 && value >= 0x10000)
  }

  predicate IsScalar(value: int) {
    !(0xD800 <= value <= 0xDFFF || value > 0x10FFFF)
  }

  function Decode8(b: seq<Byte>): One
    requires b != []
  {
    var w := Width(b[0]);
    if w == 0 then Wrong
    else if w > |b| then Short
    else
      match Trailing(b, 1, w, LeadBits(b[0]))
      case One(value, _) => if LongEnough(w, value) && IsScalar(value) then One(value, w) else Wrong
      case r => r
  }

  function UnitAt(b: seq<Byte>, i: nat, little: bool): int
    requires i + 1 < |b|
  {
    var low: int := if little then b[i] else b[i + 1];
    var high: int := if little then b[i + 1] else b[i];
    low + high * 256
  }

  function Decode16(b: seq<Byte>, little: bool): One
    requires b != []
  {
    if |b| < 2 then Short
    else
      var value := UnitAt(b, 0, little);
      if 0xDC00 <= value < 0xE000 then Wrong
      else if 0xD800 <= value < 0xDC00 then
        if |b| < 4 then Short
        else
          var low := UnitAt(b, 2, little);
          if low < 0xDC00 || low >= 0xE000 then Wrong
          else One(0x10000 + value % 1024 * 1024 + low % 1024, 4)
      else One(value, 2)
  }

  function DecodeOne(b: seq<Byte>, e: Encoding): One
    requires b != []
  {
    if e.Utf16LEEncoding? then Decode16(b, true) else if e.Utf16BEEncoding? then Decode16(b, false) else Decode8(b)
  }

  // ---- The decoder inverts the encodings ----

  predicate StartsWith(b: seq<Byte>, p: seq<Byte>) {
    |p| <= |b| && b[..|p|] == p
  }

  /** Three digits to the base of 64 behind a leading one. */
  lemma Digits(x: int, y: int, z: int, t: int)
    requires 0 <= y < 64 && 0 <= z < 64 && 0 <= t < 64
    ensures var v := ((x * 64 + y) * 64 + z) * 64 + t;
            v % 64 == t && v / 64 == (x * 64 + y) * 64 + z && v / 64 % 64 == z && v / 4096 % 64 == y && v / 4096 == x * 64 + y
            && v / 262144 == x
  {
  }

  /** What Decode8 computes for each width. */
  lemma Decode8Digits(b: seq<Byte>)
    requires b != [] && 0 < Width(b[0]) <= |b|
    ensures var w := Width(b[0]);
            var r := Trailing(b, 1, w, LeadBits(b[0]));
            if exists k | 1 <= k < w :: b[k] < 0x80 || b[k] >= 0xC0 then r == Wrong
            else r == One(
              if w == 1 then b[0]
              else if w == 2 then (b[0] as int - 0xC0) * 64 + (b[1] as int - 0x80)
              else if w == 3 then ((b[0] as int - 0xE0) * 64 + (b[1] as int - 0x80)) * 64 + (b[2] as int - 0x80)
              else (((b[0] as int - 0xF0) * 64 + (b[1] as int - 0x80)) * 64 + (b[2] as int - 0x80)) * 64 + (b[3] as int - 0x80), w)
  {
    LeadDigit(b[0]);
    hide Trailing, LeadBits;
    var w := Width(b[0]);
    var v0 := LeadBits(b[0]);
    TrailingEnds(b, w, v0);
    if w >= 2 {
      var v1 := v0 * 64 + b[1] % 64;
      TrailingStep(b, 1, w, v0);
      TrailingEnds(b, w, v1);
      if w >= 3 {
        var v2 := v1 * 64 + b[2] % 64;
        TrailingStep(b, 2, w, v1);
        TrailingEnds(b, w, v2);
        if w >= 4 {
          TrailingStep(b, 3, w, v2);
          TrailingEnds(b, w, v2 * 64 + b[3] % 64);
        }
      }
    }
  }

  lemma LeadDigit(b: Byte)
    ensures LeadBits(b) == match Width(b)
                           case 2 => b as int - 0xC0
                           case 3 => b as int - 0xE0
                           case 4 => b as int - 0xF0
                           case _ => LeadBits(b)
    ensures Width(b) == 1 ==> LeadBits(b) == b
  {
  }

  lemma TrailingStep(b: seq<Byte>, k: nat, width: nat, value: int)
    requires 1 <= k < width <= |b|
    ensures Trailing(b, k, width, value)
         == if b[k] < 0x80 || b[k] >= 0xC0 then Wrong else Trailing(b, k + 1, width, value * 64 + b[k] % 64)
    ensures 0x80 <= b[k] < 0xC0 ==> b[k] % 64 == b[k] - 0x80
  {
  }

  lemma TrailingEnds(b: seq<Byte>, width: nat, value: int)
    requires 1 <= width <= |b|
    ensures Trailing(b, width, width, value) == One(value, width)
  {
  }

  lemma Decode8Value(b: seq<Byte>)
    requires b != [] && Decode8(b).One?
    ensures var v := Decode8(b).value;
            (0 <= v < 0xD800 || 0xE000 <= v < 0x110000) && Decode8(b).width == |Encode(v)| && StartsWith(b, Encode(v))
  {
    hide Trailing, Encode;
    var w := Width(b[0]);
    Decode8Digits(b);
    if w == 2 {
      assert b[..2] == [b[0], b[1]];
      EncodeTwo(b[0] as int - 0xC0, b[1] as int - 0x80);
    } else if w == 3 {
      assert b[..3] == [b[0], b[1], b[2]];
      EncodeThree(b[0] as int - 0xE0, b[1] as int - 0x80, b[2] as int - 0x80);
    } else if w == 4 {
      assert b[..4] == [b[0], b[1], b[2], b[3]];
      EncodeFour(b[0] as int - 0xF0, b[1] as int - 0x80, b[2] as int - 0x80, b[3] as int - 0x80);
    } else {
      assert b[..1] == [b[0]];
      EncodeAscii(b[0]);
    }
  }

  lemma EncodeAscii(c: Rune)
    requires c < 0x80
    ensures Encode(c) == [c]
  {
  }

  lemma EncodeTwo(z: int, t: int)
    requires 0 <= t < 64 && 0x80 <= z * 64 + t < 0x800
    ensures Encode(z * 64 + t) == [0xC0 + z, 0x80 + t]
  {
    Digits(0, 0, z, t);
  }

  lemma EncodeThree(y: int, z: int, t: int)
    requires 0 <= z < 64 && 0 <= t < 64
    requires var v := (y * 64 + z) * 64 + t; 0x800 <= v < 0x10000 && IsScalar(v)
    ensures Encode((y * 64 + z) * 64 + t) == [0xE0 + y, 0x80 + z, 0x80 + t]
  {
    Digits(0, y, z, t);
  }

  lemma EncodeFour(x: int, y: int, z: int, t: int)
    requires 0 <= y < 64 && 0 <= z < 64 && 0 <= t < 64
    requires 0x10000 <= ((x * 64 + y) * 64 + z) * 64 + t < 0x110000
    ensures Encode(((x * 64 + y) * 64 + z) * 64 + t) == [0xF0 + x, 0x80 + y, 0x80 + z, 0x80 + t]
  {
    Digits(x, y, z, t);
  }

  lemma Decode8Encoded(b: seq<Byte>, c: Rune)
    requires StartsWith(b, Encode(c))
    ensures b != [] && Decode8(b) == One(c, |Encode(c)|)
  {
    hide Trailing;
    var e := Encode(c);
    assert b[0] == e[0] by { assert e == b[..|e|]; }
    if |e| > 1 { assert b[1] == e[1] by { assert e == b[..|e|]; } }
    if |e| > 2 { assert b[2] == e[2] by { assert e == b[..|e|]; } }
    if |e| > 3 { assert b[3] == e[3] by { assert e == b[..|e|]; } }
    Decode8Digits(b);
    SixBitDigits(c);
  }

  lemma SixBitDigits(c: int)
    requires c >= 0
    ensures c == c / 64 * 64 + c % 64
    ensures c == (c / 4096 * 64 + c / 64 % 64) * 64 + c % 64
    ensures c == ((c / 262144 * 64 + c / 4096 % 64) * 64 + c / 64 % 64) * 64 + c % 64
  {
    assert c / 64 / 64 == c / 4096;
    assert c / 4096 / 64 == c / 262144;
  }

  /** A unit is the two bytes that it is read from. */
  lemma UnitReads(b: seq<Byte>, i: nat, u: int, little: bool)
    requires i + 1 < |b|
    ensures 0 <= u < 0x10000 ==> (b[i..i + 2] == Unit(u, little) <==> UnitAt(b, i, little) == u)
    ensures 0 <= UnitAt(b, i, little) < 0x10000
  {
    assert b[i..i + 2] == [b[i], b[i + 1]];
  }

  lemma SurrogateDigits(x: int, y: int)
    requires 0 <= x < 1024 && 0 <= y < 1024
    ensures (x * 1024 + y) / 1024 == x && (x * 1024 + y) % 1024 == y
  {
  }

  lemma Decode16Value(b: seq<Byte>, little: bool)
    requires b != [] && Decode16(b, little).One?
    ensures var v := Decode16(b, little).value;
            (0 <= v < 0xD800 || 0xE000 <= v < 0x110000) && Decode16(b, little).width == |Encode16(v, little)|
            && StartsWith(b, Encode16(v, little))
  {
    hide UnitAt, Unit;
    var high := UnitAt(b, 0, little);
    assert b[0..2] == b[..2];
    UnitReads(b, 0, high, little);
    if Decode16(b, little).width == 4 {
      var low := UnitAt(b, 2, little);
      UnitReads(b, 2, low, little);
      PairEncoded(high, low, little);
      assert b[..4] == b[0..2] + b[2..4];
    }
  }

  lemma PairEncoded(high: int, low: int, little: bool)
    requires 0xD800 <= high < 0xDC00 && 0xDC00 <= low < 0xE000
    ensures var v := 0x10000 + high % 1024 * 1024 + low % 1024;
            0x10000 <= v < 0x110000 && Encode16(v, little) == Unit(high, little) + Unit(low, little)
  {
    hide Unit;
    assert high == 0xD800 + high % 1024 && low == 0xDC00 + low % 1024;
    SurrogateDigits(high % 1024, low % 1024);
  }

  lemma Decode16Encoded(b: seq<Byte>, c: Rune, little: bool)
    requires StartsWith(b, Encode16(c, little))
    ensures b != [] && Decode16(b, little) == One(c, |Encode16(c, little)|)
  {
    var e := Encode16(c, little);
    hide Unit, UnitAt;
    if |e| == 2 {
      assert b[0..2] == e;
      UnitReads(b, 0, c, little);
    } else {
      var high, low := 0xD800 + (c - 0x10000) / 1024, 0xDC00 + (c - 0x10000) % 1024;
      UnitLength(high, little);
      UnitLength(low, little);
      assert b[0..2] == b[..4][..2] == Unit(high, little);
      assert b[2..4] == b[..4][2..] == Unit(low, little);
      UnitReads(b, 0, high, little);
      UnitReads(b, 2, low, little);
      assert high % 1024 == (c - 0x10000) / 1024;
      assert low % 1024 == (c - 0x10000) % 1024;
    }
  }

  lemma UnitLength(u: int, little: bool)
    requires 0 <= u < 0x10000
    ensures |Unit(u, little)| == 2
  {
  }

  /** A character is decoded exactly where its encoding stands. */
  lemma DecodesExactly(b: seq<Byte>, e: Encoding, c: Rune)
    requires b != []
    ensures DecodeOne(b, e) == One(c, |EncodeIn(c, e)|) <==> StartsWith(b, EncodeIn(c, e))
  {
    hide Decode8, Decode16, Encode, Encode16;
    if StartsWith(b, EncodeIn(c, e)) {
      if e.Utf16LEEncoding? { Decode16Encoded(b, c, true); }
      else if e.Utf16BEEncoding? { Decode16Encoded(b, c, false); }
      else { Decode8Encoded(b, c); }
    }
    if DecodeOne(b, e).One? {
      DecodedIsEncoded(b, e);
    }
  }

  lemma DecodedIsEncoded(b: seq<Byte>, e: Encoding)
    requires b != [] && DecodeOne(b, e).One?
    ensures var v := DecodeOne(b, e).value;
            (0 <= v < 0xD800 || 0xE000 <= v < 0x110000) && DecodeOne(b, e).width == |EncodeIn(v, e)| && StartsWith(b, EncodeIn(v, e))
  {
    hide Decode8, Decode16, Encode, Encode16;
    if e.Utf16LEEncoding? { Decode16Value(b, true); }
    else if e.Utf16BEEncoding? { Decode16Value(b, false); }
    else { Decode8Value(b); }
  }

  // ---- Whole texts ----

  datatype Text = Malformed | Text(runes: seq<Rune>)

  /** All characters of `b`, each of them allowed. */
  function TextOf(b: seq<Byte>, e: Encoding): Text
    decreases |b|
  {
    if b == [] then Text([])
    else
      match DecodeOne(b, e)
      case One(value, width) =>
        DecodedIsEncoded(b, e);
        if !Allowed(value) then Malformed
        else
          (match TextOf(b[width..], e)
           case Malformed => Malformed
           case Text(v) => Text([value] + v))
      case _ => Malformed
  }

  ghost predicate AllAllowed(v: seq<Rune>) {
    forall i | 0 <= i < |v| :: Allowed(v[i])
  }

  /** The text is `v` exactly if the bytes are the encoding of `v` and its characters are allowed. */
  lemma {:induction false} TextExactly(b: seq<Byte>, e: Encoding, v: seq<Rune>)
    ensures TextOf(b, e) == Text(v) <==> b == EncodeAllIn(v, e) && AllAllowed(v)
    decreases |b|
  {
    hide DecodeOne, EncodeIn;
    if b == [] {
      if v != [] {
        assert |EncodeAllIn(v, e)| >= 1;
      }
    } else if v == [] {
    } else {
      var w := EncodeIn(v[0], e);
      DecodesExactly(b, e, v[0]);
      if StartsWith(b, w) {
        assert b == w + b[|w|..];
        TextExactly(b[|w|..], e, v[1..]);
        assert v == [v[0]] + v[1..];
        AllowedOneMore(v);
        EncodedRest(b, w, EncodeAllIn(v[1..], e));
      } else {
        NotEncoded(b, w, EncodeAllIn(v[1..], e));
        if DecodeOne(b, e).One? {
          DecodedIsEncoded(b, e);
        }
      }
    }
  }

  lemma NotEncoded(b: seq<Byte>, w: seq<Byte>, r: seq<Byte>)
    requires !StartsWith(b, w)
    ensures b != w + r
  {
    assert (w + r)[..|w|] == w;
  }

  lemma EncodedRest(b: seq<Byte>, w: seq<Byte>, r: seq<Byte>)
    requires |w| <= |b| && b == w + b[|w|..]
    ensures b == w + r <==> b[|w|..] == r
  {
    if b == w + r {
      assert (w + r)[|w|..] == r;
    }
  }

  lemma AllowedOneMore(v: seq<Rune>)
    requires v != []
    ensures AllAllowed(v) <==> Allowed(v[0]) && AllAllowed(v[1..])
  {
    assert forall i | 1 <= i < |v| :: v[i] == v[1..][i - 1];
  }

  /** Encoded characters in front of other bytes. */
  lemma {:induction false} TextAfter(d: seq<Rune>, rest: seq<Byte>, e: Encoding)
    requires AllAllowed(d)
    ensures TextOf(EncodeAllIn(d, e) + rest, e)
         == match TextOf(rest, e)
            case Malformed => Malformed
            case Text(v) => Text(d + v)
    decreases |d|
  {
    EncodeAllInFirst(d, e);
    hide DecodeOne, EncodeIn, EncodeAllIn, TextOf, Allowed, IsScalar;
    if d == [] {
      assert [] + rest == rest;
      if TextOf(rest, e).Text? {
        assert d + TextOf(rest, e).runes == TextOf(rest, e).runes;
      }
    } else {
      AllowedOneMore(d);
      var more := EncodeAllIn(d[1..], e);
      TextAfterOne(d[0], more + rest, e);
      assert (EncodeIn(d[0], e) + more) + rest == EncodeIn(d[0], e) + (more + rest);
      TextAfter(d[1..], rest, e);
      if TextOf(rest, e).Text? {
        assert [d[0]] + (d[1..] + TextOf(rest, e).runes) == d + TextOf(rest, e).runes;
      }
    }
  }

  lemma EncodeAllInFirst(v: seq<Rune>, e: Encoding)
    ensures EncodeAllIn(v, e) == if v == [] then [] else EncodeIn(v[0], e) + EncodeAllIn(v[1..], e)
  {
  }

  lemma TextAfterOne(c: Rune, rest: seq<Byte>, e: Encoding)
    requires Allowed(c)
    ensures TextOf(EncodeIn(c, e) + rest, e)
         == match TextOf(rest, e)
            case Malformed => Malformed
            case Text(v) => Text([c] + v)
  {
    hide DecodeOne, EncodeIn, Allowed, IsScalar;
    var w := EncodeIn(c, e);
    var b := w + rest;
    assert b[..|w|] == w && b[|w|..] == rest;
    DecodesExactly(b, e, c);
  }

  lemma {:induction false} EncodeAllInConcat(u: seq<Rune>, v: seq<Rune>, e: Encoding)
    ensures EncodeAllIn(u + v, e) == EncodeAllIn(u, e) + EncodeAllIn(v, e)
  {
    if u == [] {
      assert u + v == v;
    } else {
      assert (u + v)[1..] == u[1..] + v;
      EncodeAllInConcat(u[1..], v, e);
    }
  }

  /** In UTF-8 the reader's output is its input. */
  lemma {:induction false} Utf8IsIdentity(v: seq<Rune>)
    ensures EncodeAllIn(v, Utf8Encoding) == EncodeAll(v)
  {
    if v != [] {
      Utf8IsIdentity(v[1..]);
    }
  }

  // ---- Streams ----

  /** The encoding that the byte order mark tells, and the length of the mark. */
  datatype Detected = Detected(encoding: Encoding, mark: nat)

  function Detect(b: seq<Byte>): (r: Detected)
    ensures r.mark <= |b| && r.encoding != AnyEncoding
  {
    if |b| >= 2 && b[0] == 0xFF && b[1] == 0xFE then Detected(Utf16LEEncoding, 2)
    else if |b| >= 2 && b[0] == 0xFE && b[1] == 0xFF then Detected(Utf16BEEncoding, 2)
    else if |b| >= 3 && b[0] == 0xEF && b[1] == 0xBB && b[2] == 0xBF then Detected(Utf8Encoding, 3)
    else Detected(Utf8Encoding, 0)
  }

  /** The characters of a stream, if it is well formed. */
  function StreamText(b: seq<Byte>): Text {
    var d := Detect(b);
    TextOf(b[d.mark..], d.encoding)
  }

  /** A byte order mark stands at the beginning. */
  predicate Marked(b: seq<Byte>) {
    [0xFE, 0xFF] <= b || [0xFF, 0xFE] <= b || [0xEF, 0xBB, 0xBF] <= b
  }

  /** The bytes are a stream of the characters, which YAML all allows: in UTF-16 after its byte order
      mark, big-endian after FE FF and little-endian after FF FE; or in UTF-8, with or without a mark. */
  ghost predicate StreamOf(b: seq<Byte>, v: seq<Rune>) {
    && AllAllowed(v)
    && (|| b == [0xFE, 0xFF] + EncodeAllIn(v, Utf16BEEncoding)
        || b == [0xFF, 0xFE] + EncodeAllIn(v, Utf16LEEncoding)
        || b == [0xEF, 0xBB, 0xBF] + EncodeAll(v)
        || (b == EncodeAll(v) && !Marked(b)))
  }

  /** What comes after a mark. */
  lemma AfterMarkExactly(b: seq<Byte>, mark: seq<Byte>, e: Encoding, v: seq<Rune>)
    requires mark <= b
    ensures TextOf(b[|mark|..], e) == Text(v) <==> b == mark + EncodeAllIn(v, e) && AllAllowed(v)
  {
    hide TextOf, EncodeAllIn, AllAllowed;
    TextExactly(b[|mark|..], e, v);
    assert b == mark + b[|mark|..];
    EncodedRest(b, mark, EncodeAllIn(v, e));
  }

  /** Which mark is there, if any. */
  lemma MarkDetected(b: seq<Byte>)
    ensures [0xFE, 0xFF] <= b ==> Detect(b) == Detected(Utf16BEEncoding, 2)
    ensures [0xFF, 0xFE] <= b ==> Detect(b) == Detected(Utf16LEEncoding, 2)
    ensures [0xEF, 0xBB, 0xBF] <= b ==> Detect(b) == Detected(Utf8Encoding, 3)
    ensures !Marked(b) ==> Detect(b) == Detected(Utf8Encoding, 0)
  {
  }

  /** At most one of the marks is there. */
  lemma OneMark(b: seq<Byte>, r: seq<Byte>)
    ensures b == [0xFE, 0xFF] + r ==> [0xFE, 0xFF] <= b && !([0xFF, 0xFE] <= b) && !([0xEF, 0xBB, 0xBF] <= b)
    ensures b == [0xFF, 0xFE] + r ==> [0xFF, 0xFE] <= b && !([0xFE, 0xFF] <= b) && !([0xEF, 0xBB, 0xBF] <= b)
    ensures b == [0xEF, 0xBB, 0xBF] + r ==> [0xEF, 0xBB, 0xBF] <= b && !([0xFE, 0xFF] <= b) && !([0xFF, 0xFE] <= b)
  {
    var big: seq<Byte>, little: seq<Byte>, three: seq<Byte> := [0xFE, 0xFF], [0xFF, 0xFE], [0xEF, 0xBB, 0xBF];
    assert big <= b ==> b[0] == big[0];
    assert little <= b ==> b[0] == little[0];
    assert three <= b ==> b[0] == three[0];
  }

  /** The reader accepts exactly UTF-8 and BOM-marked UTF-16 whose characters YAML allows. */
  lemma AcceptsExactly(b: seq<Byte>, v: seq<Rune>)
    ensures StreamText(b) == Text(v) <==> StreamOf(b, v)
  {
    hide TextOf, EncodeAllIn, AllAllowed, EncodeAll, Detect;
    Utf8IsIdentity(v);
    MarkDetected(b);
    OneMark(b, EncodeAllIn(v, Utf16BEEncoding));
    OneMark(b, EncodeAllIn(v, Utf16LEEncoding));
    OneMark(b, EncodeAll(v));
    if [0xFE, 0xFF] <= b {
      AfterMarkExactly(b, [0xFE, 0xFF], Utf16BEEncoding, v);
    } else if [0xFF, 0xFE] <= b {
      AfterMarkExactly(b, [0xFF, 0xFE], Utf16LEEncoding, v);
    } else if [0xEF, 0xBB, 0xBF] <= b {
      AfterMarkExactly(b, [0xEF, 0xBB, 0xBF], Utf8Encoding, v);
    } else {
      AfterMarkExactly(b, [], Utf8Encoding, v);
      assert [] + EncodeAllIn(v, Utf8Encoding) == EncodeAllIn(v, Utf8Encoding);
    }
  }

  /** A stream is a stream of one text, and what is no stream is malformed. */
  lemma OneText(b: seq<Byte>)
    ensures forall u, v | StreamOf(b, u) && StreamOf(b, v) :: u == v
    ensures StreamText(b).Malformed? <==> forall v :: !StreamOf(b, v)
  {
    hide StreamText, StreamOf;
    forall v
      ensures StreamText(b) == Text(v) <==> StreamOf(b, v)
    {
      AcceptsExactly(b, v);
    }
    if StreamText(b).Text? {
      assert StreamOf(b, StreamText(b).runes);
    }
  }

  /** Without a mark, UTF-8 is UTF-8. */
  lemma Unmarked(v: seq<Rune>)
    requires AllAllowed(v) && !Marked(EncodeAll(v))
    ensures StreamText(EncodeAll(v)) == Text(v)
  {
    hide EncodeAll, StreamText;
    AcceptsExactly(EncodeAll(v), v);
  }

  // ---- Bytes that arrive in pieces ----

  /** More bytes do not change what has been decoded, or found malformed. */
  lemma MoreBytes(b: seq<Byte>, more: seq<Byte>, e: Encoding)
    requires b != [] && !DecodeOne(b, e).Short?
    ensures DecodeOne(b + more, e) == DecodeOne(b, e)
  {
    if e.Utf16LEEncoding? || e.Utf16BEEncoding? {
    } else {
      var w := Width(b[0]);
      if w > 0 {
        TrailingMore(b, more, 1, w, LeadBits(b[0]));
      }
    }
  }

  lemma {:induction false} TrailingMore(b: seq<Byte>, more: seq<Byte>, k: nat, width: nat, value: int)
    requires 1 <= k <= width <= |b|
    ensures Trailing(b + more, k, width, value) == Trailing(b, k, width, value)
    decreases width - k
  {
    if k < width {
      TrailingMore(b, more, k + 1, width, value * 64 + b[k] % 64);
    }
  }

  /** Too few bytes are never more than three. */
  lemma ShortIsShort(b: seq<Byte>, e: Encoding)
    requires b != [] && DecodeOne(b, e).Short?
    ensures |b| <= 3
  {
    if !e.Utf16LEEncoding? && !e.Utf16BEEncoding? && Width(b[0]) <= |b| && Width(b[0]) > 0 {
      Decode8Digits(b);
    }
  }
}
