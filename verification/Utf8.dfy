/** UTF-8 as the library stores text: byte sequences that encode Unicode scalar values. */
module Utf8 {

  type Byte = b: int | 0 <= b < 256

  /** The octets of ASCII characters. */
  function Ascii(s: string): (r: seq<Byte>)
    requires forall i | 0 <= i < |s| :: s[i] < 128 as char
    ensures |r| == |s| && forall i | 0 <= i < |s| :: r[i] == s[i] as int
  {
    seq(|s|, i requires 0 <= i < |s| => s[i] as int)
  }

  /** A Unicode scalar value: a code point that is not a surrogate. */
  type Rune = c: int | 0 <= c < 0xD800 || 0xE000 <= c < 0x110000

  /** The shortest-form encoding of one scalar value, RFC 3629 section 3. */
  function Encode(c: Rune): (r: seq<Byte>)
    ensures 1 <= |r| <= 4
    ensures Width(r[0]) == |r|
  {
    if c < 0x80 then [c as Byte]
    else if c < 0x800 then [0xC0 + c / 64, 0x80 + c % 64]
    else if c < 0x10000 then [0xE0 + c / 4096, 0x80 + c / 64 % 64, 0x80 + c % 64]
    else
      var lead: Byte := 0xF0 + c / 262144;
      [lead, 0x80 + c / 4096 % 64, 0x80 + c / 64 % 64, 0x80 + c % 64]
  }

  function EncodeAll(v: seq<Rune>): seq<Byte> {
    if v == [] then [] else Encode(v[0]) + EncodeAll(v[1..])
  }

  lemma {:induction false} EncodeAllConcat(u: seq<Rune>, v: seq<Rune>)
    ensures EncodeAll(u + v) == EncodeAll(u) + EncodeAll(v)
  {
    if u == [] {
      assert u + v == v;
    } else {
      assert (u + v)[1..] == u[1..] + v;
      EncodeAllConcat(u[1..], v);
    }
  }

  lemma EncodeAllOne(c: Rune)
    ensures EncodeAll([c]) == Encode(c)
  {
    assert EncodeAll([c]) == Encode(c) + EncodeAll([]);
  }

  /** Number of bytes of the character that starts with `b`; 0 when no character does. */
  function Width(b: Byte): nat {
    if b < 0x80 then 1
    else if 0xC0 <= b < 0xE0 then 2
    else if 0xE0 <= b < 0xF0 then 3
    else if 0xF0 <= b < 0xF8 then 4
    else 0
  }

  /** The bytes of `b` from `i` on start with the encoding of `c`. */
  ghost predicate Holds(b: seq<Byte>, i: int, c: Rune) {
    0 <= i && i + |Encode(c)| <= |b| && b[i..i + |Encode(c)|] == Encode(c)
  }

  lemma HoldsBytes(b: seq<Byte>, i: int, c: Rune)
    requires Holds(b, i, c)
    ensures b[i] == Encode(c)[0]
    ensures c >= 0x80 ==> b[i + 1] == Encode(c)[1]
    ensures c >= 0x800 ==> b[i + 2] == Encode(c)[2]
    ensures c >= 0x10000 ==> b[i + 3] == Encode(c)[3]
    ensures Width(b[i]) == |Encode(c)|
  {
    var e := b[i..i + |Encode(c)|];
    assert forall k | 0 <= k < |e| :: e[k] == b[i + k];
    assert e[0] == b[i + 0];
    if c >= 0x80 { assert e[1] == b[i + 1]; }
    if c >= 0x800 { assert e[2] == b[i + 2]; }
    if c >= 0x10000 { assert e[3] == b[i + 3]; }
  }

  /** The bytes of `b` from `i` on are the encoding of `v`. */
  ghost predicate Rest(b: seq<Byte>, i: int, v: seq<Rune>) {
    0 <= i <= |b| && From(b, i) == EncodeAll(v)
  }

  function From(b: seq<Byte>, i: int): seq<Byte>
    requires 0 <= i <= |b|
  {
    b[i..]
  }

  lemma RestHolds(b: seq<Byte>, i: int, v: seq<Rune>)
    requires Rest(b, i, v) && v != []
    ensures Holds(b, i, v[0]) && Rest(b, i + |Encode(v[0])|, v[1..])
  {
    var w := |Encode(v[0])|;
    assert b[i..][..w] == Encode(v[0]) && b[i..][w..] == EncodeAll(v[1..]);
    assert b[i..i + w] == b[i..][..w] && b[i + w..] == b[i..][w..];
  }
}
