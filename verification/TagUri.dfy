/** Tag contents: percent-encoding as yaml_emitter_write_tag_content does it, reading as
    yaml_parser_scan_tag_uri and yaml_parser_scan_uri_escapes do it. */
module TagUri {
  import opened Utf8
  import opened CharClass
  import opened FlowScalar
  import opened ScalarText

  const PERCENT: Rune := 0x25

  /** ';', '/', '?', ':', '@', '&', '=', '+', '$', ',', '.', '~', '*', '(single quote)', '(', ')',
      '[' and ']'. */
  predicate Mark(c: int) {
    || c == 0x3B || c == 0x2F || c == 0x3F || c == 0x3A || c == 0x40 || c == 0x26 || c == 0x3D || c == 0x2B
    || c == 0x24 || c == 0x2C || c == 0x2E || c == 0x7E || c == 0x2A || c == 0x27 || c == 0x28 || c == 0x29
    || c == 0x5B || c == 0x5D
  }

  // ---- The writer ----

  /** Characters that are written as they are. */
  predicate MustWrite(c: Rune) {
    Mark(c) || Alpha(c)
  }

  function Percent(b: Byte): seq<Rune> {
    [PERCENT, HexDigit(b / 16), HexDigit(b % 16)]
  }

  function PercentAll(b: seq<Byte>): seq<Rune> {
    if b == [] then [] else Percent(b[0]) + PercentAll(b[1..])
  }

  function CharText(c: Rune): seq<Rune> {
    if MustWrite(c) then [c] else PercentAll(Encode(c))
  }

  function TagText(v: seq<Rune>): seq<Rune> {
    if v == [] then [] else CharText(v[0]) + TagText(v[1..])
  }

  // ---- The scanner ----

  /** The octets read and the characters after them, or a scanner error. */
  datatype Uri = BadUri | Uri(octets: seq<Byte>, rest: seq<Rune>)

  function Prepend(p: seq<Byte>, u: Uri): Uri {
    match u
    case BadUri => BadUri
    case Uri(o, rest) => Uri(p + o, rest)
  }

  predicate UriChar(c: Rune) {
    Mark(c) || Alpha(c) || c == 0x21 || c == PERCENT
  }

  predicate AtOctet(t: seq<Rune>) {
    At(t, 0) == PERCENT && Hex(At(t, 1)) && Hex(At(t, 2))
  }

  function Octet(t: seq<Rune>): (b: Byte)
    requires AtOctet(t)
  {
    HexValue(At(t, 1)) * 16 + HexValue(At(t, 2))
  }

  /** `n` trailing octets. */
  function Trailing(t: seq<Rune>, n: nat): (u: Uri)
    ensures u.Uri? ==> |u.rest| <= |t|
    decreases n
  {
    if n == 0 then Uri([], t)
    else if !AtOctet(t) || !(0x80 <= Octet(t) < 0xC0) then BadUri
    else Prepend([Octet(t)], Trailing(t[3..], n - 1))
  }

  /** One escaped character: a leading octet and as many trailing ones as its width says. */
  function EscapedChar(t: seq<Rune>): (u: Uri)
    ensures u.Uri? ==> |u.rest| < |t|
  {
    if !AtOctet(t) || Width(Octet(t)) == 0 then BadUri
    else Prepend([Octet(t)], Trailing(t[3..], Width(Octet(t)) - 1))
  }

  function Content(t: seq<Rune>): (u: Uri)
    ensures u.Uri? ==> |u.rest| <= |t|
    decreases |t|
  {
    var c := At(t, 0);
    if !UriChar(c) then Uri([], t)
    else if c == PERCENT then
      match EscapedChar(t)
      case BadUri => BadUri
      case Uri(o, rest) => Prepend(o, Content(rest))
    else Prepend([c as Byte], Content(t[1..]))
  }

  /** The tag content after `head`, of which the leading '!' is dropped. Something must have
      been read. */
  function Scan(head: seq<Byte>, t: seq<Rune>): Uri {
    match Content(t)
    case BadUri => BadUri
    case Uri(o, rest) =>
      if head == [] && |rest| == |t| then BadUri
      else Uri((if |head| > 1 then head[1..] else []) + o, rest)
  }

  // ---- Round trip ----

  lemma PrependPrepend(p: seq<Byte>, q: seq<Byte>, u: Uri)
    ensures Prepend(p, Prepend(q, u)) == Prepend(p + q, u)
  {
    if u.Uri? {
      assert p + (q + u.octets) == p + q + u.octets;
    }
  }

  lemma PercentReads(b: Byte, u: seq<Rune>)
    ensures AtOctet(Percent(b) + u) && Octet(Percent(b) + u) == b && (Percent(b) + u)[3..] == u
  {
  }

  lemma {:induction false} TrailingReads(e: seq<Byte>, u: seq<Rune>)
    requires forall j | 0 <= j < |e| :: 0x80 <= e[j] < 0xC0
    ensures Trailing(PercentAll(e) + u, |e|) == Uri(e, u)
    decreases |e|
  {
    if e == [] {
      assert PercentAll(e) + u == u;
    } else {
      var w := PercentAll(e[1..]) + u;
      assert PercentAll(e) + u == Percent(e[0]) + w;
      PercentReads(e[0], w);
      TrailingReads(e[1..], u);
      assert [e[0]] + e[1..] == e;
    }
  }

  lemma EscapedReads(c: Rune, u: seq<Rune>)
    ensures EscapedChar(PercentAll(Encode(c)) + u) == Uri(Encode(c), u)
    ensures At(PercentAll(Encode(c)) + u, 0) == PERCENT
  {
    var e := Encode(c);
    var w := PercentAll(e[1..]) + u;
    assert PercentAll(e) + u == Percent(e[0]) + w;
    PercentReads(e[0], w);
    TrailingReads(e[1..], u);
    assert [e[0]] + e[1..] == e;
  }

  /** One character reads back as its octets. */
  lemma CharReads(c: Rune, u: seq<Rune>)
    ensures Content(CharText(c) + u) == Prepend(Encode(c), Content(u))
  {
    if MustWrite(c) {
      assert ([c] + u)[1..] == u;
      assert Encode(c) == [c];
    } else {
      EscapedReads(c, u);
    }
  }

  /** Every character reads back as its octets, and the terminator is left alone. */
  lemma {:induction false} ContentReads(v: seq<Rune>, rest: seq<Rune>)
    requires !UriChar(At(rest, 0))
    ensures Content(TagText(v) + rest) == Uri(EncodeAll(v), rest)
    decreases |v|
  {
    if v == [] {
      assert TagText(v) + rest == rest;
    } else {
      var u := TagText(v[1..]) + rest;
      assert TagText(v) + rest == CharText(v[0]) + u;
      hide Content, CharText;
      ContentReads(v[1..], rest);
      CharReads(v[0], u);
    }
  }

  lemma TagTextSize(v: seq<Rune>)
    ensures v != [] ==> TagText(v) != []
  {
    if v != [] && !MustWrite(v[0]) {
      assert PercentAll(Encode(v[0])) == Percent(Encode(v[0])[0]) + PercentAll(Encode(v[0])[1..]);
    }
  }

  /** Tag content reads back octet by octet, whatever handle was read before it. An empty
      content is an error unless there was one. */
  lemma RoundTrip(head: seq<Byte>, v: seq<Rune>, rest: seq<Rune>)
    requires !UriChar(At(rest, 0))
    ensures Scan(head, TagText(v) + rest)
         == if head == [] && v == [] then BadUri
            else Uri((if |head| > 1 then head[1..] else []) + EncodeAll(v), rest)
  {
    ContentReads(v, rest);
    TagTextSize(v);
  }

  // ---- Single steps ----

  lemma TagTextStep(v: seq<Rune>, k: nat)
    requires k < |v|
    ensures TagText(v[k..]) == CharText(v[k]) + TagText(v[k + 1..])
  {
    assert v[k..][1..] == v[k + 1..];
  }

  lemma TrailingStep(p: seq<Byte>, t: seq<Rune>, n: nat)
    requires n > 0
    ensures Prepend(p, Trailing(t, n))
         == if AtOctet(t) && 0x80 <= Octet(t) < 0xC0 then Prepend(p + [Octet(t)], Trailing(t[3..], n - 1)) else BadUri
  {
    if AtOctet(t) {
      PrependPrepend(p, [Octet(t)], Trailing(t[3..], n - 1));
    }
  }

  lemma ContentStep(p: seq<Byte>, t: seq<Rune>)
    requires UriChar(At(t, 0))
    ensures At(t, 0) != PERCENT ==> Prepend(p, Content(t)) == Prepend(p + [At(t, 0) as Byte], Content(t[1..]))
    ensures At(t, 0) == PERCENT ==>
              Prepend(p, Content(t))
              == match EscapedChar(t) case BadUri => BadUri case Uri(o, rest) => Prepend(p + o, Content(rest))
  {
    if At(t, 0) != PERCENT {
      PrependPrepend(p, [At(t, 0) as Byte], Content(t[1..]));
    } else if EscapedChar(t).Uri? {
      PrependPrepend(p, EscapedChar(t).octets, Content(EscapedChar(t).rest));
    }
  }

  lemma TrailingNone(t: seq<Rune>)
    ensures Trailing(t, 0) == Uri([], t)
  {
  }

  lemma ContentNone(t: seq<Rune>)
    requires !UriChar(At(t, 0))
    ensures Content(t) == Uri([], t)
  {
  }

  lemma NoTagText()
    ensures TagText([]) == []
  {
  }
}
