/** What the content of a tag is, said without the scanner: characters of a URI, and UTF-8 characters whose
    octets are escaped one by one. The scanner reads exactly these texts, and exactly these octets. */
module TagReading {
  import opened Utf8
  import opened CharClass
  import opened FlowScalar
  import U = TagUri

  /** A character that means itself, or the hexadecimal digits of the octets of one. */
  datatype Part = Itself(c: Rune) | Octets(digits: seq<(Rune, Rune)>)

  /** '%' and two digits for each octet. */
  function EscapeText(digits: seq<(Rune, Rune)>): seq<Rune> {
    if digits == [] then [] else ['%' as Rune, digits[0].0, digits[0].1] + EscapeText(digits[1..])
  }

  function PartText(p: Part): seq<Rune> {
    match p
    case Itself(c) => [c]
    case Octets(digits) => EscapeText(digits)
  }

  function Text(ps: seq<Part>): seq<Rune> {
    if ps == [] then [] else PartText(ps[0]) + Text(ps[1..])
  }

  /** The characters of a URI, besides letters, digits and '%'. */
  const URI: string := "-_;/?:@&=+$,.!~*'()[]"

  predicate LetterOrDigit(c: Rune) {
    'a' as int <= c <= 'z' as int || 'A' as int <= c <= 'Z' as int || '0' as int <= c <= '9' as int
  }

  predicate InUri(c: Rune) {
    LetterOrDigit(c) || exists i | 0 <= i < |URI| :: URI[i] as int == c
  }

  function OctetOf(d: (Rune, Rune)): (b: Byte)
    requires Hex(d.0) && Hex(d.1)
  {
    HexValue(d.0) * 16 + HexValue(d.1)
  }

  predicate Digits(digits: seq<(Rune, Rune)>) {
    forall i | 0 <= i < |digits| :: Hex(digits[i].0) && Hex(digits[i].1)
  }

  function OctetsOf(digits: seq<(Rune, Rune)>): (o: seq<Byte>)
    requires Digits(digits)
    ensures |o| == |digits|
    ensures forall i | 0 <= i < |digits| :: o[i] == OctetOf(digits[i])
  {
    seq(|digits|, i requires 0 <= i < |digits| => OctetOf(digits[i]))
  }

  predicate AllTrailing(o: seq<Byte>) {
    forall i | 0 <= i < |o| :: 0x80 <= o[i] <= 0xBF
  }

  /** The first octet tells how many there are, and the others are trailing ones. */
  predicate IsPart(p: Part) {
    match p
    case Itself(c) => InUri(c)
    case Octets(digits) =>
      && digits != [] && Digits(digits)
      && |digits| == Width(OctetOf(digits[0]))
      && AllTrailing(OctetsOf(digits)[1..])
  }

  function PartValue(p: Part): seq<Byte>
    requires IsPart(p)
  {
    match p
    case Itself(c) => Encode(c)
    case Octets(digits) => OctetsOf(digits)
  }

  predicate AreParts(ps: seq<Part>) {
    forall i | 0 <= i < |ps| :: IsPart(ps[i])
  }

  function Value(ps: seq<Part>): seq<Byte>
    requires AreParts(ps)
  {
    if ps == [] then [] else PartValue(ps[0]) + Value(ps[1..])
  }

  // ---- The characters ----

  lemma UriListed(k: nat)
    requires k < |URI|
    ensures U.Mark(URI[k] as int) || URI[k] as int == 0x2D || URI[k] as int == 0x5F || URI[k] as int == 0x21
  {
    var s := URI;
    assert s[0] == '-' && s[1] == '_' && s[2] == ';' && s[3] == '/' && s[4] == '?' && s[5] == ':' && s[6] == '@';
    assert s[7] == '&' && s[8] == '=' && s[9] == '+' && s[10] == '$' && s[11] == ',' && s[12] == '.' && s[13] == '!';
    assert s[14] == '~' && s[15] == '*' && s[16] == '\'' && s[17] == '(' && s[18] == ')' && s[19] == '[' && s[20] == ']';
  }

  lemma MarkListed(c: Rune)
    requires U.Mark(c) || c == 0x2D || c == 0x5F || c == 0x21
    ensures InUri(c)
  {
    var s := URI;
    assert s[0] == '-' && s[1] == '_' && s[2] == ';' && s[3] == '/' && s[4] == '?' && s[5] == ':' && s[6] == '@';
    assert s[7] == '&' && s[8] == '=' && s[9] == '+' && s[10] == '$' && s[11] == ',' && s[12] == '.' && s[13] == '!';
    assert s[14] == '~' && s[15] == '*' && s[16] == '\'' && s[17] == '(' && s[18] == ')' && s[19] == '[' && s[20] == ']';
  }

  /** The scanner takes exactly the characters of a URI and '%'; the writer leaves exactly those of a URI
      but '!' as they are. */
  lemma CharsMeant(c: Rune)
    ensures U.UriChar(c) <==> InUri(c) || c == '%' as int
    ensures U.MustWrite(c) <==> InUri(c) && c != '!' as int
  {
    if U.Mark(c) || c == 0x2D || c == 0x5F || c == 0x21 {
      MarkListed(c);
    }
    forall k | 0 <= k < |URI|
      ensures U.Mark(URI[k] as int) || URI[k] as int == 0x2D || URI[k] as int == 0x5F || URI[k] as int == 0x21
    {
      UriListed(k);
    }
  }

  // ---- Every text of parts is read ----

  lemma OneEscape(d: (Rune, Rune), u: seq<Rune>)
    requires Hex(d.0) && Hex(d.1)
    ensures var t := ['%' as Rune, d.0, d.1] + u; U.AtOctet(t) && U.Octet(t) == OctetOf(d) && t[3..] == u
  {
  }

  lemma {:induction false} TrailingReads(digits: seq<(Rune, Rune)>, u: seq<Rune>)
    requires Digits(digits) && AllTrailing(OctetsOf(digits))
    ensures U.Trailing(EscapeText(digits) + u, |digits|) == U.Uri(OctetsOf(digits), u)
    decreases |digits|
  {
    if digits == [] {
      assert EscapeText(digits) + u == u;
    } else {
      var w := EscapeText(digits[1..]) + u;
      assert EscapeText(digits) + u == ['%' as Rune, digits[0].0, digits[0].1] + w;
      OneEscape(digits[0], w);
      OctetsSplit(digits);
      TrailingReads(digits[1..], u);
    }
  }

  lemma OctetsSplit(digits: seq<(Rune, Rune)>)
    requires digits != [] && Digits(digits)
    ensures Digits(digits[1..]) && OctetsOf(digits)[1..] == OctetsOf(digits[1..])
    ensures OctetsOf(digits) == [OctetOf(digits[0])] + OctetsOf(digits[1..])
  {
  }

  lemma OctetsRead(digits: seq<(Rune, Rune)>, u: seq<Rune>)
    requires IsPart(Octets(digits))
    ensures var t := EscapeText(digits) + u;
            At(t, 0) == U.PERCENT && U.EscapedChar(t) == U.Uri(OctetsOf(digits), u)
  {
    var w := EscapeText(digits[1..]) + u;
    assert EscapeText(digits) + u == ['%' as Rune, digits[0].0, digits[0].1] + w;
    OneEscape(digits[0], w);
    OctetsSplit(digits);
    hide EscapeText, OctetsOf;
    TrailingReads(digits[1..], u);
  }

  lemma PartReads(p: Part, u: seq<Rune>)
    requires IsPart(p)
    ensures U.Content(PartText(p) + u) == U.Prepend(PartValue(p), U.Content(u))
  {
    match p
    case Itself(c) =>
      CharsMeant(c);
      UriIsAscii(c);
      assert ([c] + u)[1..] == u;
    case Octets(digits) =>
      OctetsRead(digits, u);
      hide EscapeText, U.EscapedChar, OctetsOf, IsPart;
  }

  lemma UriIsAscii(c: Rune)
    requires InUri(c)
    ensures c < 0x80 && c != '%' as int && Encode(c) == [c]
  {
    if !LetterOrDigit(c) {
      var i :| 0 <= i < |URI| && URI[i] as int == c;
      UriListed(i);
    }
  }

  /** No further character of a URI follows. */
  predicate Stops(rest: seq<Rune>) {
    !InUri(At(rest, 0)) && At(rest, 0) != '%' as int
  }

  lemma {:induction false} Reads(ps: seq<Part>, rest: seq<Rune>)
    requires AreParts(ps) && Stops(rest)
    ensures U.Content(Text(ps) + rest) == U.Uri(Value(ps), rest)
    decreases |ps|
  {
    if ps == [] {
      assert Text(ps) + rest == rest;
      CharsMeant(At(rest, 0));
    } else {
      var u := Text(ps[1..]) + rest;
      assert Text(ps) + rest == PartText(ps[0]) + u;
      Reads(ps[1..], rest);
      PartReads(ps[0], u);
    }
  }

  // ---- Only texts of parts are read ----

  /** One more octet in front. */
  lemma MoreOctet(d: (Rune, Rune), digits: seq<(Rune, Rune)>)
    requires Hex(d.0) && Hex(d.1) && Digits(digits)
    ensures var all := [d] + digits;
            && Digits(all) && OctetsOf(all)[1..] == OctetsOf(digits)
            && EscapeText(all) == ['%' as Rune, d.0, d.1] + EscapeText(digits)
  {
    var all := [d] + digits;
    assert all[1..] == digits;
    assert OctetsOf(all)[1..] == OctetsOf(digits);
  }

  lemma TakeEscape(t: seq<Rune>) returns (d: (Rune, Rune))
    requires U.AtOctet(t)
    ensures Hex(d.0) && Hex(d.1) && OctetOf(d) == U.Octet(t) && t == ['%' as Rune, d.0, d.1] + t[3..]
  {
    d := (t[1], t[2]);
  }

  lemma MoreText(d: (Rune, Rune), digits: seq<(Rune, Rune)>, t: seq<Rune>, u: seq<Rune>, rest: seq<Rune>)
    requires Hex(d.0) && Hex(d.1) && Digits(digits)
    requires t == ['%' as Rune, d.0, d.1] + u && u == EscapeText(digits) + rest
    ensures t == EscapeText([d] + digits) + rest
  {
    MoreOctet(d, digits);
    hide EscapeText, OctetsOf, Digits;
  }

  lemma {:induction false} TrailingFound(t: seq<Rune>, n: nat) returns (digits: seq<(Rune, Rune)>)
    requires U.Trailing(t, n).Uri?
    ensures |digits| == n && Digits(digits) && AllTrailing(OctetsOf(digits))
    ensures t == EscapeText(digits) + U.Trailing(t, n).rest
    decreases n
  {
    if n == 0 {
      digits := [];
    } else {
      assert U.AtOctet(t) && 0x80 <= U.Octet(t) < 0xC0 && U.Trailing(t, n).rest == U.Trailing(t[3..], n - 1).rest;
      hide U.Trailing, EscapeText;
      var d := TakeEscape(t);
      digits := TrailingFound(t[3..], n - 1);
      MoreText(d, digits, t, t[3..], U.Trailing(t[3..], n - 1).rest);
      MoreTrailing(d, digits);
      digits := [d] + digits;
    }
  }

  lemma MoreTrailing(d: (Rune, Rune), digits: seq<(Rune, Rune)>)
    requires Hex(d.0) && Hex(d.1) && Digits(digits) && AllTrailing(OctetsOf(digits)) && 0x80 <= OctetOf(d) < 0xC0
    ensures Digits([d] + digits) && AllTrailing(OctetsOf([d] + digits))
  {
    MoreOctet(d, digits);
    hide EscapeText;
    var all := [d] + digits;
    assert forall i | 0 < i < |all| :: OctetsOf(all)[i] == OctetsOf(all)[1..][i - 1];
  }

  lemma OctetsFound(t: seq<Rune>) returns (digits: seq<(Rune, Rune)>)
    requires U.EscapedChar(t).Uri?
    ensures IsPart(Octets(digits)) && t == EscapeText(digits) + U.EscapedChar(t).rest
  {
    var n := Width(U.Octet(t)) - 1;
    assert n >= 0 && U.Trailing(t[3..], n).Uri? && U.EscapedChar(t).rest == U.Trailing(t[3..], n).rest;
    hide U.EscapedChar, U.Trailing, EscapeText, Width;
    var d := TakeEscape(t);
    digits := TrailingFound(t[3..], n);
    MoreText(d, digits, t, t[3..], U.Trailing(t[3..], n).rest);
    MoreOctet(d, digits);
    digits := [d] + digits;
  }

  lemma PartFound(t: seq<Rune>) returns (p: Part, u: seq<Rune>)
    requires U.UriChar(At(t, 0)) && U.Content(t).Uri?
    ensures IsPart(p) && t == PartText(p) + u && |u| < |t|
  {
    CharsMeant(At(t, 0));
    if At(t, 0) == U.PERCENT {
      assert U.EscapedChar(t).Uri?;
      hide U.EscapedChar, U.Content, EscapeText, IsPart;
      var digits := OctetsFound(t);
      p, u := Octets(digits), U.EscapedChar(t).rest;
    } else {
      p, u := Itself(t[0]), t[1..];
    }
  }

  lemma {:induction false} PartsFound(t: seq<Rune>) returns (ps: seq<Part>)
    requires U.Content(t).Uri?
    ensures AreParts(ps) && t == Text(ps) + U.Content(t).rest && Stops(U.Content(t).rest)
    decreases |t|
  {
    CharsMeant(At(t, 0));
    if U.UriChar(At(t, 0)) {
      var p, u := PartFound(t);
      PartReads(p, u);
      hide U.Content, InUri, IsPart, PartText, Text;
      ps := PartsFound(u);
      MorePart(p, ps, u, U.Content(u).rest);
      ps := [p] + ps;
    } else {
      ps := [];
    }
  }

  lemma MorePart(p: Part, ps: seq<Part>, u: seq<Rune>, rest: seq<Rune>)
    requires IsPart(p) && AreParts(ps) && u == Text(ps) + rest
    ensures AreParts([p] + ps) && PartText(p) + u == Text([p] + ps) + rest
  {
    assert ([p] + ps)[1..] == ps;
  }

  /** Content is read exactly if it is the text of parts, as far as such parts go, and as their octets. */
  lemma ContentExactly(t: seq<Rune>, o: seq<Byte>, rest: seq<Rune>)
    ensures U.Content(t) == U.Uri(o, rest)
       <==> Stops(rest) && exists ps :: AreParts(ps) && t == Text(ps) + rest && Value(ps) == o
  {
    hide U.Content, Text, Value, IsPart, Stops;
    if U.Content(t) == U.Uri(o, rest) {
      var ps := PartsFound(t);
      Reads(ps, rest);
    }
    if Stops(rest) {
      forall ps | AreParts(ps) && t == Text(ps) + rest
        ensures U.Content(t) == U.Uri(Value(ps), rest)
      {
        Reads(ps, rest);
      }
    }
  }

  /** A tag is its handle without the first '!', and its content. There must be one of them. */
  lemma ReadsExactly(head: seq<Byte>, t: seq<Rune>, o: seq<Byte>, rest: seq<Rune>)
    ensures U.Scan(head, t) == U.Uri(o, rest)
       <==> Stops(rest) && exists ps :: AreParts(ps) && t == Text(ps) + rest && (head != [] || ps != [])
                                        && o == (if head == [] then [] else head[1..]) + Value(ps)
  {
    var p := if head == [] then [] else head[1..];
    assert |head| <= 1 ==> p == [];
    if U.Scan(head, t) == U.Uri(o, rest) {
      var ps := PartsFound(t);
      Reads(ps, rest);
      assert ps == [] ==> Text(ps) + rest == rest;
    }
    if Stops(rest) {
      forall ps | AreParts(ps) && t == Text(ps) + rest && (head != [] || ps != [])
        ensures U.Scan(head, t) == U.Uri(p + Value(ps), rest)
      {
        Reads(ps, rest);
        if ps != [] {
          TextSize(ps);
        }
      }
    }
  }

  lemma TextSize(ps: seq<Part>)
    requires ps != [] && AreParts(ps)
    ensures |Text(ps)| > 0
  {
    assert IsPart(ps[0]);
    assert |PartText(ps[0])| > 0;
  }
}
