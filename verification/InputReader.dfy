/** The reader as the class of buffers that readerc.go fills in place: raw bytes come in pieces
    from the read handler, are decoded as far as they go, and are stored as UTF-8. */
module InputReader {
  import opened Utf8
  import opened Transcoding

  const RAW_BUFFER_SIZE: nat := 512
  const BUFFER_SIZE: nat := 1536

  /** One answer of the read handler: how many bytes it would like to deliver, and whether it
      tells the end of the input together with the last bytes. */
  datatype Piece = Piece(size: nat, early: bool)

  function Zeros(n: nat): (r: seq<Rune>)
    ensures |r| == n && forall i | 0 <= i < n :: r[i] == 0
  {
    seq(n, _ => 0)
  }

  function ZeroBytes(n: nat): (r: seq<Byte>)
    ensures |r| == n && forall i | 0 <= i < n :: r[i] == 0
  {
    seq(n, _ => 0)
  }

  lemma ZerosMore(n: nat)
    ensures Zeros(n) + [0] == Zeros(n + 1)
    ensures ZeroBytes(n) + [0] == ZeroBytes(n + 1) && [0] + ZeroBytes(n) == ZeroBytes(n + 1)
  {
  }

  lemma Regroup<T>(a: seq<T>, b: seq<T>, c: seq<T>)
    ensures a + b + c == a + (b + c)
  {
  }

  /** A zero behind zeros may as well stand before them. */
  lemma ZeroBefore(e: seq<Byte>, n: nat)
    ensures e + ZeroBytes(n) + [0] == e + [0] + ZeroBytes(n)
  {
    ZerosMore(n);
    Regroup(e, ZeroBytes(n), [0]);
    Regroup(e, [0], ZeroBytes(n));
  }

  lemma {:induction false} EncodedLength(v: seq<Rune>)
    ensures |v| <= |EncodeAll(v)| <= 4 * |v|
  {
    if v != [] {
      EncodedLength(v[1..]);
    }
  }

  lemma EncodedMore(v: seq<Rune>, c: Rune)
    ensures EncodeAll(v + [c]) == EncodeAll(v) + Encode(c)
  {
    EncodeAllConcat(v, [c]);
    EncodeAllOne(c);
  }

  lemma EncodedInMore(v: seq<Rune>, c: Rune, e: Encoding)
    ensures EncodeAllIn(v + [c], e) == EncodeAllIn(v, e) + EncodeIn(c, e)
  {
    EncodeAllInConcat(v, [c], e);
    assert EncodeAllIn([c], e) == EncodeIn(c, e) + EncodeAllIn([], e);
  }

  /** The octets of a character, joined one by one. */
  lemma EncodedOne(s: seq<Byte>, c: Rune)
    requires c <= 0x7F
    ensures s + Encode(c) == s + [c] && |Encode(c)| == 1
  {
  }

  lemma EncodedTwo(s: seq<Byte>, c: Rune, lead: Byte, last: Byte)
    requires 0x7F < c <= 0x7FF && lead == 0xC0 + c / 64 && last == 0x80 + c % 64
    ensures s + Encode(c) == s + [lead] + [last] && |Encode(c)| == 2
  {
  }

  lemma EncodedThree(s: seq<Byte>, c: Rune, lead: Byte, next: Byte, last: Byte)
    requires 0x7FF < c <= 0xFFFF && lead == 0xE0 + c / 4096 && next == 0x80 + c / 64 % 64 && last == 0x80 + c % 64
    ensures s + Encode(c) == s + [lead] + [next] + [last] && |Encode(c)| == 3
  {
  }

  lemma EncodedFour(s: seq<Byte>, c: Rune, lead: Byte, second: Byte, third: Byte, last: Byte)
    requires 0xFFFF < c && lead == 0xF0 + c / 262144
    requires second == 0x80 + c / 4096 % 64 && third == 0x80 + c / 64 % 64 && last == 0x80 + c % 64
    ensures s + Encode(c) == s + [lead] + [second] + [third] + [last] && |Encode(c)| == 4
  {
  }

  class Reader {
    const input: seq<Byte>
    const pieces: nat -> Piece
    const rawBuffer: array<Byte>
    const buffer: array<Byte>
    var inputPos: nat
    var calls: nat
    var rawPos: nat
    var rawLen: nat
    var bufferPos: nat
    var bufferLen: nat
    var unread: nat
    var offset: nat
    var eof: bool
    var encoding: Encoding
    var error: bool
    /** The characters decoded so far; those in the buffer, with the NULs that stand for the end;
        and those that the scanner has taken. */
    ghost var decoded: seq<Rune>
    ghost var chars: seq<Rune>
    ghost var past: seq<Rune>
    ghost var nuls: nat
    /** NUL bytes behind the last character. */
    ghost var pad: nat

    ghost predicate Shape()
      reads this
    {
      && rawBuffer.Length == RAW_BUFFER_SIZE && buffer.Length == BUFFER_SIZE && rawBuffer != buffer
      && rawPos <= rawLen <= RAW_BUFFER_SIZE && bufferPos <= bufferLen <= BUFFER_SIZE
      && inputPos <= |input| && (eof ==> inputPos == |input|)
    }

    ghost function Raw(): seq<Byte>
      requires Shape()
      reads this, rawBuffer
    {
      rawBuffer[rawPos..rawLen]
    }

    /** The bytes that have not been decoded. */
    ghost function Remaining(): seq<Byte>
      requires Shape()
      reads this, rawBuffer
    {
      Raw() + input[inputPos..]
    }

    ghost predicate AtEnd()
      reads this
    {
      eof && rawPos == rawLen
    }

    /** What has been decoded and what remains make up the input. */
    ghost predicate Source()
      requires Shape()
      reads this, rawBuffer
    {
      && AllAllowed(decoded)
      && if encoding == AnyEncoding then decoded == [] && Remaining() == input
         else
           && encoding == Detect(input).encoding
           && input == input[..Detect(input).mark] + (EncodeAllIn(decoded, encoding) + Remaining())
    }

    /** The buffer holds the decoded characters that have not been taken. */
    ghost predicate Target()
      requires Shape()
      reads this, buffer
    {
      && past + chars == decoded + Zeros(nuls)
      && |chars| == unread && pad <= 8
      && (nuls > 0 || pad > 0 ==> AtEnd())
      && buffer[bufferPos..bufferLen] == EncodeAll(chars) + ZeroBytes(pad)
    }

    ghost predicate Valid()
      reads this, rawBuffer, buffer
    {
      Shape() && Source() && Target() && (encoding == AnyEncoding ==> nuls == 0 && pad == 0)
    }

    constructor (input: seq<Byte>, pieces: nat -> Piece)
      ensures Valid() && this.input == input && this.pieces == pieces && !error && past == [] && decoded == []
      ensures fresh(rawBuffer) && fresh(buffer)
    {
      this.input, this.pieces := input, pieces;
      rawBuffer := new Byte[RAW_BUFFER_SIZE];
      buffer := new Byte[BUFFER_SIZE];
      inputPos, calls, rawPos, rawLen, bufferPos, bufferLen, unread, offset := 0, 0, 0, 0, 0, 0, 0, 0;
      eof, encoding, error := false, AnyEncoding, false;
      decoded, chars, past, nuls, pad := [], [], [], 0, 0;
    }

    // ---- The raw buffer ----

    method PutRaw(b: Byte)
      requires Shape() && rawLen < RAW_BUFFER_SIZE
      modifies this`rawLen, rawBuffer
      ensures Shape() && Raw() == old(Raw()) + [b] && rawLen == old(rawLen) + 1
    {
      rawBuffer[rawLen] := b;
      rawLen := rawLen + 1;
    }

    /** The read handler copies up to `max` bytes behind those in the raw buffer; at least one
        if there are any. */
    method Read(max: nat)
      requires Shape() && !eof && max == RAW_BUFFER_SIZE - rawLen && max > 0
      modifies this`inputPos, this`calls, this`rawLen, this`eof, rawBuffer
      ensures Shape() && Remaining() == old(Remaining())
      ensures inputPos > old(inputPos) || (eof && inputPos == old(inputPos))
      ensures |Raw()| >= |old(Raw())|
    {
      var available := |input| - inputPos;
      if available == 0 {
        eof := true;
        return;
      }
      var piece := pieces(calls);
      var n := if piece.size == 0 then 1 else piece.size;
      n := if n > max then max else n;
      n := if n > available then available else n;
      RestMoved(Raw(), input, inputPos, n);
      CopyPiece(n);
      inputPos := inputPos + n;
      calls := calls + 1;
      eof := n == available && piece.early;
    }

    /** Copy the next `n` bytes of the input into the raw buffer. */
    method CopyPiece(n: nat)
      requires Shape() && n <= RAW_BUFFER_SIZE - rawLen && n <= |input| - inputPos
      modifies this`rawLen, rawBuffer
      ensures Shape() && rawLen == old(rawLen) + n && Raw() == old(Raw()) + input[inputPos..inputPos + n]
    {
      ghost var raw := Raw();
      var start := rawLen;
      var i := 0;
      while i < n
        invariant 0 <= i <= n && rawLen == start + i && Shape()
        invariant Raw() == raw + input[inputPos..inputPos + i]
      {
        ghost var so := input[inputPos..inputPos + i];
        PutRaw(input[inputPos + i]);
        assert input[inputPos..inputPos + i + 1] == so + [input[inputPos + i]];
        assert raw + so + [input[inputPos + i]] == raw + (so + [input[inputPos + i]]);
        i := i + 1;
      }
    }

    /** Move the remaining bytes to the beginning of the raw buffer. */
    method CompactRaw()
      requires Shape()
      modifies this`rawPos, this`rawLen, rawBuffer
      ensures Shape() && Raw() == old(Raw()) && rawPos == 0 && rawLen == old(rawLen) - old(rawPos)
    {
      if rawPos > 0 && rawPos < rawLen {
        var i := 0;
        while i < rawLen - rawPos
          invariant 0 <= i <= rawLen - rawPos && rawPos == old(rawPos) && rawLen == old(rawLen)
          invariant forall j | 0 <= j < i :: rawBuffer[j] == old(rawBuffer[rawPos + j])
          invariant forall j | rawPos + i <= j < rawLen :: rawBuffer[j] == old(rawBuffer[j])
        {
          rawBuffer[i] := rawBuffer[rawPos + i];
          i := i + 1;
        }
        assert rawBuffer[..rawLen - rawPos] == old(rawBuffer[rawPos..rawLen]);
      }
      rawLen := rawLen - rawPos;
      rawPos := 0;
    }

    /** yaml_parser_update_raw_buffer. */
    method UpdateRawBuffer()
      requires Shape()
      modifies this`inputPos, this`calls, this`rawPos, this`rawLen, this`eof, rawBuffer
      ensures Shape() && Remaining() == old(Remaining())
      ensures if old(eof) then eof && inputPos == old(inputPos) && Raw() == old(Raw())
              else if old(rawPos) == 0 && old(rawLen) == RAW_BUFFER_SIZE then inputPos == old(inputPos) && !eof
              else inputPos > old(inputPos) || (inputPos == old(inputPos) && eof)
      ensures |Raw()| >= |old(Raw())|
    {
      if rawPos == 0 && rawLen == RAW_BUFFER_SIZE { return; }
      if eof { return; }
      CompactRaw();
      Read(RAW_BUFFER_SIZE - rawLen);
    }

    /** Have three bytes in the raw buffer, or the end of the input. */
    method FillRaw()
      requires Shape() && pad == 0 && nuls == 0
      modifies this`inputPos, this`calls, this`rawPos, this`rawLen, this`eof, rawBuffer
      ensures Shape() && Remaining() == old(Remaining()) && (|Raw()| >= 3 || eof)
    {
      while !eof && rawLen - rawPos < 3
        invariant Shape() && Remaining() == old(Remaining())
        decreases |input| - inputPos, !eof
      {
        UpdateRawBuffer();
      }
    }

    /** Compare the raw bytes with the byte order marks. */
    method MatchMark() returns (d: Detected)
      requires Shape()
      ensures d == Detect(Raw())
    {
      ghost var raw := Raw();
      var available := rawLen - rawPos;
      if available >= 2 && rawBuffer[rawPos] == 0xFF && rawBuffer[rawPos + 1] == 0xFE {
        d := Detected(Utf16LEEncoding, 2);
      } else if available >= 2 && rawBuffer[rawPos] == 0xFE && rawBuffer[rawPos + 1] == 0xFF {
        d := Detected(Utf16BEEncoding, 2);
      } else if available >= 3 && rawBuffer[rawPos] == 0xEF && rawBuffer[rawPos + 1] == 0xBB && rawBuffer[rawPos + 2] == 0xBF {
        d := Detected(Utf8Encoding, 3);
      } else {
        d := Detected(Utf8Encoding, 0);
      }
      if available >= 2 {
        assert raw[0] == rawBuffer[rawPos] && raw[1] == rawBuffer[rawPos + 1];
      }
      if available >= 3 {
        assert raw[2] == rawBuffer[rawPos + 2];
      }
    }

    /** yaml_parser_determine_encoding. */
    method DetermineEncoding()
      requires Valid() && encoding == AnyEncoding
      modifies this`inputPos, this`calls, this`rawPos, this`rawLen, this`eof, this`encoding, this`offset, rawBuffer
      ensures Valid() && encoding != AnyEncoding
    {
      hide Detect, EncodeAll, Zeros, ZeroBytes, EncodeAllIn, AllAllowed;
      FillRaw();
      var d := MatchMark();
      MarkOfPrefix(Raw(), input[inputPos..], input);
      SkipMark(d);
    }

    method SkipMark(d: Detected)
      requires Valid() && encoding == AnyEncoding && d == Detect(input) && d.mark <= |Raw()|
      modifies this`rawPos, this`encoding, this`offset
      ensures Valid() && encoding != AnyEncoding
    {
      hide Detect, EncodeAll, Zeros, ZeroBytes, AllAllowed;
      ghost var raw := Raw();
      encoding := d.encoding;
      rawPos := rawPos + d.mark;
      offset := offset + d.mark;
      assert Raw() == raw[d.mark..];
      AfterMark(raw, input[inputPos..], input, d.mark);
      assert EncodeAllIn(decoded, encoding) + Remaining() == Remaining();
    }

    // ---- Decoding ----

    method DecodeUtf8() returns (r: One)
      requires Shape() && rawPos < rawLen
      ensures r == Decode8(Raw())
    {
      ghost var raw := Raw();
      var octet := rawBuffer[rawPos];
      var width;
      var value: int;
      if octet < 0x80 {
        width, value := 1, octet;
      } else if 0xC0 <= octet < 0xE0 {
        width, value := 2, octet % 32;
      } else if 0xE0 <= octet < 0xF0 {
        width, value := 3, octet % 16;
      } else if 0xF0 <= octet < 0xF8 {
        width, value := 4, octet % 8;
      } else {
        return Wrong;
      }
      if width > rawLen - rawPos {
        return Short;
      }
      var k := 1;
      while k < width
        invariant 1 <= k <= width && Trailing(raw, 1, width, LeadBits(raw[0])) == Trailing(raw, k, width, value)
      {
        octet := rawBuffer[rawPos + k];
        assert octet == raw[k];
        if octet < 0x80 || octet >= 0xC0 {
          return Wrong;
        }
        value := value * 64 + octet % 64;
        k := k + 1;
      }
      if !LongEnough(width, value) || !IsScalar(value) {
        return Wrong;
      }
      r := One(value, width);
    }

    method DecodeUtf16(little: bool) returns (r: One)
      requires Shape() && rawPos < rawLen
      ensures r == Decode16(Raw(), little)
    {
      ghost var raw := Raw();
      var low, high := if little then 0 else 1, if little then 1 else 0;
      if rawLen - rawPos < 2 {
        return Short;
      }
      var lowByte: int := rawBuffer[rawPos + low];
      var highByte: int := rawBuffer[rawPos + high];
      var value := lowByte + highByte * 256;
      assert value == UnitAt(raw, 0, little);
      if 0xDC00 <= value < 0xE000 {
        return Wrong;
      }
      if 0xD800 <= value < 0xDC00 {
        if rawLen - rawPos < 4 {
          return Short;
        }
        lowByte, highByte := rawBuffer[rawPos + low + 2], rawBuffer[rawPos + high + 2];
        var value2 := lowByte + highByte * 256;
        assert value2 == UnitAt(raw, 2, little);
        if value2 < 0xDC00 || value2 >= 0xE000 {
          return Wrong;
        }
        return One(0x10000 + value % 1024 * 1024 + value2 % 1024, 4);
      }
      r := One(value, 2);
    }

    method DecodeCharacter() returns (r: One)
      requires Shape() && rawPos < rawLen && encoding != AnyEncoding
      ensures r == DecodeOne(Raw(), encoding)
    {
      match encoding
      case Utf16LEEncoding => r := DecodeUtf16(true);
      case Utf16BEEncoding => r := DecodeUtf16(false);
      case _ => r := DecodeUtf8();
    }

    method PutByte(b: Byte)
      requires Shape() && bufferLen < BUFFER_SIZE
      modifies this`bufferLen, buffer
      ensures Shape() && bufferLen == old(bufferLen) + 1
      ensures buffer[bufferPos..bufferLen] == old(buffer[bufferPos..bufferLen]) + [b]
    {
      buffer[bufferLen] := b;
      bufferLen := bufferLen + 1;
    }

    /** Put a character into the buffer, in UTF-8. */
    method PutCharacter(c: Rune)
      requires Shape() && bufferLen + 4 <= BUFFER_SIZE
      modifies this`bufferLen, buffer
      ensures Shape() && buffer[bufferPos..bufferLen] == old(buffer[bufferPos..bufferLen]) + Encode(c)
      ensures bufferLen == old(bufferLen) + |Encode(c)|
    {
      hide Encode;
      ghost var s := buffer[bufferPos..bufferLen];
      var value: int := c;
      if value <= 0x7F {
        EncodedOne(s, c);
        PutByte(value);
      } else if value <= 0x7FF {
        var lead, last := 0xC0 + value / 64, 0x80 + value % 64;
        EncodedTwo(s, c, lead, last);
        PutByte(lead);
        PutByte(last);
      } else if value <= 0xFFFF {
        var lead, next, last := 0xE0 + value / 4096, 0x80 + value / 64 % 64, 0x80 + value % 64;
        EncodedThree(s, c, lead, next, last);
        PutByte(lead);
        PutByte(next);
        PutByte(last);
      } else {
        var lead, second, third, last := 0xF0 + value / 262144, 0x80 + value / 4096 % 64, 0x80 + value / 64 % 64, 0x80 + value % 64;
        EncodedFour(s, c, lead, second, third, last);
        PutByte(lead);
        PutByte(second);
        PutByte(third);
        PutByte(last);
      }
    }

    /** Move the unread characters to the beginning of the buffer. */
    method CompactBuffer()
      requires Valid()
      modifies this`bufferPos, this`bufferLen, buffer
      ensures Valid() && bufferPos == 0 && bufferLen == old(bufferLen) - old(bufferPos)
    {
      hide EncodeAllIn, Detect, EncodeAll, AllAllowed;
      MoveBuffer();
    }

    method MoveBuffer()
      requires Shape()
      modifies this`bufferPos, this`bufferLen, buffer
      ensures Shape() && buffer[bufferPos..bufferLen] == old(buffer[bufferPos..bufferLen])
      ensures bufferPos == 0 && bufferLen == old(bufferLen) - old(bufferPos)
    {
      ghost var s := buffer[bufferPos..bufferLen];
      if bufferPos > 0 && bufferPos < bufferLen {
        var i := 0;
        while i < bufferLen - bufferPos
          invariant 0 <= i <= bufferLen - bufferPos && bufferPos == old(bufferPos) && bufferLen == old(bufferLen)
          invariant forall j | 0 <= j < i :: buffer[j] == old(buffer[bufferPos + j])
          invariant forall j | bufferPos + i <= j < bufferLen :: buffer[j] == old(buffer[j])
        {
          buffer[i] := buffer[bufferPos + i];
          i := i + 1;
        }
        assert buffer[..bufferLen - bufferPos] == s;
        bufferLen := bufferLen - bufferPos;
        bufferPos := 0;
      } else if bufferPos == bufferLen {
        bufferLen := 0;
        bufferPos := 0;
      }
      assert buffer[bufferPos..bufferLen] == s;
    }

    /** The input is malformed where the reader is. */
    lemma MalformedHere()
      requires Shape() && Source() && encoding != AnyEncoding && rawPos < rawLen
      requires match DecodeOne(Raw(), encoding)
               case One(value, _) => !Allowed(value)
               case Short => eof
               case Wrong => true
      ensures StreamText(input).Malformed?
    {
      hide DecodeOne, Detect, EncodeAllIn;
      var d := Detect(input);
      var rest := Remaining();
      if !DecodeOne(Raw(), encoding).Short? {
        MoreBytes(Raw(), input[inputPos..], encoding);
      } else {
        assert rest == Raw();
      }
      TextAfter(decoded, rest, encoding);
      CutMark(input, d.mark, EncodeAllIn(decoded, encoding) + rest);
    }

    /** The raw bytes have been decoded to the end of the input. */
    lemma WellFormedAtEnd()
      requires Shape() && Source() && encoding != AnyEncoding && AtEnd()
      ensures StreamText(input) == Text(decoded)
    {
      hide DecodeOne, Detect, EncodeAllIn;
      assert Remaining() == [];
      TextAfter(decoded, [], encoding);
      assert decoded + [] == decoded;
      CutMark(input, Detect(input).mark, EncodeAllIn(decoded, encoding) + []);
    }

    /** Account for a character of so many raw bytes. */
    ghost method Decoded(value: Rune, width: nat)
      requires Shape() && Source() && encoding != AnyEncoding && rawPos < rawLen
      requires DecodeOne(Raw(), encoding) == One(value, width) && Allowed(value)
      modifies this`decoded
      ensures decoded == old(decoded) + [value] && AllAllowed(decoded) && width <= |Raw()|
      ensures input == input[..Detect(input).mark] + (EncodeAllIn(decoded, encoding) + (Raw()[width..] + input[inputPos..]))
    {
      hide DecodeOne, Detect, EncodeAllIn, EncodeIn;
      ghost var raw, rest := Raw(), input[inputPos..];
      DecodedIsEncoded(raw, encoding);
      EncodedInMore(decoded, value, encoding);
      ghost var e, w := EncodeAllIn(decoded, encoding), EncodeIn(value, encoding);
      assert raw == w + raw[width..];
      assert e + (w + raw[width..] + rest) == e + w + (raw[width..] + rest);
      decoded := decoded + [value];
    }

    /** Decode one character of the raw buffer into the buffer. Without `more`, the raw buffer holds
        only the beginning of a character. */
    method DecodeNext() returns (ok: bool, more: bool)
      requires Valid() && !error && encoding != AnyEncoding && rawPos < rawLen && bufferLen + 4 <= BUFFER_SIZE
      modifies this`rawPos, this`offset, this`bufferLen, this`unread, this`error, this`decoded, this`chars, buffer
      ensures Shape() && (ok ==> Valid() && !error) && (!ok ==> error && StreamText(input).Malformed?)
      ensures ok && !more ==> !eof && Raw() == old(Raw()) && |Raw()| <= 3
      ensures rawPos >= old(rawPos) && 2 * (bufferLen - old(bufferLen)) <= 3 * (rawPos - old(rawPos))
      ensures ok && more ==> rawPos > old(rawPos)
      ensures old(chars) <= chars && unread >= old(unread)
    {
      ok, more := true, true;
      var r := DecodeCharacter();
      hide DecodeOne, StreamText, Detect, EncodeAllIn, EncodeAll, Encode, EncodeIn, Allowed;
      if r.Short? && !eof {
        ShortIsShort(Raw(), encoding);
        more := false;
        return;
      }
      if !r.One? || !Allowed(r.value) {
        MalformedHere();
        error := true;
        ok := false;
        return;
      }
      DecodedIsEncoded(Raw(), encoding);
      Expansion(r.value, encoding);
      hide Source, Target;
      Store(r.value, r.width);
    }

    /** Move the raw pointers past a character and put it into the buffer. */
    method Store(value: Rune, width: nat)
      requires Valid() && encoding != AnyEncoding && rawPos < rawLen && bufferLen + 4 <= BUFFER_SIZE
      requires DecodeOne(Raw(), encoding) == One(value, width) && Allowed(value)
      modifies this`rawPos, this`offset, this`bufferLen, this`unread, this`decoded, this`chars, buffer
      ensures Valid() && rawPos == old(rawPos) + width && bufferLen == old(bufferLen) + |Encode(value)|
      ensures chars == old(chars) + [value] && unread == old(unread) + 1
    {
      hide DecodeOne, Detect, EncodeAllIn, EncodeAll, Encode, EncodeIn, Allowed, Zeros, ZeroBytes;
      EncodedMore(chars, value);
      Regroup(past, chars, [value]);
      NoZeros();
      ghost var raw := Raw();
      Decoded(value, width);
      rawPos := rawPos + width;
      offset := offset + width;
      assert Raw() == raw[width..];
      PutCharacter(value);
      unread := unread + 1;
      chars := chars + [value];
    }

    /** Before the end nothing stands for it. */
    lemma NoZeros()
      requires Valid() && rawPos < rawLen
      ensures pad == 0 && nuls == 0 && ZeroBytes(0) == [] && Zeros(0) == []
      ensures past + chars == decoded && buffer[bufferPos..bufferLen] == EncodeAll(chars)
      ensures forall d: seq<Rune> :: d + Zeros(0) == d
      ensures forall e: seq<Byte> :: e + ZeroBytes(0) == e
    {
      hide EncodeAll;
      assert Zeros(0) == [];
      assert ZeroBytes(0) == [];
    }

    /** Decode what the raw buffer holds. */
    method DecodeRaw() returns (ok: bool)
      requires Valid() && !error && encoding != AnyEncoding && bufferPos == 0 && bufferLen <= 36
      modifies this`rawPos, this`offset, this`bufferLen, this`unread, this`error, this`decoded, this`chars, buffer
      ensures Shape() && (ok ==> Valid() && !error) && (!ok ==> error && StreamText(input).Malformed?)
      ensures ok ==> rawPos == rawLen || (!eof && |Raw()| <= 3)
      ensures bufferLen <= 36 + 768 && old(chars) <= chars && unread >= old(unread)
    {
      hide DecodeOne, StreamText, Source, Target;
      ok := true;
      while rawPos != rawLen
        invariant Valid() && !error && ok && encoding != AnyEncoding
        invariant rawPos >= old(rawPos) && 2 * (bufferLen - old(bufferLen)) <= 3 * (rawPos - old(rawPos))
        invariant old(chars) <= chars && unread >= old(unread)
        decreases rawLen - rawPos
      {
        var more;
        ok, more := DecodeNext();
        if !ok || !more { return; }
      }
    }

    /** A NUL stands for the end of the input. */
    method PutEnd()
      requires Valid() && AtEnd() && encoding != AnyEncoding && bufferLen < BUFFER_SIZE
      modifies this`bufferLen, this`unread, this`chars, this`nuls, buffer
      ensures Valid() && bufferLen == old(bufferLen) + 1 && unread == old(unread) + 1 && old(chars) <= chars
    {
      hide EncodeAll, Zeros, ZeroBytes, EncodeAllIn, Detect;
      EncodedMore(chars, 0);
      ZerosMore(nuls);
      ZeroBefore(EncodeAll(chars), pad);
      Regroup(past, chars, [0]);
      Regroup(decoded, Zeros(nuls), [0]);
      PutByte(0);
      unread := unread + 1;
      chars := chars + [0];
      nuls := nuls + 1;
    }

    /** NUL bytes up to the length that was asked for. */
    method PadTo(length: nat)
      requires Valid() && encoding != AnyEncoding && length <= 8 && bufferPos == 0 && (bufferLen < length ==> AtEnd())
      modifies this`bufferLen, this`pad, buffer
      ensures Valid() && bufferLen >= length && bufferLen >= old(bufferLen)
    {
      hide EncodeAll;
      while bufferLen < length
        invariant Valid() && bufferLen >= old(bufferLen)
        invariant bufferLen < length ==> AtEnd()
      {
        ZerosMore(pad);
        PutByte(0);
        assert EncodeAll(chars) + ZeroBytes(pad) + [0] == EncodeAll(chars) + (ZeroBytes(pad) + [0]);
        pad := pad + 1;
      }
    }

    /** Fill the buffer until it holds `length` characters or the input ends. */
    method Fill(length: nat) returns (ok: bool)
      requires Valid() && !error && encoding != AnyEncoding && bufferPos == 0 && length <= 8
      modifies this`inputPos, this`calls, this`rawPos, this`rawLen, this`eof, this`offset, this`bufferLen, this`unread,
               this`error, this`decoded, this`chars, this`nuls, rawBuffer, buffer
      ensures (ok ==> Valid() && !error) && (!ok ==> error && StreamText(input).Malformed?)
      ensures ok ==> unread >= length || AtEnd()
      ensures old(chars) <= chars
    {
      hide StreamText, Source, Target;
      ok := true;
      var first := true;
      while unread < length
        invariant Valid() && !error && ok && old(chars) <= chars
        invariant first || (!eof && |Raw()| <= 3)
        decreases |input| - inputPos, !eof, first
      {
        TargetLength();
        if !first || rawPos == rawLen {
          RefillRaw();
        }
        first := false;
        ok := DecodeRaw();
        if !ok { return; }
        if eof {
          PutEnd();
          return;
        }
      }
    }

    /** UpdateRawBuffer does not touch what has been decoded. */
    method RefillRaw()
      requires Valid() && encoding != AnyEncoding && |Raw()| <= 3
      modifies this`inputPos, this`calls, this`rawPos, this`rawLen, this`eof, rawBuffer
      ensures Valid()
      ensures if old(eof) then eof && inputPos == old(inputPos) else inputPos > old(inputPos) || (inputPos == old(inputPos) && eof)
    {
      hide EncodeAllIn, EncodeAll;
      UpdateRawBuffer();
    }

    lemma TargetLength()
      requires Valid()
      ensures unread <= bufferLen - bufferPos <= 4 * unread + pad && pad <= 8
    {
      EncodedLength(chars);
      assert |buffer[bufferPos..bufferLen]| == bufferLen - bufferPos;
    }

    /** yaml_parser_update_buffer: have `length` bytes to read; at the end of the input, NULs stand
        in. It fails only on malformed input. */
    method UpdateBuffer(length: nat) returns (ok: bool)
      requires Valid() && !error && length <= 8
      modifies this, rawBuffer, buffer
      ensures past == old(past) && (ok ==> old(chars) <= chars)
      ensures ok ==> Valid() && !error && bufferLen - bufferPos >= length && (unread >= length || AtEnd())
      ensures !ok ==> error && forall v :: !StreamOf(input, v)
    {
      hide StreamText, StreamOf, Source, Target;
      OneText(input);
      TargetLength();
      if unread >= length {
        return true;
      }
      if encoding == AnyEncoding {
        DetermineEncoding();
      }
      CompactBuffer();
      ok := Fill(length);
      if !ok { return; }
      TargetLength();
      PadTo(length);
    }

    /** The scanner takes a character: buffer_pos goes by its width. */
    method Take()
      requires Valid() && unread > 0
      modifies this`bufferPos, this`unread, this`chars, this`past
      ensures Valid() && unread == old(unread) - 1
      ensures past == old(past) + [old(chars)[0]] && chars == old(chars)[1..]
    {
      hide EncodeAllIn, Detect, Zeros, ZeroBytes, AllAllowed;
      ghost var all := buffer[bufferPos..bufferLen];
      FirstEncoded(chars, ZeroBytes(pad), all);
      assert all[0] == buffer[bufferPos];
      var w := Width(buffer[bufferPos]);
      assert past + chars == past + [chars[0]] + chars[1..];
      past := past + [chars[0]];
      chars := chars[1..];
      bufferPos := bufferPos + w;
      unread := unread - 1;
      assert buffer[bufferPos..bufferLen] == all[w..];
    }

    /** Every character that the scanner gets from a stream is the one at its place in the text, and
        NUL after the text, whatever pieces the stream came in. */
    lemma Delivers(v: seq<Rune>)
      requires Valid() && StreamOf(input, v)
      ensures forall i | 0 <= i < |past| :: past[i] == if i < |v| then v[i] else 0
    {
      hide Detect, EncodeAll, EncodeAllIn, TextOf, StreamOf, StreamText;
      AcceptsExactly(input, v);
      ghost var all := past + chars;
      assert forall i | 0 <= i < |past| :: past[i] == all[i];
      if encoding == AnyEncoding {
        assert all == decoded + Zeros(0);
      } else {
        DecodedIsPrefix(v);
        if nuls > 0 {
          WellFormedAtEnd();
        }
      }
    }

    lemma DecodedIsPrefix(v: seq<Rune>)
      requires Valid() && StreamText(input) == Text(v) && encoding != AnyEncoding
      ensures decoded <= v
    {
      hide DecodeOne, Detect, EncodeAllIn;
      TextAfter(decoded, Remaining(), encoding);
      CutMark(input, Detect(input).mark, EncodeAllIn(decoded, encoding) + Remaining());
    }
  }

  /** Two readers of the same stream, however it is cut into pieces, hand the same characters to the
      scanner. */
  lemma ChunksDoNotMatter(a: Reader, b: Reader, v: seq<Rune>)
    requires a.Valid() && b.Valid() && a.input == b.input && StreamOf(a.input, v)
    ensures forall i | 0 <= i < |a.past| && i < |b.past| :: a.past[i] == b.past[i]
  {
    hide StreamOf;
    a.Delivers(v);
    b.Delivers(v);
  }

  lemma FirstEncoded(chars: seq<Rune>, zeros: seq<Byte>, all: seq<Byte>)
    requires chars != [] && all == EncodeAll(chars) + zeros
    ensures all != [] && Width(all[0]) <= |all| && all[Width(all[0])..] == EncodeAll(chars[1..]) + zeros
  {
    hide Encode;
    var e := Encode(chars[0]);
    assert all == e + (EncodeAll(chars[1..]) + zeros);
    assert all[0] == e[0];
  }

  lemma CutMark(input: seq<Byte>, n: nat, rest: seq<Byte>)
    requires n <= |input| && input == input[..n] + rest
    ensures input[n..] == rest
  {
  }

  /** UTF-8 takes at most half as much again as the raw bytes. */
  lemma Expansion(c: Rune, e: Encoding)
    ensures 2 * |Encode(c)| <= 3 * |EncodeIn(c, e)|
  {
  }

  lemma RestMoved(raw: seq<Byte>, input: seq<Byte>, at: nat, n: nat)
    requires at + n <= |input|
    ensures raw + input[at..] == raw + input[at..at + n] + input[at + n..]
  {
    assert input[at..] == input[at..at + n] + input[at + n..];
  }

  lemma MarkOfPrefix(raw: seq<Byte>, rest: seq<Byte>, input: seq<Byte>)
    requires input == raw + rest && (|raw| >= 3 || rest == [])
    ensures Detect(raw) == Detect(input)
  {
  }

  lemma AfterMark(raw: seq<Byte>, rest: seq<Byte>, input: seq<Byte>, n: nat)
    requires input == raw + rest && n <= |raw|
    ensures input == input[..n] + (raw[n..] + rest)
  {
  }
}
