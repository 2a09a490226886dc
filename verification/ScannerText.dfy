/** The character level of the scanner: the buffer, the mark, and the functions of scannerc.go
    that read scalars from it. */
module ScannerText {
  import opened Utf8
  import opened CharClass
  import opened FlowScalar
  import T = TagUri
  import B = BlockScalar
  import PL = PlainScalar
  import opened ScalarText

  /** After `k` ASCII characters the buffer goes on with the rest of the text. */
  lemma {:induction false} AsciiRun(b: seq<Byte>, i: nat, t: seq<Rune>, k: nat)
    requires Rest(b, i, t) && k <= |t| && forall j | 0 <= j < k :: t[j] < 0x80
    ensures Rest(b, i + k, t[k..])
    decreases k
  {
    if k > 0 {
      RestHolds(b, i, t);
      AsciiRun(b, i + 1, t[1..], k - 1);
      assert t[1..][k - 1..] == t[k..];
    }
  }

  lemma EncodeAllPush(s: seq<Byte>, v: seq<Rune>, c: Rune)
    requires s == EncodeAll(v)
    ensures s + Encode(c) == EncodeAll(v + [c])
  {
    EncodeAllConcat(v, [c]);
    EncodeAllOne(c);
  }

  class Scanner {
    /** The whole text with the NUL that the reader puts at its end. */
    var buffer: seq<Byte>
    var pos: nat
    var index: nat
    var line: nat
    var column: nat
    /** The characters from `pos` on. The last one is the NUL. */
    ghost var rest: seq<Rune>

    /** A scanner somewhere in a text. */
    constructor (buffer: seq<Byte>, pos: nat, column: nat, ghost rest: seq<Rune>)
      requires Rest(buffer, pos, rest) && rest != [] && rest[|rest| - 1] == 0
      ensures Valid() && this.buffer == buffer && this.rest == rest && this.column == column
    {
      this.buffer, this.pos, index, line, this.column := buffer, pos, 0, 0, column;
      this.rest := rest;
    }

    ghost predicate Valid()
      reads this
    {
      Rest(buffer, pos, rest) && rest != [] && rest[|rest| - 1] == 0
    }

    lemma Look()
      requires Valid()
      ensures Holds(buffer, pos, rest[0])
      ensures rest[0] != 0 ==> |rest| > 1
      ensures 0 < rest[0] < 0x80 ==> Holds(buffer, pos + 1, rest[1])
    {
      RestHolds(buffer, pos, rest);
      if 0 < rest[0] < 0x80 {
        RestHolds(buffer, pos + 1, rest[1..]);
      }
    }

    // buffer[buffer_pos] and the character classes there

    function Peek(): (b: Byte)
      requires Valid()
      reads this
      ensures b < 0x80 ==> rest[0] == b
      ensures rest[0] < 0x80 ==> rest[0] == b
    {
      Look();
      BytesAgree(buffer, pos, rest[0]);
      buffer[pos]
    }

    /** buffer[buffer_pos + 1], after an ASCII character. */
    function Peek1(): (b: Byte)
      requires Valid() && 0 < rest[0] < 0x80
      reads this
      ensures |rest| > 1
      ensures b < 0x80 ==> rest[1] == b
      ensures rest[1] < 0x80 ==> rest[1] == b
    {
      Look();
      BytesAgree(buffer, pos + 1, rest[1]);
      buffer[pos + 1]
    }

    predicate AtBreak1()
      requires Valid() && 0 < rest[0] < 0x80
      reads this
      ensures |rest| > 1 && (AtBreak1() <==> Break(rest[1]))
    {
      Look();
      BytesAgree(buffer, pos + 1, rest[1]);
      IsBreak(buffer, pos + 1)
    }

    predicate AtBreak()
      requires Valid()
      reads this
      ensures AtBreak() <==> Break(rest[0])
    {
      Look();
      BytesAgree(buffer, pos, rest[0]);
      IsBreak(buffer, pos)
    }

    predicate AtBlank()
      requires Valid()
      reads this
      ensures AtBlank() <==> Blank(rest[0])
    {
      Look();
      BytesAgree(buffer, pos, rest[0]);
      IsBlank(buffer, pos)
    }

    predicate AtBlankZ()
      requires Valid()
      reads this
      ensures AtBlankZ() <==> BlankZ(rest[0])
    {
      Look();
      BytesAgree(buffer, pos, rest[0]);
      IsBlankZ(buffer, pos)
    }

    predicate AtBreakZ()
      requires Valid()
      reads this
      ensures AtBreakZ() <==> Break(rest[0]) || rest[0] == 0
    {
      Look();
      BytesAgree(buffer, pos, rest[0]);
      IsBreakZ(buffer, pos)
    }

    /** skip: move over one character. */
    method Skip()
      requires Valid() && rest[0] != 0
      modifies this
      ensures Valid() && rest == old(rest)[1..] && buffer == old(buffer)
      ensures column == old(column) + 1 && index == old(index) + 1 && line == old(line)
    {
      hide From;
      RestHolds(buffer, pos, rest);
      HoldsBytes(buffer, pos, rest[0]);
      index := index + 1;
      column := column + 1;
      pos := pos + Width(buffer[pos]);
      rest := rest[1..];
    }

    /** read: copy one character to `s`. */
    method Read(s: seq<Byte>) returns (r: seq<Byte>)
      requires Valid() && rest[0] != 0
      modifies this
      ensures Valid() && rest == old(rest)[1..] && buffer == old(buffer)
      ensures column == old(column) + 1 && index == old(index) + 1 && line == old(line)
      ensures r == s + Encode(old(rest)[0])
    {
      hide From;
      RestHolds(buffer, pos, rest);
      HoldsBytes(buffer, pos, rest[0]);
      var w := Width(buffer[pos]);
      r := s + buffer[pos..pos + w];
      pos := pos + w;
      index := index + 1;
      column := column + 1;
      rest := rest[1..];
    }

    /** read_line: copy a line break to `s`, normalized; do nothing when there is none. */
    method ReadLine(s: seq<Byte>) returns (r: seq<Byte>)
      requires Valid()
      modifies this
      ensures Valid() && buffer == old(buffer)
      ensures Break(old(rest)[0]) ==>
                && r == s + EncodeAll(BreakText(old(rest))) && rest == old(rest)[BreakLen(old(rest))..]
                && column == 0 && line == old(line) + 1 && index == old(index) + BreakLen(old(rest))
      ensures !Break(old(rest)[0]) ==>
                r == s && rest == old(rest) && column == old(column) && line == old(line) && index == old(index)
    {
      hide From;
      Look();
      HoldsBytes(buffer, pos, rest[0]);
      RestHolds(buffer, pos, rest);
      if AtBreak() {
        EncodeAllOne(LF);
        EncodeAllOne(rest[0]);
      }
      if Peek() == 0x0D && Peek1() == 0x0A {
        RestHolds(buffer, pos + 1, rest[1..]);
        assert rest[2..] == rest[1..][1..];
        r := s + [0x0A];
        pos := pos + 2;
        index := index + 1;
        rest := rest[2..];
      } else if Peek() == 0x0D || Peek() == 0x0A {
        r := s + [0x0A];
        pos := pos + 1;
        rest := rest[1..];
      } else if AtBreak() && buffer[pos] == 0xC2 {
        r := s + [0x0A];
        pos := pos + 2;
        rest := rest[1..];
      } else if AtBreak() {
        r := s + buffer[pos..pos + 3];
        pos := pos + 3;
        rest := rest[1..];
      } else {
        return s;
      }
      index := index + 1;
      column := 0;
      line := line + 1;
    }

    /** skip_line: move over a line break, if there is one. */
    method SkipLine()
      requires Valid()
      modifies this
      ensures Valid() && buffer == old(buffer)
      ensures Break(old(rest)[0]) ==>
                && rest == old(rest)[BreakLen(old(rest))..] && column == 0
                && line == old(line) + 1 && index == old(index) + BreakLen(old(rest))
      ensures !Break(old(rest)[0]) ==>
                rest == old(rest) && column == old(column) && line == old(line) && index == old(index)
    {
      hide From, Encode, EncodeAll, IsPrintable, IsBlankZ, IsBlank, Printable;
      RestHolds(buffer, pos, rest);
      HoldsBytes(buffer, pos, rest[0]);
      if Peek() == 0x0D && Peek1() == 0x0A {
        RestHolds(buffer, pos + 1, rest[1..]);
        assert rest[2..] == rest[1..][1..];
        index := index + 2;
        column := 0;
        line := line + 1;
        pos := pos + 2;
        rest := rest[2..];
      } else if AtBreak() {
        index := index + 1;
        column := 0;
        line := line + 1;
        pos := pos + Width(buffer[pos]);
        rest := rest[1..];
      }
    }

    // ---- yaml_parser_scan_flow_scalar ----

    /** '---' or '...' and a blank at the current position. */
    method AtDocIndicator() returns (r: bool)
      requires Valid()
      ensures r == DocIndicator(rest)
    {
      hide From;
      Look();
      if Peek() != 0x2D && Peek() != 0x2E {
        return false;
      }
      var c := Peek();
      RestHolds(buffer, pos, rest);
      if Peek1() != c {
        return false;
      }
      RestHolds(buffer, pos + 1, rest[1..]);
      assert Rest(buffer, pos + 2, rest[2..]) by {
        assert rest[1..][1..] == rest[2..];
      }
      RestHolds(buffer, pos + 2, rest[2..]);
      BytesAgree(buffer, pos + 2, rest[2]);
      if buffer[pos + 2] != c {
        return false;
      }
      assert Rest(buffer, pos + 3, rest[3..]) by {
        assert rest[2..][1..] == rest[3..];
      }
      RestHolds(buffer, pos + 3, rest[3..]);
      BytesAgree(buffer, pos + 3, rest[3]);
      r := IsBlankZ(buffer, pos + 3);
    }

    /** The digits of '\x', '\u' and '\U'. */
    method HexCode(length: nat) returns (value: int)
      requires Valid()
      ensures value == HexNumber(rest, length)
      ensures value >= 0 ==> length < |rest| && forall j | 0 <= j < length :: 0 < rest[j] < 0x80
    {
      hide From, Encode, EncodeAll, IsPrintable, IsBreak, IsBreakZ, IsBlankZ, IsBlank, IsAlpha, IsDigit, IsBom, Printable, Break,
           BlankZ, Blank, Alpha, Digit;
      value := 0;
      var k := 0;
      while k < length
        invariant 0 <= k <= length && k < |rest| && value >= 0
        invariant value == HexNumber(rest, k)
        invariant forall j | 0 <= j < k :: 0 < rest[j] < 0x80
      {
        AsciiRun(buffer, pos, rest, k);
        RestHolds(buffer, pos + k, rest[k..]);
        BytesAgree(buffer, pos + k, rest[k]);
        if !IsHex(buffer, pos + k) {
          NoNumber(rest, k, length);
          return -1;
        }
        value := value * 16 + AsHex(buffer, pos + k);
        k := k + 1;
      }
    }

    /** An escape sequence other than an escaped line break. */
    method ScanEscape(s: seq<Byte>) returns (ok: bool, r: seq<Byte>)
      requires Valid() && rest[0] == BACKSLASH && !Break(rest[1])
      modifies this
      ensures ok == ReadEscape(old(rest)).Escaped?
      ensures ok ==> Valid() && buffer == old(buffer)
      ensures ok ==>
                var e := ReadEscape(old(rest));
                && r == s + Encode(e.c) && rest == old(rest)[e.len..] && column == old(column) + e.len
    {
      hide From, Encode, EncodeAll, HexNumber, EscapeBytes, SimpleEscape;
      EscapeAt(rest);
      var c := Peek1();
      r := s + EscapeBytes(c);
      var codeLength := if c < 0x80 then CodeLength(c) else 0;
      if r == s && codeLength == 0 {
        return false, r;
      }
      Skip();
      Skip();
      assert rest == old(rest)[2..];
      if codeLength > 0 {
        ok, r := ScanHexCode(r, codeLength);
      } else {
        ok := true;
      }
    }

    method ScanHexCode(s: seq<Byte>, length: nat) returns (ok: bool, r: seq<Byte>)
      requires Valid()
      modifies this
      ensures var v := HexNumber(old(rest), length);
              && ok == !(v < 0 || 0xD800 <= v <= 0xDFFF || v > 0x10FFFF)
              && (ok ==> r == s + Encode(v) && length <= |old(rest)| && rest == old(rest)[length..])
      ensures ok ==> Valid() && buffer == old(buffer) && column == old(column) + length
    {
      hide From;
      var value := HexCode(length);
      r := s;
      if value < 0 || 0xD800 <= value <= 0xDFFF || value > 0x10FFFF {
        return false, r;
      }
      r := s + Utf8Bytes(value);
      var k := 0;
      while k < length
        invariant 0 <= k <= length && Valid() && buffer == old(buffer)
        invariant rest == old(rest)[k..] && column == old(column) + k
        invariant forall j | 0 <= j < length :: 0 < old(rest)[j] < 0x80
      {
        Skip();
        k := k + 1;
      }
      ok := true;
    }

    /** One doubled quote, escape sequence or ordinary character. */
    method NonBlank(single: bool, s: seq<Byte>, ghost sv: seq<Rune>)
      returns (ok: bool, r: seq<Byte>, ghost rv: seq<Rune>)
      requires Valid() && s == EncodeAll(sv) && !BlankZ(rest[0])
      requires !AtClosingQuote(single) && !(!single && rest[0] == BACKSLASH && Break(rest[1]))
      modifies this
      ensures ok ==> Valid() && buffer == old(buffer) && r == EncodeAll(rv) && |rest| < |old(rest)|
      ensures if !ok then Scan(single, old(rest), old(column), Content) == Fail
              else Push(sv, Scan(single, old(rest), old(column), Content)) == Push(rv, Scan(single, rest, column, Content))
    {
      hide From;
      hide Scan;
      ok, r, rv := true, s, sv;
      if single && Peek() == 0x27 && Peek1() == 0x27 {
        DoubledQuoteStep(rest, column, sv);
        EncodeAllPush(s, sv, SQUOTE);
        r, rv := s + [0x27], sv + [SQUOTE];
        Skip();
        Skip();
      } else if !single && Peek() == 0x5C {
        EscapeStep(rest, column, sv);
        ghost var e := ReadEscape(rest);
        ok, r := ScanEscape(s);
        if ok {
          EncodeAllPush(s, sv, e.c);
          rv := sv + [e.c];
        }
      } else {
        CharStep(single, rest, column, sv);
        EncodeAllPush(s, sv, rest[0]);
        rv := sv + [rest[0]];
        r := Read(s);
      }
    }

    /** The inner loop over non-blank characters. `lb` says that it ended with an escaped line
        break. */
    method NonBlanks(single: bool, s: seq<Byte>, ghost sv: seq<Rune>)
      returns (ok: bool, r: seq<Byte>, ghost rv: seq<Rune>, lb: bool)
      requires Valid() && s == EncodeAll(sv)
      modifies this
      ensures ok ==> Valid() && buffer == old(buffer) && r == EncodeAll(rv)
      ensures ok ==> |rest| < |old(rest)| || (rest == old(rest) && !lb)
      ensures if !ok then Scan(single, old(rest), old(column), Content) == Fail
              else Push(sv, Scan(single, old(rest), old(column), Content))
                   == Push(rv, Scan(single, rest, column, if lb then Breaks([], []) else Content))
      ensures ok && !lb && !BlankZ(rest[0]) ==> AtClosingQuote(single)
      ensures ok && lb ==> !single
    {
      hide From;
      hide Scan;
      hide EncodeAll;
      ghost var before := Scan(single, rest, column, Content);
      r, rv, lb := s, sv, false;
      while !AtBlankZ()
        invariant Valid() && buffer == old(buffer) && r == EncodeAll(rv)
        invariant |rest| < |old(rest)| || rest == old(rest)
        invariant Push(sv, before) == Push(rv, Scan(single, rest, column, Content))
        decreases |rest|
      {
        if single && Peek() == 0x27 && Peek1() != 0x27 {
          break;
        } else if !single && Peek() == 0x22 {
          break;
        } else if !single && Peek() == 0x5C && AtBreak1() {
          EscapedBreakStep(rest, column);
          Skip();
          SkipLine();
          return true, r, rv, true;
        }
        FailsFrom(rv, Scan(single, rest, column, Content));
        FailsFrom(sv, before);
        ok, r, rv := NonBlank(single, r, rv);
        if !ok {
          return;
        }
      }
      ok := true;
    }

    /** The loop over blanks and breaks, and the joining or folding after it. */
    method BlankRun(single: bool, s: seq<Byte>, ghost sv: seq<Rune>, escaped: bool)
      returns (r: seq<Byte>, ghost rv: seq<Rune>)
      requires Valid() && s == EncodeAll(sv) && (escaped || BlankZ(rest[0]))
      modifies this
      ensures Valid() && buffer == old(buffer) && r == EncodeAll(rv)
      ensures |rest| <= |old(rest)|
      ensures Blank(old(rest)[0]) || Break(old(rest)[0]) ==> |rest| < |old(rest)|
      ensures Push(sv, Scan(single, old(rest), old(column), if escaped then Breaks([], []) else Content))
           == Push(rv, Scan(single, rest, column, LineStart))
    {
      GapStart(escaped);
      hide From, Encode, IsPrintable, Printable, IsBreak, IsBlank, GapMode, Joining, Scan;
      hide EncodeAll;
      var lb := escaped;
      var leading, trailing, whitespaces: seq<Byte> := [], [], [];
      ghost var lead, trail, ws: seq<Rune> := [], [], [];
      ghost var before := Scan(single, rest, column, if escaped then Breaks([], []) else Content);
      EncodeAllNothing();
      while AtBlank() || AtBreak()
        invariant Valid() && buffer == old(buffer) && |rest| <= |old(rest)|
        invariant |rest| < |old(rest)| || rest == old(rest)
        invariant leading == EncodeAll(lead) && trailing == EncodeAll(trail) && whitespaces == EncodeAll(ws)
        invariant BreakOrNone(lead)
        invariant lb || (lead == [] && trail == [] && (ws != [] || BlankZ(rest[0])))
        invariant lb ==> ws == []
        invariant before == Scan(single, rest, column, GapMode(lb, ws, lead, trail))
        decreases |rest|
      {
        if AtBlank() {
          BlankStep(single, rest, column, lb, ws, lead, trail);
          if !lb {
            EncodeAllPush(whitespaces, ws, rest[0]);
            ws := ws + [rest[0]];
            whitespaces := Read(whitespaces);
          } else {
            Skip();
          }
        } else {
          BreakStep(single, rest, column, lb, ws, lead, trail);
          EncodeAllConcat(trail, BreakText(rest));
          if !lb {
            lead := BreakText(rest);
            leading := ReadLine([]);
            whitespaces, ws := [], [];
            lb := true;
            assert leading == EncodeAll(lead);
          } else {
            trail := trail + BreakText(rest);
            trailing := ReadLine(trailing);
          }
        }
      }
      LeaveGap(single, rest, column, lb, ws, lead, trail, sv);
      rv := sv + Joining(lb, ws, lead, trail);
      r := JoinBlanks(s, lb, leading, trailing, whitespaces, sv, ws, lead, trail);
    }

    /** Read a quoted scalar from its opening quote on: the value, or a scanner error. */
    method ScanFlowScalar(single: bool) returns (ok: bool, value: seq<Byte>, ghost v: seq<Rune>)
      requires Valid() && rest[0] == Quote(single)
      modifies this
      ensures match Scan(single, old(rest)[1..], old(column) + 1, LineStart)
              case Fail => !ok
              case Done(u, t) => ok && v == u && value == EncodeAll(u) && Valid() && rest == t && buffer == old(buffer)
    {
      hide From;
      hide Scan;
      hide EncodeAll;
      Skip();
      var s: seq<Byte> := [];
      v := [];
      EncodeAllNothing();
      ghost var all := Scan(single, rest, column, LineStart);
      PushNothing(all);
      while true
        invariant Valid() && buffer == old(buffer) && s == EncodeAll(v)
        invariant all == Push(v, Scan(single, rest, column, LineStart))
        decreases |rest|
      {
        var indicator := AtDocIndicator();
        LineStartStep(single, rest, column);
        FailsFrom(v, Scan(single, rest, column, LineStart));
        if (column == 0 && indicator) || Peek() == 0 {
          return false, s, v;
        }
        ghost var n := rest;
        FailsFrom(v, Scan(single, rest, column, Content));
        var lb;
        ok, s, v, lb := NonBlanks(single, s, v);
        if !ok {
          return false, s, v;
        }
        if Peek() == (if single then 0x27 else 0x22) {
          ClosingStep(single, rest, column, lb, v);
          value := s;
          Skip();
          return true, value, v;
        }
        s, v := BlankRun(single, s, v, lb);
      }
    }

    // ---- yaml_parser_scan_plain_scalar ----

    /** An indicator that ends a plain scalar. */
    method AtPlainEnd(flow: bool) returns (r: bool)
      requires Valid() && rest[0] != 0
      ensures r == PL.Ends(flow, rest)
    {
      hide From, Encode, EncodeAll, IsPrintable, Printable;
      var c := Peek();
      if c == 0x3A {
        Look();
        BytesAgree(buffer, pos + 1, rest[1]);
        if IsBlankZ(buffer, pos + 1) {
          return true;
        }
      }
      r := flow && (c == 0x2C || c == 0x3F || c == 0x5B || c == 0x5D || c == 0x7B || c == 0x7D);
    }

    /** The inner loop over non-blank characters: before the first one, the blanks held are joined. */
    method PlainWord(flow: bool, s: seq<Byte>, h: Held, ghost indent: int, ghost sv: seq<Rune>, ghost p: PL.Pending)
      returns (r: seq<Byte>, now: Held, ghost rv: seq<Rune>, ghost q: PL.Pending)
      requires Valid() && s == EncodeAll(sv) && Holding(h, p)
      modifies this
      ensures Valid() && buffer == old(buffer) && r == EncodeAll(rv) && Holding(now, q) && |rest| <= |old(rest)|
      ensures BlankZ(rest[0]) || PL.Ends(flow, rest)
      ensures PL.Push(sv, PL.Scan(flow, indent, old(rest), old(column), PL.Word, p))
           == PL.Push(rv, PL.Scan(flow, indent, rest, column, PL.Word, q))
    {
      hide From, Encode, EncodeAll, IsPrintable, Printable, PL.Scan;
      ghost var before := PL.Scan(flow, indent, rest, column, PL.Word, p);
      r, now, rv, q := s, h, sv, p;
      while !AtBlankZ()
        invariant Valid() && buffer == old(buffer) && r == EncodeAll(rv) && Holding(now, q) && |rest| <= |old(rest)|
        invariant PL.Push(sv, before) == PL.Push(rv, PL.Scan(flow, indent, rest, column, PL.Word, q))
        decreases |rest|
      {
        var ends := AtPlainEnd(flow);
        if ends {
          return;
        }
        PL.WordStep(flow, indent, rest, column, q, rv);
        r := JoinHeld(r, now, rv, q);
        rv := rv + PL.PendingText(q);
        now, q := Held(false, [], [], []), PL.Nothing;
        EncodeAllPush(r, rv, rest[0]);
        rv := rv + [rest[0]];
        r := Read(r);
      }
    }

    /** The loop over blanks and breaks. A tab in the indentation is an error. */
    method PlainGap(h: Held, indent: int, ghost flow: bool, ghost p: PL.Pending)
      returns (ok: bool, now: Held, ghost q: PL.Pending)
      requires Valid() && Holding(h, p)
      modifies this
      ensures if !ok then PL.Scan(flow, indent, old(rest), old(column), PL.Gap, p) == PL.Fail
              else PL.Scan(flow, indent, old(rest), old(column), PL.Gap, p) == PL.Scan(flow, indent, rest, column, PL.Gap, q)
      ensures ok ==> Valid() && buffer == old(buffer) && Holding(now, q) && !PL.White(rest[0]) && |rest| <= |old(rest)|
      ensures ok && PL.White(old(rest)[0]) ==> |rest| < |old(rest)|
    {
      hide From, Encode, EncodeAll, IsPrintable, Printable, PL.Scan;
      ghost var before := PL.Scan(flow, indent, rest, column, PL.Gap, p);
      now, q := h, p;
      while AtBlank() || AtBreak()
        invariant Valid() && buffer == old(buffer) && Holding(now, q) && |rest| <= |old(rest)|
        invariant |rest| < |old(rest)| || rest == old(rest)
        invariant before == PL.Scan(flow, indent, rest, column, PL.Gap, q)
        decreases |rest|
      {
        PL.GapStep(flow, indent, rest, column, q);
        if AtBlank() {
          if now.broken && column < indent && Peek() == 0x09 {
            return false, now, q;
          }
          now, q := PlainBlank(now, q);
        } else {
          now, q := PlainBreak(now, q);
        }
      }
      ok := true;
    }

    /** One blank: it is held, or dropped behind a break. */
    method PlainBlank(h: Held, ghost p: PL.Pending) returns (now: Held, ghost q: PL.Pending)
      requires Valid() && Holding(h, p) && Blank(rest[0])
      modifies this
      ensures Valid() && buffer == old(buffer) && rest == old(rest)[1..] && column == old(column) + 1
      ensures q == PL.MoreBlank(p, old(rest)[0]) && Holding(now, q)
    {
      hide From, Encode, IsPrintable, Printable;
      q := PL.MoreBlank(p, rest[0]);
      now := h;
      if !h.broken {
        ghost var ws := if p.Blanks? then p.ws else [];
        HeldBlanks(h, p);
        EncodeAllPush(h.whitespaces, ws, rest[0]);
        hide EncodeAll;
        assert [] + [rest[0]] == [rest[0]];
        var w := Read(h.whitespaces);
        now := h.(whitespaces := w);
      } else {
        Skip();
      }
    }

    /** One break: the first one drops the blanks. */
    method PlainBreak(h: Held, ghost p: PL.Pending) returns (now: Held, ghost q: PL.Pending)
      requires Valid() && Holding(h, p) && Break(rest[0])
      modifies this
      ensures Valid() && buffer == old(buffer) && rest == old(rest)[BreakLen(old(rest))..] && column == 0
      ensures q == PL.MoreBreak(p, BreakText(old(rest))) && Holding(now, q)
    {
      hide From, Encode, IsPrintable, Printable;
      q := PL.MoreBreak(p, BreakText(rest));
      EncodeAllNothing();
      if !h.broken {
        hide EncodeAll;
        var b := ReadLine(h.leading);
        assert [] + b == b;
        now := Held(true, b, [], []);
      } else {
        EncodeAllConcat(p.trail, BreakText(rest));
        hide EncodeAll;
        var b := ReadLine(h.trailing);
        now := h.(trailing := b);
      }
    }

    /** Read a plain scalar: the value, and whether a line was broken behind it, after which a simple key
        may begin; or a scanner error. */
    method ScanPlainScalar(parserIndent: int, flow: bool) returns (ok: bool, value: seq<Byte>, broken: bool, ghost v: seq<Rune>)
      requires Valid()
      modifies this
      ensures match PL.Scan(flow, parserIndent + 1, old(rest), old(column), PL.Top, PL.Nothing)
              case Fail => !ok
              case Done(u, t, b) =>
                ok && v == u && value == EncodeAll(u) && broken == b && Valid() && rest == t && buffer == old(buffer)
    {
      hide From, PL.Scan, PL.Ends;
      EncodeAllNothing();
      hide EncodeAll;
      var indent := parserIndent + 1;
      var h := Held(false, [], [], []);
      ghost var p := PL.Nothing;
      value, v := [], [];
      ghost var all := PL.Scan(flow, indent, rest, column, PL.Top, p);
      PL.PushNothing(all);
      while true
        invariant Valid() && buffer == old(buffer) && value == EncodeAll(v) && Holding(h, p)
        invariant all == PL.Push(v, PL.Scan(flow, indent, rest, column, PL.Top, p))
        decreases |rest|
      {
        assert v + [] == v;
        PL.TopStep(flow, indent, rest, column, p);
        var indicator := AtDocIndicator();
        if (column == 0 && indicator) || Peek() == 0x23 {
          return true, value, h.broken, v;
        }
        value, h, v, p := PlainWord(flow, value, h, indent, v, p);
        PL.WordStep(flow, indent, rest, column, p, v);
        assert v + [] == v;
        if !(AtBlank() || AtBreak()) {
          return true, value, h.broken, v;
        }
        ok, h, p := PlainGap(h, indent, flow, p);
        if !ok {
          return false, value, false, v;
        }
        PL.GapStep(flow, indent, rest, column, p);
        if !flow && column < indent {
          return true, value, h.broken, v;
        }
      }
    }

    // ---- yaml_parser_scan_tag_uri and yaml_parser_scan_uri_escapes ----

    predicate AtAlpha()
      requires Valid()
      reads this
      ensures AtAlpha() <==> Alpha(rest[0])
    {
      Look();
      BytesAgree(buffer, pos, rest[0]);
      IsAlpha(buffer, pos)
    }

    /** '%' and two digits at the current position. */
    method AtUriOctet() returns (r: bool, octet: Byte)
      requires Valid()
      ensures r == T.AtOctet(rest)
      ensures r ==> octet == T.Octet(rest) && |rest| > 3 && 0 < rest[1] < 0x80 && 0 < rest[2] < 0x80
    {
      hide From, Encode, EncodeAll, IsPrintable, IsBreak, IsBreakZ, IsBlankZ, IsBlank, IsAlpha, IsDigit, IsBom, Printable, Break,
           BlankZ, Blank, Alpha, Digit;
      octet := 0;
      Look();
      if Peek() != 0x25 {
        return false, octet;
      }
      BytesAgree(buffer, pos + 1, rest[1]);
      if !IsHex(buffer, pos + 1) {
        return false, octet;
      }
      AsciiRun(buffer, pos, rest, 2);
      RestHolds(buffer, pos + 2, rest[2..]);
      BytesAgree(buffer, pos + 2, rest[2]);
      if !IsHex(buffer, pos + 2) {
        return false, octet;
      }
      octet := AsHex(buffer, pos + 1) * 16 + AsHex(buffer, pos + 2);
      r := true;
    }

    method ScanUriEscapes(s: seq<Byte>) returns (ok: bool, r: seq<Byte>)
      requires Valid() && rest[0] == T.PERCENT
      modifies this
      ensures var u := T.EscapedChar(old(rest));
              && ok == u.Uri?
              && (ok ==> Valid() && buffer == old(buffer) && rest == u.rest && r == s + u.octets)
    {
      hide From;
      hide T.Trailing;
      hide Encode;
      var at, octet := AtUriOctet();
      if !at || Width(octet) == 0 {
        return false, s;
      }
      var w: nat := Width(octet) - 1;
      ghost var all := T.EscapedChar(rest);
      r := s + [octet];
      ghost var o := [octet];
      Skip3();
      while w > 0
        invariant Valid() && buffer == old(buffer) && r == s + o
        invariant all == T.Prepend(o, T.Trailing(rest, w))
      {
        T.TrailingStep(o, rest, w);
        at, octet := AtUriOctet();
        if !at || !(0x80 <= octet < 0xC0) {
          return false, s;
        }
        r := r + [octet];
        o := o + [octet];
        Skip3();
        w := w - 1;
      }
      T.TrailingNone(rest);
      assert o + [] == o;
      ok := true;
    }

    method Skip3()
      requires Valid() && |rest| > 3 && rest[0] != 0 && rest[1] != 0 && rest[2] != 0
      modifies this
      ensures Valid() && rest == old(rest)[3..] && buffer == old(buffer) && column == old(column) + 3
    {
      hide From;
      Skip();
      Skip();
      Skip();
      assert old(rest)[1..][1..][1..] == old(rest)[3..];
    }

    predicate AtUriChar()
      requires Valid()
      reads this
      ensures AtUriChar() <==> T.UriChar(rest[0])
    {
      AtAlpha() || T.Mark(Peek()) || Peek() == 0x21 || Peek() == 0x25
    }

    /** One character of the tag, escaped or not. */
    method UriStep(s: seq<Byte>, ghost o: seq<Byte>) returns (ok: bool, r: seq<Byte>, ghost p: seq<Byte>)
      requires Valid() && T.UriChar(rest[0])
      modifies this
      ensures if !ok then T.Prepend(o, T.Content(old(rest))) == T.BadUri
              else
                && Valid() && buffer == old(buffer) && |rest| < |old(rest)| && r == s + p
                && T.Prepend(o, T.Content(old(rest))) == T.Prepend(o + p, T.Content(rest))
    {
      hide From;
      hide T.EscapedChar;
      hide T.Content;
      hide Encode;
      T.ContentStep(o, rest);
      if Peek() == 0x25 {
        ghost var u := T.EscapedChar(rest);
        p := if u.Uri? then u.octets else [];
        ok, r := ScanUriEscapes(s);
      } else {
        EncodeAscii1(rest[0]);
        p := [Peek()];
        r := Read(s);
        ok := true;
      }
    }

    method ScanTagUri(head: seq<Byte>) returns (ok: bool, uri: seq<Byte>)
      requires Valid()
      modifies this
      ensures var u := T.Scan(head, old(rest));
              && ok == u.Uri?
              && (ok ==> Valid() && buffer == old(buffer) && rest == u.rest && uri == u.octets)
    {
      hide From;
      hide T.Content;
      var hasTag := |head| > 0;
      var some;
      ok, uri, some := UriChars(if |head| > 1 then head[1..] else []);
      ok := ok && (hasTag || some);
    }

    /** The loop over the characters of a URI; `some` says that there are any. */
    method UriChars(before: seq<Byte>) returns (ok: bool, s: seq<Byte>, some: bool)
      requires Valid()
      modifies this
      ensures var u := T.Content(old(rest));
              && ok == u.Uri?
              && (ok ==> && Valid() && buffer == old(buffer) && rest == u.rest && s == before + u.octets
                         && some == (|rest| < |old(rest)|) && |rest| <= |old(rest)|)
    {
      hide From;
      hide T.Content;
      some := false;
      s := before;
      ghost var all := T.Content(rest);
      ghost var o, p: seq<Byte> := [], [];
      NoPrefix(all);
      while AtUriChar()
        invariant Valid() && buffer == old(buffer) && s == before + o
        invariant all == T.Prepend(o, T.Content(rest))
        invariant |rest| <= |old(rest)| && some == (|rest| < |old(rest)|)
        decreases |rest|
      {
        ok, s, p := UriStep(s, o);
        if !ok {
          return;
        }
        assert before + o + p == before + (o + p);
        o := o + p;
        some := true;
      }
      T.ContentNone(rest);
      assert o + [] == o;
      ok := true;
    }

    // ---- yaml_parser_scan_block_scalar ----

    /** The indicators after '|' or '>' and the rest of the line. */
    method ScanBlockHeader() returns (ok: bool, chomping: int, increment: nat)
      requires Valid()
      modifies this
      ensures match B.ReadHeader(old(rest), old(column))
              case BadHeader => !ok
              case Header(c, i, u, col) =>
                ok && chomping == c && increment == i && rest == u && column == col && Valid() && buffer == old(buffer)
    {
      hide From;
      hide B.EndOfHeader;
      chomping, increment := 0, 0;
      if Peek() == 0x2B || Peek() == 0x2D {
        chomping := if Peek() == 0x2B then 1 else -1;
        Skip();
        if 0x30 <= Peek() <= 0x39 {
          if Peek() == 0x30 {
            return false, chomping, increment;
          }
          increment := Peek() - 0x30;
          Skip();
          assert old(rest)[1..][1..] == old(rest)[2..];
        }
      } else if 0x30 <= Peek() <= 0x39 {
        if Peek() == 0x30 {
          return false, chomping, increment;
        }
        increment := Peek() - 0x30;
        Skip();
        if Peek() == 0x2B || Peek() == 0x2D {
          chomping := if Peek() == 0x2B then 1 else -1;
          Skip();
          assert old(rest)[1..][1..] == old(rest)[2..];
        }
      }
      ok := EndBlockHeader(chomping, increment);
    }

    /** Eat whitespaces and a comment to the end of the line, and the line break. */
    method SkipBlanks()
      requires Valid()
      modifies this
      ensures Valid() && buffer == old(buffer) && rest == B.SkipBlanks(old(rest))
      ensures |rest| <= |old(rest)| && column == old(column) + |old(rest)| - |rest|
    {
      hide From;
      hide B.SkipBlanks;
      while AtBlank()
        invariant Valid() && buffer == old(buffer) && |rest| <= |old(rest)|
        invariant column == old(column) + |old(rest)| - |rest|
        invariant B.SkipBlanks(old(rest)) == B.SkipBlanks(rest)
        decreases |rest|
      {
        B.SkipBlanksStep(rest);
        Skip();
      }
      B.SkipBlanksStep(rest);
    }

    method SkipToBreak()
      requires Valid()
      modifies this
      ensures Valid() && buffer == old(buffer) && rest == B.SkipToBreak(old(rest))
      ensures |rest| <= |old(rest)| && column == old(column) + |old(rest)| - |rest|
    {
      hide From;
      hide B.SkipToBreak;
      while !AtBreakZ()
        invariant Valid() && buffer == old(buffer) && |rest| <= |old(rest)|
        invariant column == old(column) + |old(rest)| - |rest|
        invariant B.SkipToBreak(old(rest)) == B.SkipToBreak(rest)
        decreases |rest|
      {
        B.SkipBlanksStep(rest);
        Skip();
      }
      B.SkipBlanksStep(rest);
    }

    method EndBlockHeader(chomping: int, increment: nat) returns (ok: bool)
      requires Valid()
      modifies this
      ensures match B.EndOfHeader(chomping, increment, old(rest), old(column))
              case BadHeader => !ok
              case Header(c, i, u, col) =>
                ok && c == chomping && i == increment && rest == u && column == col && Valid() && buffer == old(buffer)
    {
      hide From;
      hide B.SkipBlanks, B.SkipToBreak;
      SkipBlanks();
      if Peek() == 0x23 {
        SkipToBreak();
      }
      if !AtBreakZ() {
        return false;
      }
      SkipLine();
      ok := true;
    }

    /** yaml_parser_scan_block_scalar_breaks. With `indent` 0 the indentation is found. */
    method ScanBlockBreaks(indent: nat, parserIndent: int, breaks: seq<Byte>, ghost b: B.Block,
        ghost lead: seq<Rune>, ghost trail: seq<Rune>, ghost blank: bool)
      returns (ok: bool, newIndent: nat, r: seq<Byte>, ghost rv: seq<Rune>)
      requires Valid() && breaks == EncodeAll(trail) && parserIndent >= -1
      requires indent > 0 ==> b.indent == indent
      modifies this
      ensures ok ==> Valid() && buffer == old(buffer) && r == EncodeAll(rv) && |rest| <= |old(rest)|
      ensures ok ==> !Break(rest[0]) && !(column < newIndent && Blank(rest[0]))
      ensures indent > 0 ==>
                newIndent == indent
                && B.Content(b, old(rest), old(column), B.Gap(lead, trail, blank))
                   == if ok then B.Content(b, rest, column, B.Gap(lead, rv, blank)) else Fail
      ensures indent == 0 ==>
                match B.Detect(old(rest), old(column), 0, trail)
                case BadIndent => !ok
                case Detected(w, col, depth, br) =>
                  ok && rest == w && column == col && rv == br && newIndent == Max(Max(depth, parserIndent + 1), 1)
    {
      hide From;
      hide B.Content;
      hide B.Detect;
      hide EncodeAll;
      var maxIndent := 0;
      r, rv, newIndent := breaks, trail, indent;
      ghost var before := B.Content(b, rest, column, B.Gap(lead, trail, blank));
      ghost var found := B.Detect(rest, column, 0, trail);
      while true
        invariant Valid() && buffer == old(buffer) && r == EncodeAll(rv) && |rest| <= |old(rest)|
        invariant newIndent == indent
        invariant indent > 0 ==> before == B.Content(b, rest, column, B.Gap(lead, rv, blank))
        invariant indent == 0 ==> found == B.Detect(rest, column, maxIndent, rv)
        decreases |rest|
      {
        B.GapStep(b, rest, column, lead, rv, blank);
        B.DetectStep(rest, column, maxIndent, rv);
        if (indent == 0 || column < indent) && Peek() == 0x20 {
          Skip();
        } else if (indent == 0 || column < indent) && Peek() == 0x09 {
          return false, newIndent, r, rv;
        } else {
          if column > maxIndent {
            maxIndent := column;
          }
          if !AtBreak() {
            break;
          }
          EncodeAllConcat(rv, BreakText(rest));
          rv := rv + BreakText(rest);
          r := ReadLine(r);
        }
      }
      if indent == 0 {
        newIndent := Max(Max(maxIndent, parserIndent + 1), 1);
      }
      ok := true;
    }

    /** One content line and its line break. */
    method ScanBlockLine(s: seq<Byte>, ghost sv: seq<Rune>, ghost b: B.Block, ghost blank: bool)
      returns (r: seq<Byte>, leading: seq<Byte>, ghost rv: seq<Rune>, ghost lead: seq<Rune>)
      requires Valid() && s == EncodeAll(sv) && rest[0] != 0 && !Break(rest[0])
      modifies this
      ensures Valid() && buffer == old(buffer) && r == EncodeAll(rv) && leading == EncodeAll(lead)
      ensures |rest| < |old(rest)| && BreakOrNone(lead)
      ensures Push(sv, B.Content(b, old(rest), old(column), B.Line(blank)))
           == Push(rv, B.Content(b, rest, column, B.Gap(lead, [], blank)))
    {
      hide From;
      hide B.Content;
      hide EncodeAll;
      ghost var before := Push(sv, B.Content(b, rest, column, B.Line(blank)));
      r, rv := s, sv;
      while !AtBreakZ()
        invariant Valid() && buffer == old(buffer) && r == EncodeAll(rv) && |rest| <= |old(rest)|
        invariant |rest| == |old(rest)| ==> rest == old(rest)
        invariant before == Push(rv, B.Content(b, rest, column, B.Line(blank)))
        decreases |rest|
      {
        B.LineStep(b, rest, column, blank, rv);
        EncodeAllPush(r, rv, rest[0]);
        rv := rv + [rest[0]];
        r := Read(r);
      }
      B.LineStep(b, rest, column, blank, rv);
      if Break(rest[0]) {
        lead := BreakText(rest);
        assert [] + EncodeAll(lead) == EncodeAll(lead);
      } else {
        B.LineEnd(b, rest, column, blank);
        lead := [];
        EncodeAllNothing();
      }
      leading := ReadLine([]);
    }

    /** Read a block scalar from its '|' or '>' on. `parserIndent` is parser.indent. */
    method ScanBlockScalar(literal: bool, parserIndent: int) returns (ok: bool, value: seq<Byte>, ghost v: seq<Rune>)
      requires Valid() && rest[0] == (if literal then 0x7C else 0x3E) && parserIndent >= -1
      modifies this
      ensures match B.Scan(literal, parserIndent, old(rest)[1..], old(column) + 1)
              case Fail => !ok
              case Done(u, t) => ok && v == u && value == EncodeAll(u) && Valid() && rest == t && buffer == old(buffer)
    {
      hide From;
      hide B.Content;
      hide B.Detect;
      hide B.ReadHeader;
      hide EncodeAll;
      value, v := [], [];
      EncodeAllNothing();
      Skip();
      var chomping, increment;
      ok, chomping, increment := ScanBlockHeader();
      if !ok {
        return;
      }
      var indent: nat := if increment == 0 then 0 else if parserIndent >= 0 then parserIndent + increment else increment;
      var leading, trailing: seq<Byte> := [], [];
      ghost var lead, trail: seq<Rune> := [], [];
      ghost var b := B.Block(literal, indent, chomping);
      ok, indent, trailing, trail := ScanBlockBreaks(indent, parserIndent, trailing, b, lead, trail, false);
      if !ok {
        return;
      }
      b := B.Block(literal, indent, chomping);
      ghost var all := B.Content(b, rest, column, B.Gap(lead, trail, false));
      PushNothing(all);
      var leadingBlank := false;
      while column == indent && Peek() != 0
        invariant Valid() && buffer == old(buffer) && value == EncodeAll(v)
        invariant leading == EncodeAll(lead) && trailing == EncodeAll(trail) && BreakOrNone(lead)
        invariant !Break(rest[0]) && !(column < indent && Blank(rest[0]))
        invariant indent == b.indent && indent > 0
        invariant all == Push(v, B.Content(b, rest, column, B.Gap(lead, trail, leadingBlank)))
        decreases |rest|
      {
        B.GapEnd(b, rest, column, lead, trail, leadingBlank, v);
        var trailingBlank := AtBlank();
        value := JoinLines(value, !literal && !leadingBlank && !trailingBlank, leading, trailing, v, lead, trail);
        v := v + B.Joined(b, lead, trail, leadingBlank, rest[0]);
        leadingBlank := AtBlank();
        value, leading, v, lead := ScanBlockLine(value, v, b, leadingBlank);
        ghost var from := B.Content(b, rest, column, B.Gap(lead, [], leadingBlank));
        ok, indent, trailing, trail := ScanBlockBreaks(indent, parserIndent, [], b, lead, [], leadingBlank);
        if !ok {
          FailsFrom(v, from);
          return;
        }
      }
      B.GapEnd(b, rest, column, lead, trail, leadingBlank, v);
      value := ChompTail(value, chomping, leading, trailing, v, lead, trail);
      v := v + B.Chomped(b, lead, trail);
    }

    /** The closing quote, and not a doubled single quote. */
    ghost predicate AtClosingQuote(single: bool)
      requires Valid()
      reads this
    {
      rest[0] == Quote(single) && (single ==> At(rest, 1) != SQUOTE)
    }
  }

  /** leading_blanks, leading_break, trailing_breaks and whitespaces of the plain scalar scanner. */
  datatype Held = Held(broken: bool, leading: seq<Byte>, trailing: seq<Byte>, whitespaces: seq<Byte>)

  predicate Holding(h: Held, p: PL.Pending) {
    match p
    case Nothing => h == Held(false, [], [], [])
    case Blanks(ws) => ws != [] && h == Held(false, [], [], EncodeAll(ws))
    case Breaks(lead, trail) => |lead| == 1 && BreakOrNone(lead) && h == Held(true, EncodeAll(lead), EncodeAll(trail), [])
  }

  lemma HeldBlanks(h: Held, p: PL.Pending)
    requires Holding(h, p) && !h.broken
    ensures !p.Breaks? && h.whitespaces == EncodeAll(if p.Blanks? then p.ws else []) && h.leading == [] && h.trailing == []
  {
  }

  method JoinHeld(s: seq<Byte>, h: Held, ghost sv: seq<Rune>, ghost p: PL.Pending) returns (r: seq<Byte>)
    requires s == EncodeAll(sv) && Holding(h, p)
    ensures r == EncodeAll(sv + PL.PendingText(p))
  {
    EncodeAllNothing();
    hide EncodeAll;
    assert sv + [] == sv;
    ghost var lead := if p.Breaks? then p.lead else [];
    ghost var trail := if p.Breaks? then p.trail else [];
    ghost var ws := if p.Blanks? then p.ws else [];
    r := JoinBlanks(s, h.broken, h.leading, h.trailing, h.whitespaces, sv, ws, lead, trail);
  }


  /** Join the whitespaces or fold line breaks. */
  method JoinBlanks(s: seq<Byte>, lb: bool, leading: seq<Byte>, trailing: seq<Byte>, whitespaces: seq<Byte>,
      ghost sv: seq<Rune>, ghost ws: seq<Rune>, ghost lead: seq<Rune>, ghost trail: seq<Rune>)
    returns (r: seq<Byte>)
    requires s == EncodeAll(sv) && whitespaces == EncodeAll(ws)
    requires leading == EncodeAll(lead) && trailing == EncodeAll(trail)
    requires BreakOrNone(lead)
    ensures r == EncodeAll(sv + Joining(lb, ws, lead, trail))
  {
    hide EncodeAll;
    EncodeAllConcat(sv, Joining(lb, ws, lead, trail));
    if lb {
      LeadByte(lead);
      if |leading| > 0 && leading[0] == 0x0A {
        EncodeAllEmpty(trail);
        if |trailing| == 0 {
          EncodeAllOne(SPACE);
          r := s + [0x20];
        } else {
          r := s + trailing;
        }
      } else {
        EncodeAllConcat(lead, trail);
        r := s + leading + trailing;
      }
    } else {
      r := s + whitespaces;
    }
  }

  /** Chomp the tail. */
  method ChompTail(s: seq<Byte>, chomping: int, leading: seq<Byte>, trailing: seq<Byte>,
      ghost sv: seq<Rune>, ghost lead: seq<Rune>, ghost trail: seq<Rune>)
    returns (r: seq<Byte>)
    requires s == EncodeAll(sv) && leading == EncodeAll(lead) && trailing == EncodeAll(trail)
    ensures r == EncodeAll(sv + ((if chomping != -1 then lead else []) + (if chomping == 1 then trail else [])))
  {
    hide EncodeAll;
    ghost var kept: seq<Rune> := if chomping != -1 then lead else [];
    ghost var more: seq<Rune> := if chomping == 1 then trail else [];
    EncodeAllConcat(sv, kept + more);
    EncodeAllConcat(kept, more);
    EncodeAllNothing();
    r := s;
    if chomping != -1 {
      r := r + leading;
    }
    if chomping == 1 {
      r := r + trailing;
    }
  }

  predicate BreakOrNone(lead: seq<Rune>) {
    lead == [] || lead == [LF] || lead == [LS] || lead == [PS]
  }

  /** Fold the leading line break, or keep it, and append the remaining ones. */
  method JoinLines(s: seq<Byte>, folding: bool, leading: seq<Byte>, trailing: seq<Byte>,
      ghost sv: seq<Rune>, ghost lead: seq<Rune>, ghost trail: seq<Rune>)
    returns (r: seq<Byte>)
    requires s == EncodeAll(sv) && leading == EncodeAll(lead) && trailing == EncodeAll(trail) && BreakOrNone(lead)
    ensures r == EncodeAll(sv + if folding && lead != [] && lead[0] == LF
                                then (if trail == [] then [SPACE] else []) + trail else lead + trail)
  {
    hide EncodeAll;
    LeadByte(lead);
    EncodeAllEmpty(trail);
    EncodeAllOne(SPACE);
    ghost var first: seq<Rune> :=
      if folding && lead != [] && lead[0] == LF then (if trail == [] then [SPACE] else []) else lead;
    EncodeAllConcat(sv, first + trail);
    EncodeAllConcat(first, trail);
    EncodeAllNothing();
    r := s;
    if folding && |leading| > 0 && leading[0] == 0x0A {
      if |trailing| == 0 {
        r := r + [0x20];
      }
    } else {
      r := r + leading;
    }
    r := r + trailing;
  }

  // ---- Single steps of the flow-scalar scanner ----

  lemma EncodeAllNothing()
    ensures EncodeAll([]) == []
  {
  }

  lemma EncodeAllEmpty(v: seq<Rune>)
    ensures EncodeAll(v) == [] <==> v == []
  {
  }

  lemma NoPrefix(u: T.Uri)
    ensures T.Prepend([], u) == u
  {
    if u.Uri? {
      assert [] + u.octets == u.octets;
    }
  }

  lemma EncodeAscii1(c: Rune)
    ensures c < 0x80 ==> Encode(c) == [c as Byte]
  {
  }

  /** The mode the scanner's variables stand for while it reads blanks and breaks. */
  function GapMode(lb: bool, ws: seq<Rune>, lead: seq<Rune>, trail: seq<Rune>): Mode {
    if lb then Breaks(lead, trail) else if ws == [] then Content else Blanks(ws)
  }

  function Joining(lb: bool, ws: seq<Rune>, lead: seq<Rune>, trail: seq<Rune>): seq<Rune> {
    if lb then Join(lead, trail) else ws
  }

  lemma LeadByte(lead: seq<Rune>)
    requires BreakOrNone(lead)
    ensures (|EncodeAll(lead)| > 0 && EncodeAll(lead)[0] == 0x0A) <==> lead == [LF]
  {
    if lead != [] {
      EncodeAllOne(lead[0]);
    }
  }

  lemma BlankStep(single: bool, t: seq<Rune>, col: nat, lb: bool, ws: seq<Rune>, lead: seq<Rune>, trail: seq<Rune>)
    requires |t| > 1 && Blank(t[0])
    ensures Scan(single, t, col, GapMode(lb, ws, lead, trail))
         == Scan(single, t[1..], col + 1, GapMode(lb, if lb then ws else ws + [t[0]], lead, trail))
  {
    assert [] + [t[0]] == [t[0]];
  }

  lemma BreakStep(single: bool, t: seq<Rune>, col: nat, lb: bool, ws: seq<Rune>, lead: seq<Rune>, trail: seq<Rune>)
    requires |t| > 1 && Break(t[0])
    ensures Scan(single, t, col, GapMode(lb, ws, lead, trail))
         == Scan(single, t[BreakLen(t)..], 0,
                 GapMode(true, [], if lb then lead else BreakText(t), if lb then trail + BreakText(t) else []))
  {
  }

  lemma GapStart(escaped: bool)
    ensures GapMode(escaped, [], [], []) == if escaped then Breaks([], []) else Content
  {
  }

  lemma LeaveGap(single: bool, t: seq<Rune>, col: nat, lb: bool, ws: seq<Rune>, lead: seq<Rune>,
      trail: seq<Rune>, p: seq<Rune>)
    requires t != [] && !Blank(t[0]) && !Break(t[0]) && (lb || ws != [] || t[0] == 0)
    ensures Push(p, Scan(single, t, col, GapMode(lb, ws, lead, trail)))
         == Push(p + Joining(lb, ws, lead, trail), Scan(single, t, col, LineStart))
  {
    PushPush(p, Joining(lb, ws, lead, trail), Scan(single, t, col, LineStart));
  }

  lemma LineStartStep(single: bool, t: seq<Rune>, col: nat)
    requires t != []
    ensures Scan(single, t, col, LineStart)
         == if (col == 0 && DocIndicator(t)) || t[0] == 0 then Fail else Scan(single, t, col, Content)
  {
  }

  lemma ClosingStep(single: bool, t: seq<Rune>, col: nat, lb: bool, p: seq<Rune>)
    requires t != [] && t[0] == Quote(single) && (single ==> At(t, 1) != SQUOTE)
    ensures Push(p, Scan(single, t, col, if lb then Breaks([], []) else Content)) == Done(p, t[1..])
  {
    assert p + [] == p;
    assert Scan(single, t, col, Content) == Done([], t[1..]);
    if lb {
      LineStartStep(single, t, col);
      assert Join([], []) == [];
      PushPush(p, [], Done([], t[1..]));
    }
  }

  lemma DoubledQuoteStep(t: seq<Rune>, col: nat, p: seq<Rune>)
    requires |t| > 1 && t[0] == SQUOTE && t[1] == SQUOTE
    ensures t[1..][1..] == t[2..]
    ensures Push(p, Scan(true, t, col, Content)) == Push(p + [SQUOTE], Scan(true, t[1..][1..], col + 2, Content))
  {
    PushPush(p, [SQUOTE], Scan(true, t[2..], col + 2, Content));
  }

  lemma EscapedBreakStep(t: seq<Rune>, col: nat)
    requires |t| > 1 && t[0] == BACKSLASH && Break(t[1])
    ensures Scan(false, t, col, Content) == Scan(false, t[1..][BreakLen(t[1..])..], 0, Breaks([], []))
  {
    assert t[1..][BreakLen(t[1..])..] == t[1 + BreakLen(t[1..])..];
  }

  lemma EscapeStep(t: seq<Rune>, col: nat, p: seq<Rune>)
    requires |t| > 1 && t[0] == BACKSLASH && !Break(t[1])
    ensures match ReadEscape(t)
            case BadEscape => Scan(false, t, col, Content) == Fail
            case Escaped(c, n) =>
              Push(p, Scan(false, t, col, Content)) == Push(p + [c], Scan(false, t[n..], col + n, Content))
  {
    if ReadEscape(t).Escaped? {
      PushPush(p, [ReadEscape(t).c], Scan(false, t[ReadEscape(t).len..], col + ReadEscape(t).len, Content));
    }
  }

  lemma CharStep(single: bool, t: seq<Rune>, col: nat, p: seq<Rune>)
    requires |t| > 1 && !BlankZ(t[0]) && t[0] != Quote(single) && (single || t[0] != BACKSLASH)
    ensures Push(p, Scan(single, t, col, Content)) == Push(p + [t[0]], Scan(single, t[1..], col + 1, Content))
  {
    PushPush(p, [t[0]], Scan(single, t[1..], col + 1, Content));
  }

  /** What an escape sequence reads as, case by case. */
  lemma EscapeAt(t: seq<Rune>)
    requires |t| > 1 && t[0] == BACKSLASH
    ensures var c := t[1];
            ReadEscape(t) == if SimpleEscape(c) >= 0 then Escaped(SimpleEscape(c), 2)
                             else if CodeLength(c) == 0 then BadEscape
                             else
                               var v := HexNumber(t[2..], CodeLength(c));
                               if v < 0 || 0xD800 <= v <= 0xDFFF || v > 0x10FFFF then BadEscape
                               else Escaped(v, 2 + CodeLength(c))
    ensures t[1] >= 0x80 || t[1] == 0 ==> SimpleEscape(t[1]) < 0 && CodeLength(t[1]) == 0
    ensures SimpleEscape(t[1]) >= 0 ==> CodeLength(t[1]) == 0
  {
    hide HexNumber;
  }

  /** What the scanner appends for a one-letter escape; nothing for other characters. */
  function EscapeBytes(c: Byte): (r: seq<Byte>)
    ensures c < 0x80 && SimpleEscape(c) >= 0 ==> r == Encode(SimpleEscape(c))
    ensures c >= 0x80 || SimpleEscape(c) < 0 ==> r == []
  {
    match c
    case 0x30 => [0]
    case 0x61 => [0x07]
    case 0x62 => [0x08]
    case 0x74 => [0x09]
    case 0x09 => [0x09]
    case 0x6E => [0x0A]
    case 0x76 => [0x0B]
    case 0x66 => [0x0C]
    case 0x72 => [0x0D]
    case 0x65 => [0x1B]
    case 0x20 => [0x20]
    case 0x22 => [0x22]
    case 0x27 => [0x27]
    case 0x5C => [0x5C]
    case 0x4E => [0xC2, 0x85]
    case 0x5F => [0xC2, 0xA0]
    case 0x4C => [0xE2, 0x80, 0xA8]
    case 0x50 => [0xE2, 0x80, 0xA9]
    case _ => []
  }

  /** The octets the scanner appends for an escaped code point. */
  function Utf8Bytes(value: int): (r: seq<Byte>)
    requires 0 <= value <= 0x10FFFF && !(0xD800 <= value <= 0xDFFF)
    ensures r == Encode(value)
  {
    if value <= 0x7F then [value as Byte]
    else if value <= 0x7FF then [0xC0 + value / 64, 0x80 + value % 64]
    else if value <= 0xFFFF then [0xE0 + value / 4096, 0x80 + value / 64 % 64, 0x80 + value % 64]
    else
      var lead: Byte := 0xF0 + value / 262144;
      [lead, 0x80 + value / 4096 % 64, 0x80 + value / 64 % 64, 0x80 + value % 64]
  }

  lemma {:induction false} NoNumber(t: seq<Rune>, k: nat, n: nat)
    requires k < n && !Hex(At(t, k))
    ensures HexNumber(t, n) == -1
  {
    if k + 1 < n {
      NoNumber(t, k, n - 1);
    }
  }
}
