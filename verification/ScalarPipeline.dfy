/** The writers of emitterc.go and the scanners of scannerc.go one after the other, on bytes. */
module ScalarPipeline {
  import opened Utf8
  import opened CharClass
  import F = FlowScalar
  import opened ScalarText
  import T = TagUri
  import B = BlockScalar
  import DQ = DoubleQuotedRoundTrip
  import SQ = SingleQuotedRoundTrip
  import L = LiteralRoundTrip
  import PL = PlainScalar
  import PR = PlainRoundTrip
  import S = ScannerSpec
  import E = EventGrammar
  import C = ScalarStyles
  import ET = EmitterText
  import ST = ScannerText

  /** Written text and the NUL behind it, from its `n`-th character on, all of them before it in
      ASCII. */
  lemma RestOf(t: seq<Rune>, n: nat)
    requires n <= |t| && forall i | 0 <= i < n :: t[i] < 0x80
    ensures Rest(EncodeAll(t + [0]), n, (t + [0])[n..])
  {
    var u := t + [0];
    assert EncodeAll(u)[0..] == EncodeAll(u);
    assert u[0..] == u;
    ST.AsciiRun(EncodeAll(u), 0, u, n);
  }

  lemma EndAppended(t: seq<Rune>)
    ensures EncodeAll(t) + [0] == EncodeAll(t + [0])
  {
    EncodeAllConcat(t, [0]);
    EncodeAllOne(0);
  }

  /** Whatever the value, a double-quoted scalar is read back as it was written. */
  method DoubleQuoted(value: seq<Byte>, setting: ET.LineBreakSetting, unicode: bool, bestWidth: int, indent: int, pen: Pen,
                      allowBreaks: bool, column: nat, ghost v: seq<Rune>)
    returns (ok: bool, back: seq<Byte>)
    requires value == EncodeAll(v) && indent >= 1
    ensures ok && back == value
  {
    hide EncodeAll, DoubleQuotedWritten, F.Scan, From;
    var e := new ET.Emitter(setting, unicode, 2, bestWidth, indent, pen);
    ghost var style := e.S(allowBreaks);
    e.WriteDoubleQuoted(value, allowBreaks, v);
    var w := if pen.whitespace then 0 else 1;
    ghost var t := DoubleQuotedWritten(style, v, pen);
    assert [] + EncodeAll(t) == EncodeAll(t);
    DoubleQuotedOpens(style, v, pen);
    EndAppended(t);
    RestOf(t, w);
    var s := new ST.Scanner(e.output + [0], w, column, (t + [0])[w..]);
    DQ.RoundTrip(style, v, pen, [0], column);
    assert (t + [0])[w..][1..] == (t + [0])[w + 1..];
    ghost var u;
    ok, back, u := s.ScanFlowScalar(false);
  }

  lemma DoubleQuotedOpens(s: Style, v: seq<Rune>, p: Pen)
    ensures var t := DoubleQuotedWritten(s, v, p);
            var w := if p.whitespace then 0 else 1;
            |t| > w && t[w] == DQUOTE && forall i | 0 <= i < w :: t[i] < 0x80
  {
  }

  /** A value that the analysis allows to be single-quoted is read back as it was written. */
  method SingleQuoted(value: seq<Byte>, setting: ET.LineBreakSetting, unicode: bool, bestWidth: int, indent: int, pen: Pen,
                      allowBreaks: bool, column: nat, ghost v: seq<Rune>)
    returns (allowed: bool, ok: bool, back: seq<Byte>)
    requires value == EncodeAll(v) && indent >= 1
    ensures allowed ==> ok && back == value
    ensures allowed <==> SingleQuotedAllowed(unicode, v)
  {
    hide EncodeAll, SingleQuotedWritten, F.Scan, SingleQuotedAllowed, From;
    var e := new ET.Emitter(setting, unicode, 2, bestWidth, indent, pen);
    ghost var style := e.S(allowBreaks);
    var data := e.AnalyzeScalar(value, v);
    allowed := data.singleQuotedAllowed;
    ok, back := false, [];
    if !allowed { return; }
    e.WriteSingleQuoted(value, allowBreaks, v);
    var w := if pen.whitespace then 0 else 1;
    ghost var t := SingleQuotedWritten(style, v, pen);
    assert [] + EncodeAll(t) == EncodeAll(t);
    SingleQuotedOpens(style, v, pen);
    EndAppended(t);
    RestOf(t, w);
    var s := new ST.Scanner(e.output + [0], w, column, (t + [0])[w..]);
    SQ.RoundTrip(style, v, pen, [0], column);
    assert (t + [0])[w..][1..] == (t + [0])[w + 1..];
    ghost var u;
    ok, back, u := s.ScanFlowScalar(true);
  }

  lemma SingleQuotedOpens(s: Style, v: seq<Rune>, p: Pen)
    ensures var t := SingleQuotedWritten(s, v, p);
            var w := if p.whitespace then 0 else 1;
            |t| > w && t[w] == SQUOTE && forall i | 0 <= i < w :: t[i] < 0x80
  {
  }

  /** A value that the analysis allows to be plain is read back as it was written, in a block or in a flow
      collection. The emitter indents by more than the parser's level. */
  method Plain(value: seq<Byte>, setting: ET.LineBreakSetting, unicode: bool, bestWidth: int, indent: int, pen: Pen,
               allowBreaks: bool, flow: bool, parserIndent: int, column: nat, ghost v: seq<Rune>)
    returns (allowed: bool, ok: bool, back: seq<Byte>)
    requires value == EncodeAll(v) && indent >= 1 && (flow || (parserIndent < indent && parserIndent <= column))
    ensures allowed ==> ok && back == value
    ensures allowed <==> if flow then FlowPlainAllowed(unicode, v) else BlockPlainAllowed(unicode, v)
  {
    hide EncodeAll, PlainWritten, PL.Scan, FlowPlainAllowed, BlockPlainAllowed, From, TrailingSpace;
    var e := new ET.Emitter(setting, unicode, 2, bestWidth, indent, pen);
    ghost var style := e.S(allowBreaks);
    var data := e.AnalyzeScalar(value, v);
    allowed := if flow then data.flowPlainAllowed else data.blockPlainAllowed;
    ok, back := false, [];
    if !allowed { return; }
    PlainEnds(unicode, v);
    e.WritePlain(value, allowBreaks, false, v);
    var w := if pen.whitespace then 0 else 1;
    ghost var t := PlainWritten(style, v, pen);
    assert [] + EncodeAll(t) == EncodeAll(t);
    PlainOpens(style, v, pen);
    EndAppended(t);
    RestOf(t, w);
    var s := new ST.Scanner(e.output + [0], w, column, (t + [0])[w..]);
    PlainReadBack(flow, style, parserIndent + 1, v, pen, column);
    ghost var u;
    ghost var broken;
    ok, back, broken, u := s.ScanPlainScalar(parserIndent, flow);
  }

  lemma PlainEnds(unicode: bool, v: seq<Rune>)
    ensures FlowPlainAllowed(unicode, v) || BlockPlainAllowed(unicode, v) ==> !TrailingSpace(v)
  {
  }

  lemma PlainOpens(s: Style, v: seq<Rune>, p: Pen)
    ensures var t := PlainWritten(s, v, p);
            var w := if p.whitespace then 0 else 1;
            |t| >= w && forall i | 0 <= i < w :: t[i] < 0x80
  {
  }

  /** Before the NUL at the end. */
  lemma PlainReadBack(flow: bool, s: Style, indent: int, v: seq<Rune>, p: Pen, column: nat)
    requires LineBreak(s.br) && s.indent >= 1 && (flow || (indent <= s.indent && column + 1 >= indent))
    requires if flow then FlowPlainAllowed(s.unicode, v) else BlockPlainAllowed(s.unicode, v)
    ensures var w := if p.whitespace then 0 else 1;
            var t := PlainWritten(s, v, p) + [0];
            |t| > w && PL.Scan(flow, indent, t[w..], column, PL.Top, PL.Nothing) == PL.Done(v, [0], false)
  {
    var look := S.Look(0, true, false, false, false);
    var x := S.Lexeme(S.Mark(0, 0, column), false, look, true, false, S.Mark(0, 0, column));
    PR.EndsAtOnce(flow, indent, [0]);
    if v == [] {
      PL.TopStep(flow, indent, [0], column, PL.Nothing);
      PL.WordStep(flow, indent, [0], column, PL.Nothing, []);
      PR.Behind(s, v, p, [0]);
      PR.TextEnd(s, v, PlainStart(p), false, [0]);
      hide PL.Scan;
    } else {
      hide PL.Scan, PlainWritten, FlowPlainAllowed, BlockPlainAllowed, PR.EndsBefore;
      PR.RoundTrip(flow, s, indent, v, p, [0], [0], false, x);
    }
  }

  /** A value that the analysis allows to be a block scalar is read back from its literal form. The
      emitter ends the line if the value does not. */
  method Literal(value: seq<Byte>, setting: ET.LineBreakSetting, unicode: bool, bestIndent: nat, parserIndent: int,
                 newline: bool, column: nat, ghost v: seq<Rune>)
    returns (allowed: bool, ok: bool, back: seq<Byte>)
    requires value == EncodeAll(v) && 2 <= bestIndent <= 9 && parserIndent >= -1
    requires v != [] ==> newline == !Break(v[|v| - 1])
    ensures allowed ==> ok && back == value
    ensures allowed <==> BlockAllowed(unicode, v)
  {
    hide EncodeAll, LiteralWritten, B.Scan, Special, TrailingSpace, SpaceBreak, Rest;
    var indent := (if parserIndent < 0 then 0 else parserIndent) + bestIndent;
    var e := new ET.Emitter(setting, unicode, bestIndent, 80, indent, Pen(0, true, true));
    ghost var style := e.S(false);
    var data := e.AnalyzeScalar(value, v);
    allowed := data.blockAllowed;
    ok, back := false, [];
    if !allowed { return; }
    e.WriteLiteral(value, v);
    ghost var bar := [] + [0x7C] + LiteralWritten(style, bestIndent, v);
    assert e.output == [] + EncodeAll(bar);
    if newline {
      e.PutBreak();
    }
    ghost var t := LiteralText(style, bestIndent, v, newline);
    LiteralEncoded(style, bestIndent, v, newline, e.output);
    LiteralReadBack(style, bestIndent, parserIndent, v, newline, column);
    var s := new ST.Scanner(e.output + [0], 0, column, t + [0]);
    ghost var u;
    ok, back, u := s.ScanBlockScalar(true, parserIndent);
  }

  /** The literal form, its line ended, after its '|'. */
  function LiteralText(s: Style, bestIndent: nat, v: seq<Rune>, newline: bool): seq<Rune>
    requires 2 <= bestIndent <= 9 && v != []
  {
    [0x7C] + LiteralWritten(s, bestIndent, v) + (if newline then s.br else [])
  }

  lemma LiteralEncoded(s: Style, bestIndent: nat, v: seq<Rune>, newline: bool, output: seq<Byte>)
    requires 2 <= bestIndent <= 9 && v != []
    requires output == [] + EncodeAll([] + [0x7C] + LiteralWritten(s, bestIndent, v))
                       + (if newline then EncodeAll(s.br) else [])
    ensures Rest(output + [0], 0, LiteralText(s, bestIndent, v, newline) + [0])
  {
    hide LiteralWritten, Rest, EncodeAll;
    var lit := LiteralWritten(s, bestIndent, v);
    var br := if newline then s.br else [];
    EncodeAllConcat([0x7C] + lit, br);
    EncodeAllNothing();
    assert [] + [0x7C] + lit == [0x7C] + lit;
    var t := LiteralText(s, bestIndent, v, newline);
    assert output == EncodeAll([0x7C] + lit) + EncodeAll(br);
    EndAppended(t);
    RestOf(t, 0);
    assert (t + [0])[0..] == t + [0];
  }

  lemma LiteralReadBack(s: Style, bestIndent: nat, parserIndent: int, v: seq<Rune>, newline: bool, column: nat)
    requires LineBreak(s.br) && 2 <= bestIndent <= 9 && parserIndent >= -1 && BlockAllowed(s.unicode, v)
    requires s.indent == (if parserIndent < 0 then 0 else parserIndent) + bestIndent
    requires newline == !Break(v[|v| - 1])
    ensures var t := LiteralText(s, bestIndent, v, newline) + [0];
            t[0] == 0x7C && B.Scan(true, parserIndent, t[1..], column + 1) == F.Done(v, [0])
  {
    hide LiteralWritten, B.Scan, Special, TrailingSpace, SpaceBreak;
    var f := L.Follow(newline, 0, [0]);
    var t := LiteralText(s, bestIndent, v, newline) + [0];
    assert Spaces(0) + [0] == [0];
    assert t[1..] == LiteralWritten(s, bestIndent, v) + L.FollowText(s, f);
    L.RoundTrip(s, bestIndent, parserIndent, v, f, column + 1);
  }

  lemma EncodeAllNothing()
    ensures EncodeAll([]) == []
  {
  }

  /** Whatever style is asked for and wherever the scalar stands, in the style that is chosen the value is read
      back as it was written; the folded style, which is chosen only for what could be literal, aside. Lines
      are not broken in simple keys. */
  method Scalar(value: seq<Byte>, setting: ET.LineBreakSetting, unicode: bool, bestIndent: nat, bestWidth: int, pen: Pen,
                x: C.Setting, wanted: E.ScalarStyle, parserIndent: int, column: nat, ghost v: seq<Rune>)
    returns (ok: bool, style: E.ScalarStyle, back: seq<Byte>)
    requires value == EncodeAll(v) && 2 <= bestIndent <= 9 && x.empty == (value == [])
    requires parserIndent >= -1 && parserIndent <= column
    ensures !x.noTag || x.implicit || x.quotedImplicit ==> (style.Folded? && BlockAllowed(unicode, v)) || (ok && back == value)
  {
    hide EncodeAll, FlowPlainAllowed, BlockPlainAllowed, SingleQuotedAllowed, BlockAllowed;
    var indent := (if parserIndent < 0 then 0 else parserIndent) + bestIndent;
    var e := new ET.Emitter(setting, unicode, bestIndent, bestWidth, indent, pen);
    var data := e.AnalyzeScalar(value, v);
    var nonspecific;
    ok, style, nonspecific := C.SelectScalarStyle(x, data, wanted);
    back := [];
    if !ok { return; }
    var allowed: bool;
    match style
    case Plain =>
      allowed, ok, back := Plain(value, setting, unicode, bestWidth, indent, pen, !x.simpleKey, x.flow, parserIndent, column, v);
    case SingleQuoted =>
      allowed, ok, back := SingleQuoted(value, setting, unicode, bestWidth, indent, pen, !x.simpleKey, column, v);
    case Literal =>
      var newline := Unfinished(value, v);
      allowed, ok, back := Literal(value, setting, unicode, bestIndent, parserIndent, newline, column, v);
    case Folded =>
      ok := false;
    case _ =>
      ok, back := DoubleQuoted(value, setting, unicode, bestWidth, indent, pen, !x.simpleKey, column, v);
  }

  /** The value does not end with a line break. */
  method Unfinished(value: seq<Byte>, ghost v: seq<Rune>) returns (r: bool)
    requires value == EncodeAll(v)
    ensures v != [] ==> r == !Break(v[|v| - 1])
  {
    hide EncodeAll, Encode, IsPrintable, Printable;
    r := true;
    ET.EncodeAllEmpty(v);
    if |value| > 0 {
      assert value[..|value|] == value;
      var i := ET.CharStart(value, |value|, v);
      BytesAgree(value, i, v[|v| - 1]);
      r := !IsBreak(value, i);
    }
  }

  /** Tag content is read back as it was written, octet by octet. */
  method TagContent(value: seq<Byte>, setting: ET.LineBreakSetting, unicode: bool, column: nat, ghost v: seq<Rune>)
    returns (ok: bool, back: seq<Byte>)
    requires value == EncodeAll(v)
    ensures ok <==> value != []
    ensures ok ==> back == value
  {
    hide EncodeAll, T.TagText, T.Content, From;
    var e := new ET.Emitter(setting, unicode, 2, 80, 0, Pen(0, true, true));
    e.WriteTagContent(value, false, v);
    ghost var t := T.TagText(v);
    assert [] + [] + EncodeAll(t) == EncodeAll(t);
    EndAppended(t);
    RestOf(t, 0);
    assert (t + [0])[0..] == t + [0];
    var s := new ST.Scanner(e.output + [0], 0, column, t + [0]);
    T.RoundTrip([], v, [0]);
    EncodedEmpty(v);
    ok, back := s.ScanTagUri([]);
    assert [] + EncodeAll(v) == EncodeAll(v);
  }

  lemma EncodedEmpty(v: seq<Rune>)
    ensures EncodeAll(v) == [] <==> v == []
  {
  }
}
