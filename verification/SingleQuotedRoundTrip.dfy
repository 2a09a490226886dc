/** Single-quoted scalars that the analysis allows read back as they were written. */
module SingleQuotedRoundTrip {
  import opened Utf8
  import opened CharClass
  import opened FlowScalar
  import opened ScalarText
  import opened FlowScanSteps

  function Text(s: Style, v: seq<Rune>, i: nat, p: Pen, spaces: bool, breaks: bool, rest: seq<Rune>): seq<Rune>
    requires i <= |v|
  {
    SingleQuoted(s, v, i, p, spaces, breaks) + ([SQUOTE] + rest)
  }

  predicate Ready(s: Style, v: seq<Rune>, i: nat, rest: seq<Rune>) {
    i <= |v| && LineBreak(s.br) && s.indent >= 1 && SingleQuotedAllowed(s.unicode, v) && At(rest, 0) != SQUOTE
  }

  lemma CharsAllowed(s: Style, v: seq<Rune>, i: nat)
    requires SingleQuotedAllowed(s.unicode, v) && i < |v|
    ensures Printable(v[i])
    ensures i > 0 && v[i - 1] == SPACE ==> !Break(v[i])
    ensures i > 0 && Break(v[i - 1]) ==> v[i] != SPACE
  {
  }

  function Chars(c: Rune): seq<Rune> {
    if c == SQUOTE then [SQUOTE, SQUOTE] else [c]
  }

  lemma OnePiece(s: Style, v: seq<Rune>, i: nat, p: Pen, spaces: bool, breaks: bool)
    requires i < |v|
    ensures var a := SingleQuotedPiece(s, v, i, p, spaces, breaks);
            SingleQuoted(s, v, i, p, spaces, breaks) == a.text + SingleQuoted(s, v, i + 1, a.pen, a.spaces, a.breaks)
  {
  }

  lemma TextSpace(s: Style, v: seq<Rune>, i: nat, p: Pen, spaces: bool, breaks: bool, rest: seq<Rune>)
    requires i < |v| && v[i] == SPACE && !(Folds(s, v, i, p, spaces) && v[i + 1] != SPACE)
    ensures Text(s, v, i, p, spaces, breaks, rest)
         == [SPACE] + Text(s, v, i + 1, p.(col := p.col + 1), true, breaks, rest)
  {
    var d := SingleQuoted(s, v, i + 1, p.(col := p.col + 1), true, breaks);
    assert SingleQuoted(s, v, i, p, spaces, breaks) == [SPACE] + d;
    hide SingleQuoted;
    assert ([SPACE] + d) + ([SQUOTE] + rest) == [SPACE] + (d + ([SQUOTE] + rest));
  }

  lemma TextFold(s: Style, v: seq<Rune>, i: nat, p: Pen, breaks: bool, rest: seq<Rune>)
    requires i < |v| && v[i] == SPACE && Folds(s, v, i, p, false) && v[i + 1] != SPACE
    requires !p.indention && s.indent >= 1
    ensures Text(s, v, i, p, false, breaks, rest)
         == s.br + Spaces(s.indent) + Text(s, v, i + 1, AfterIndent(s), true, breaks, rest)
  {
    OnePiece(s, v, i, p, false, breaks);
    hide SingleQuoted;
    var d := SingleQuoted(s, v, i + 1, AfterIndent(s), true, breaks);
    assert SingleQuoted(s, v, i, p, false, breaks) == s.br + Spaces(s.indent) + d;
    assert (s.br + Spaces(s.indent) + d) + ([SQUOTE] + rest) == s.br + Spaces(s.indent) + (d + ([SQUOTE] + rest));
  }

  lemma TextBreak(s: Style, v: seq<Rune>, i: nat, p: Pen, spaces: bool, breaks: bool, rest: seq<Rune>)
    requires i < |v| && Break(v[i])
    ensures var u := Text(s, v, i + 1, Pen(0, p.whitespace, true), spaces, true, rest);
            Text(s, v, i, p, spaces, breaks, rest)
            == (if !breaks && v[i] == LF then s.br + (WrittenBreak(s, v[i]) + u) else WrittenBreak(s, v[i]) + u)
  {
    var d := SingleQuoted(s, v, i + 1, Pen(0, p.whitespace, true), spaces, true);
    var first := if !breaks && v[i] == LF then s.br else [];
    assert SingleQuoted(s, v, i, p, spaces, breaks) == first + WrittenBreak(s, v[i]) + d;
    hide SingleQuoted;
    Assoc3(first, WrittenBreak(s, v[i]), d, [SQUOTE] + rest);
    hide WrittenBreak;
    assert [] + (WrittenBreak(s, v[i]) + (d + ([SQUOTE] + rest))) == WrittenBreak(s, v[i]) + (d + ([SQUOTE] + rest));
  }

  lemma TextChar(s: Style, v: seq<Rune>, i: nat, p: Pen, spaces: bool, breaks: bool, rest: seq<Rune>)
    requires i < |v| && v[i] != SPACE && !Break(v[i])
    ensures var q := if breaks then AfterIndent(s) else p;
            var u := Text(s, v, i + 1, Pen(q.col + |Chars(v[i])|, q.whitespace, false), false, false, rest);
            Text(s, v, i, p, spaces, breaks, rest)
            == if breaks then IndentText(s, p) + (Chars(v[i]) + u) else Chars(v[i]) + u
  {
    var q := if breaks then AfterIndent(s) else p;
    var d := SingleQuoted(s, v, i + 1, Pen(q.col + |Chars(v[i])|, q.whitespace, false), false, false);
    var a := if breaks then IndentText(s, p) else [];
    OnePiece(s, v, i, p, spaces, breaks);
    hide SingleQuoted, IndentText;
    assert SingleQuoted(s, v, i, p, spaces, breaks) == a + Chars(v[i]) + d;
    Assoc3(a, Chars(v[i]), d, [SQUOTE] + rest);
    assert [] + (Chars(v[i]) + (d + ([SQUOTE] + rest))) == Chars(v[i]) + (d + ([SQUOTE] + rest));
  }

  /** After a CR the text never goes on with an LF, so that the two stay two breaks. */
  lemma NoStrayLF(s: Style, v: seq<Rune>, i: nat, w: bool, spaces: bool, rest: seq<Rune>)
    requires Ready(s, v, i, rest) && s.br == [CR] && 0 < i && Break(v[i - 1])
    ensures At(Text(s, v, i, Pen(0, w, true), spaces, true, rest), 0) != LF
  {
    if i < |v| {
      CharsAllowed(s, v, i);
      if Break(v[i]) {
        TextBreak(s, v, i, Pen(0, w, true), spaces, true, rest);
      } else {
        TextChar(s, v, i, Pen(0, w, true), spaces, true, rest);
      }
    }
  }

  /** The breaks read so far stand for themselves. */
  ghost predicate Joined(lead: seq<Rune>, trail: seq<Rune>) {
    lead != [] && (lead[0] == LF ==> trail != [])
  }

  lemma JoinMore(lead: seq<Rune>, trail: seq<Rune>, c: Rune)
    requires Joined(lead, trail)
    ensures Joined(lead, trail + [c]) && Join(lead, trail + [c]) == Join(lead, trail) + [c]
  {
    assert lead + trail + [c] == lead + (trail + [c]);
  }

  lemma Cons(ws: seq<Rune>, v: seq<Rune>, i: nat)
    requires i < |v|
    ensures ws + [v[i]] + v[i + 1..] == ws + v[i..]
    ensures [] + v[i + 1..] == v[i + 1..] && [] + v[i..] == v[i..]
  {
    assert v[i..] == [v[i]] + v[i + 1..];
  }

  /** One character that is neither a space nor a break, in the middle of a line. */
  lemma {:induction false} InLineChar(s: Style, v: seq<Rune>, i: nat, w: bool, at: nat,
      rest: seq<Rune>, col: nat, ws: seq<Rune>)
    requires Ready(s, v, i, rest) && i < |v| && v[i] != SPACE && !Break(v[i]) && col >= 1
    ensures var u := Text(s, v, i + 1, Pen(at, w, false), false, false, rest);
            Scan(true, Chars(v[i]) + u, col, After(ws)) == Done(ws + v[i..], rest)
    decreases |v| - i, 0
  {
    hide Scan;
    hide SingleQuoted;
    hide Text;
    var u := Text(s, v, i + 1, Pen(at, w, false), false, false, rest);
    CharsAllowed(s, v, i);
    if v[i] == SQUOTE {
      StepDoubledQuote(u, col, ws);
      InLine(s, v, i + 1, Pen(at, w, false), false, rest, col + 2, []);
    } else {
      StepLiteral(true, v[i], u, col, ws);
      InLine(s, v, i + 1, Pen(at, w, false), false, rest, col + 1, []);
    }
    Cons(ws, v, i);
  }

  lemma EndAfterBreaks(rest: seq<Rune>, lead: seq<Rune>, trail: seq<Rune>)
    requires At(rest, 0) != SQUOTE
    ensures Scan(true, [SQUOTE] + rest, 0, Breaks(lead, trail)) == Done(Join(lead, trail), rest)
  {
    var t := [SQUOTE] + rest;
    assert t[1..] == rest && At(t, 1) == At(rest, 0);
    assert Scan(true, t, 0, LineStart) == Done([], rest);
    assert Join(lead, trail) + [] == Join(lead, trail);
  }

  /** After a run of breaks. */
  lemma {:induction false} InBreaks(s: Style, v: seq<Rune>, i: nat, w: bool, spaces: bool,
      rest: seq<Rune>, lead: seq<Rune>, trail: seq<Rune>)
    requires Ready(s, v, i, rest) && 0 < i && Break(v[i - 1]) && Joined(lead, trail)
    ensures Scan(true, Text(s, v, i, Pen(0, w, true), spaces, true, rest), 0, Breaks(lead, trail))
         == Done(Join(lead, trail) + v[i..], rest)
    decreases |v| - i, 1
  {
    hide Scan;
    hide Join;
    hide Joined;
    var p := Pen(0, w, true);
    if i == |v| {
      assert Text(s, v, i, p, spaces, true, rest) == [SQUOTE] + rest;
      EndAfterBreaks(rest, lead, trail);
      assert Join(lead, trail) + v[i..] == Join(lead, trail);
      return;
    }
    hide SingleQuoted;
    hide Text;
    CharsAllowed(s, v, i);
    if Break(v[i]) {
      var u := Text(s, v, i + 1, p, spaces, true, rest);
      TextBreak(s, v, i, p, spaces, true, rest);
      if s.br == [CR] {
        NoStrayLF(s, v, i + 1, w, spaces, rest);
      }
      StepMoreBreak(true, WrittenBreak(s, v[i]), v[i], u, 0, lead, trail);
      JoinMore(lead, trail, v[i]);
      InBreaks(s, v, i + 1, w, spaces, rest, lead, trail + [v[i]]);
      Cons(Join(lead, trail), v, i);
    } else {
      var at := s.indent + |Chars(v[i])|;
      var u := Chars(v[i]) + Text(s, v, i + 1, Pen(at, true, false), false, false, rest);
      TextChar(s, v, i, p, spaces, true, rest);
      SkipIndent(true, s.indent, u, 0, lead, trail);
      StartLine(u, s.indent);
      InLineChar(s, v, i, true, at, rest, s.indent, []);
      Cons([], v, i);
    }
  }

  lemma StartLine(t: seq<Rune>, col: nat)
    requires t != [] && !BlankZ(t[0]) && col >= 1
    ensures Scan(true, t, col, LineStart) == Scan(true, t, col, After([]))
  {
  }

  /** In the middle of a line, after the blanks `ws`. */
  lemma {:induction false} InLine(s: Style, v: seq<Rune>, i: nat, p: Pen, spaces: bool,
      rest: seq<Rune>, col: nat, ws: seq<Rune>)
    requires Ready(s, v, i, rest) && col >= 1 && (!spaces ==> !p.indention)
    requires ws != [] ==> spaces && 0 < i && v[i - 1] == SPACE
    ensures Scan(true, Text(s, v, i, p, spaces, false, rest), col, After(ws)) == Done(ws + v[i..], rest)
    decreases |v| - i, 1
  {
    hide Scan;
    if i == |v| {
      assert Text(s, v, i, p, spaces, false, rest) == [SQUOTE] + rest;
      StepQuote(true, rest, col, ws);
      assert ws + v[i..] == ws;
      return;
    }
    hide SingleQuoted;
    hide Text;
    CharsAllowed(s, v, i);
    if v[i] == SPACE {
      InLineSpace(s, v, i, p, spaces, rest, col, ws);
    } else if Break(v[i]) {
      assert ws == [];
      InLineBreak(s, v, i, p, spaces, rest, col);
      Cons(ws, v, i);
    } else {
      TextChar(s, v, i, p, spaces, false, rest);
      InLineChar(s, v, i, p.whitespace, p.col + |Chars(v[i])|, rest, col, ws);
    }
  }

  lemma {:induction false} InLineSpace(s: Style, v: seq<Rune>, i: nat, p: Pen, spaces: bool,
      rest: seq<Rune>, col: nat, ws: seq<Rune>)
    requires Ready(s, v, i, rest) && i < |v| && v[i] == SPACE && col >= 1 && (!spaces ==> !p.indention)
    requires ws != [] ==> spaces
    ensures Scan(true, Text(s, v, i, p, spaces, false, rest), col, After(ws)) == Done(ws + v[i..], rest)
    decreases |v| - i, 0
  {
    hide Scan;
    hide SingleQuoted;
    hide Text;
    Cons(ws, v, i);
    if Folds(s, v, i, p, spaces) && v[i + 1] != SPACE {
      var u := Text(s, v, i + 1, AfterIndent(s), true, false, rest);
      TextFold(s, v, i, p, false, rest);
      CharsAllowed(s, v, i + 1);
      TextChar(s, v, i + 1, AfterIndent(s), true, false, rest);
      StepFold(true, s, u, col);
      InLine(s, v, i + 1, AfterIndent(s), true, rest, s.indent, []);
      Cons([], v, i);
    } else {
      var u := Text(s, v, i + 1, p.(col := p.col + 1), true, false, rest);
      TextSpace(s, v, i, p, spaces, false, rest);
      StepSpace(true, u, col, ws);
      InLine(s, v, i + 1, p.(col := p.col + 1), true, rest, col + 1, ws + [SPACE]);
    }
  }

  lemma {:induction false} InLineBreak(s: Style, v: seq<Rune>, i: nat, p: Pen, spaces: bool,
      rest: seq<Rune>, col: nat)
    requires Ready(s, v, i, rest) && i < |v| && Break(v[i])
    ensures Scan(true, Text(s, v, i, p, spaces, false, rest), col, Content) == Done(v[i..], rest)
    decreases |v| - i, 0
  {
    hide Scan;
    hide SingleQuoted;
    hide Text;
    CharsAllowed(s, v, i);
    var u := Text(s, v, i + 1, Pen(0, p.whitespace, true), spaces, true, rest);
    TextBreak(s, v, i, p, spaces, false, rest);
    if s.br == [CR] {
      NoStrayLF(s, v, i + 1, p.whitespace, spaces, rest);
    }
    FirstBreak(s, v[i], u, col);
    if v[i] == LF {
      InBreaks(s, v, i + 1, p.whitespace, spaces, rest, [LF], [LF]);
    } else {
      InBreaks(s, v, i + 1, p.whitespace, spaces, rest, [v[i]], []);
    }
    assert [v[i]] + v[i + 1..] == v[i..];
    assert [v[i]] + [] == [v[i]];
  }

  /** A first LF is written twice and read as one lead and one trailing break. */
  lemma FirstBreak(s: Style, c: Rune, u: seq<Rune>, col: nat)
    requires LineBreak(s.br) && (c == LF || c == LS || c == PS) && (s.br == [CR] ==> At(u, 0) != LF)
    ensures c == LF ==>
              Scan(true, s.br + (s.br + u), col, Content) == Scan(true, u, 0, Breaks([LF], [LF]))
    ensures c != LF ==>
              Scan(true, [c] + u, col, Content) == Scan(true, u, 0, Breaks([c], []))
  {
    hide Scan;
    if c == LF {
      StepBreak(true, s.br, LF, s.br + u, col);
      StepMoreBreak(true, s.br, LF, u, 0, [LF], []);
      assert [] + [LF] == [LF];
    } else {
      StepBreak(true, [c], c, u, col);
    }
  }

  /** Whenever the analysis allows single quotes, scanning what was written gives the value
      back. What follows must not start with a quote, which would be read as a doubled one. */
  lemma RoundTrip(s: Style, v: seq<Rune>, p: Pen, rest: seq<Rune>, col: nat)
    requires LineBreak(s.br) && s.indent >= 1
    requires SingleQuotedAllowed(s.unicode, v) && At(rest, 0) != SQUOTE
    ensures var w := if p.whitespace then 0 else 1;
            var t := SingleQuotedWritten(s, v, p) + rest;
            t[w] == SQUOTE && Scan(true, t[w + 1..], col + 1, LineStart) == Done(v, rest)
  {
    var q := Pen(p.col + (if p.whitespace then 0 else 1) + 1, false, false);
    InLine(s, v, 0, q, false, rest, col + 1, []);
    hide Scan;
    hide SingleQuoted;
    assert [] + v[0..] == v;
    AfterOpening(if p.whitespace then [] else [SPACE], SQUOTE, SingleQuoted(s, v, 0, q, false, false), rest);
  }

  // ---- The analysis is exact ----

  predicate AllBreaks(b: seq<Rune>) {
    forall i | 0 <= i < |b| :: Break(b[i])
  }

  /** What a scan in the mode begins with: whatever may come at once if a line goes on. */
  predicate WellStarted(m: Mode) {
    match m
    case Blanks(ws) => forall i | 0 <= i < |ws| :: Blank(ws[i])
    case Breaks(lead, trail) => lead != [] && AllBreaks(lead) && AllBreaks(trail)
    case _ => true
  }

  /** No space stands next to a break. */
  predicate Apart(v: seq<Rune>) {
    !BreakSpace(v) && !SpaceBreak(v)
  }

  lemma ApartConcat(a: seq<Rune>, b: seq<Rune>)
    requires Apart(a) && Apart(b)
    requires a != [] && b != [] ==> !(Break(a[|a| - 1]) && b[0] == SPACE) && !(a[|a| - 1] == SPACE && Break(b[0]))
    ensures Apart(a + b)
  {
    var v := a + b;
    forall i | 0 < i < |v|
      ensures !(Break(v[i - 1]) && v[i] == SPACE) && !(v[i - 1] == SPACE && Break(v[i]))
    {
      if i < |a| {
        assert v[i - 1] == a[i - 1] && v[i] == a[i];
      } else if i > |a| {
        assert v[i - 1] == b[i - 1 - |a|] && v[i] == b[i - |a|];
      }
    }
  }

  lemma RunsApart(b: seq<Rune>)
    ensures AllBreaks(b) ==> Apart(b)
    ensures (forall i | 0 <= i < |b| :: Blank(b[i])) ==> Apart(b)
  {
  }

  /** What is read from single quotes never has a space next to a break: folding has taken it away. */
  lemma {:induction false} ReadsApart(t: seq<Rune>, col: nat, m: Mode)
    requires Scan(true, t, col, m).Done? && WellStarted(m)
    ensures Apart(Scan(true, t, col, m).value)
    ensures (m == Content || m == LineStart) && !BlankZ(At(t, 0)) ==>
              var v := Scan(true, t, col, m).value; v != [] ==> v[0] != SPACE && !Break(v[0])
    decreases |t|, Rank(m)
  {
    hide Apart, AllBreaks;
    RunsApart([]);
    var c := At(t, 0);
    match m
    case LineStart => ReadsApart(t, col, Content);
    case Content =>
      if Blank(c) {
        ReadsApart(t[1..], col + 1, Blanks([c]));
      } else if Break(c) {
        AllBreaksOne(t);
        ReadsApart(t[BreakLen(t)..], 0, Breaks(BreakText(t), []));
      } else if c == SQUOTE && At(t, 1) == SQUOTE {
        ReadsApart(t[2..], col + 2, Content);
        OneMoreApart(SQUOTE, Scan(true, t[2..], col + 2, Content).value);
      } else if c != SQUOTE {
        ReadsApart(t[1..], col + 1, Content);
        OneMoreApart(c, Scan(true, t[1..], col + 1, Content).value);
      }
    case Blanks(ws) => BlanksApart(t, col, ws);
    case Breaks(lead, trail) => BreaksApart(t, col, lead, trail);
  }

  lemma AllBreaksOne(t: seq<Rune>)
    requires AtBreak(t)
    ensures AllBreaks(BreakText(t)) && BreakText(t) != [] && AllBreaks([])
    ensures forall b :: AllBreaks(b) ==> AllBreaks(b + BreakText(t))
  {
  }

  lemma OneMoreApart(c: Rune, v: seq<Rune>)
    requires Apart(v) && c != SPACE && !Break(c)
    ensures Apart([c] + v)
  {
    assert Apart([c]);
    ApartConcat([c], v);
  }

  lemma {:induction false} BlanksApart(t: seq<Rune>, col: nat, ws: seq<Rune>)
    requires Scan(true, t, col, Blanks(ws)).Done? && WellStarted(Blanks(ws))
    ensures Apart(Scan(true, t, col, Blanks(ws)).value)
    decreases |t|, Rank(Blanks(ws)), 0
  {
    var c := At(t, 0);
    if Blank(c) {
      ReadsApart(t[1..], col + 1, Blanks(ws + [c]));
    } else if Break(c) {
      AllBreaksOne(t);
      ReadsApart(t[BreakLen(t)..], 0, Breaks(BreakText(t), []));
    } else {
      ReadsApart(t, col, LineStart);
      RunsApart(ws);
      ApartConcat(ws, Scan(true, t, col, LineStart).value);
    }
  }

  lemma {:induction false} BreaksApart(t: seq<Rune>, col: nat, lead: seq<Rune>, trail: seq<Rune>)
    requires Scan(true, t, col, Breaks(lead, trail)).Done? && WellStarted(Breaks(lead, trail))
    ensures Apart(Scan(true, t, col, Breaks(lead, trail)).value)
    decreases |t|, Rank(Breaks(lead, trail)), 0
  {
    var c := At(t, 0);
    if Blank(c) {
      ReadsApart(t[1..], col + 1, Breaks(lead, trail));
    } else if Break(c) {
      AllBreaksOne(t);
      ReadsApart(t[BreakLen(t)..], 0, Breaks(lead, trail + BreakText(t)));
    } else {
      ReadsApart(t, col, LineStart);
      RunsApart(Join(lead, trail));
      ApartConcat(Join(lead, trail), Scan(true, t, col, LineStart).value);
    }
  }

  /** For a value without special characters the analysis is exact: it allows single quotes if and only
      if the single-quoted text reads back as the value. */
  lemma AllowedExactly(s: Style, v: seq<Rune>, p: Pen, rest: seq<Rune>, col: nat)
    requires LineBreak(s.br) && s.indent >= 1 && !Special(s.unicode, v) && At(rest, 0) != SQUOTE
    ensures var w := if p.whitespace then 0 else 1;
            var t := SingleQuotedWritten(s, v, p) + rest;
            && t[w] == SQUOTE
            && (SingleQuotedAllowed(s.unicode, v) <==> Scan(true, t[w + 1..], col + 1, LineStart) == Done(v, rest))
  {
    hide Scan, SingleQuoted;
    var w := if p.whitespace then 0 else 1;
    var t := SingleQuotedWritten(s, v, p) + rest;
    if SingleQuotedAllowed(s.unicode, v) {
      RoundTrip(s, v, p, rest, col);
    } else if Scan(true, t[w + 1..], col + 1, LineStart).Done? {
      ReadsApart(t[w + 1..], col + 1, LineStart);
    }
  }
}
