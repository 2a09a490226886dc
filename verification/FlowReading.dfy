/** What quoted scalars are, said without the scanner: pieces of text, and line folding as YAML 1.2
    section 6.5 has it. The scanner reads exactly these texts, and exactly these values. */
module FlowReading {
  import opened Utf8
  import opened CharClass
  import opened FlowScalar

  /** A blank; a line break; text that stands for a character; or a line break behind a backslash. */
  datatype Piece = Blanked(c: Rune) | Broken(text: seq<Rune>) | Kept(text: seq<Rune>, c: Rune) | Continued(text: seq<Rune>)

  function PieceText(p: Piece): seq<Rune> {
    match p
    case Blanked(c) => [c]
    case Broken(text) => text
    case Kept(text, _) => text
    case Continued(text) => text
  }

  function Text(ps: seq<Piece>): seq<Rune> {
    if ps == [] then [] else PieceText(ps[0]) + Text(ps[1..])
  }

  // ---- Which texts ----

  predicate IsBreakText(t: seq<Rune>) {
    (|t| == 1 && Break(t[0])) || t == [CR, LF]
  }

  /** Characters stand for themselves, but for the quote, and in double quotes the backslash. A quote is
      doubled in single quotes, and in double quotes there are escapes. */
  predicate IsPiece(single: bool, p: Piece) {
    match p
    case Blanked(c) => Blank(c)
    case Broken(text) => IsBreakText(text)
    case Kept(text, c) =>
      if text == [c] then !BlankZ(c) && c != Quote(single) && (single || c != BACKSLASH)
      else if single then text == [SQUOTE, SQUOTE] && c == SQUOTE
      else |text| >= 2 && text[0] == BACKSLASH && !Break(text[1]) && ReadEscape(text) == Escaped(c, |text|)
    case Continued(text) => !single && |text| >= 2 && text[0] == BACKSLASH && IsBreakText(text[1..])
  }

  predicate EndsLine(p: Piece) {
    p.Broken? || p.Continued?
  }

  /** A CR that is meant alone has no LF behind it. */
  predicate Separate(p: Piece, u: seq<Rune>) {
    EndsLine(p) && PieceText(p) != [] && PieceText(p)[|PieceText(p)| - 1] == CR ==> At(u, 0) != LF
  }

  /** A document indicator, and a blank, a break or the end behind it. */
  lemma MarkerMeant(t: seq<Rune>)
    ensures DocIndicator(t)
       <==> && |t| >= 3 && (t[..3] == ['-' as Rune, '-' as Rune, '-' as Rune] || t[..3] == ['.' as Rune, '.' as Rune, '.' as Rune])
            && (|t| == 3 || t[3] in {0, SPACE, TAB, CR, LF, NEL, LS, PS})
  {
  }

  /** No LF follows a CR that is meant alone, and no line begins with a document indicator.
      `margin` says that the pieces begin a line. */
  predicate Proper(single: bool, ps: seq<Piece>, tail: seq<Rune>, margin: bool) {
    ps != [] ==>
      && IsPiece(single, ps[0])
      && Separate(ps[0], Text(ps[1..]) + tail)
      && (margin && ps[0].Kept? ==> !DocIndicator(Text(ps) + tail))
      && Proper(single, ps[1..], tail, EndsLine(ps[0]))
  }

  // ---- Which values ----

  predicate White(p: Piece) {
    p.Blanked? || p.Broken?
  }

  /** How many blanks and breaks come first. */
  function Run(ps: seq<Piece>): (n: nat)
    ensures n <= |ps|
    ensures n < |ps| ==> !White(ps[n])
  {
    if ps == [] || !White(ps[0]) then 0 else 1 + Run(ps[1..])
  }

  /** A break as it is kept: LS and PS are, any other is LF. */
  function KeptBreak(text: seq<Rune>): Rune {
    if text == [LS] then LS else if text == [PS] then PS else LF
  }

  function BreaksOf(run: seq<Piece>): seq<Rune> {
    if run == [] then [] else (if run[0].Broken? then [KeptBreak(run[0].text)] else []) + BreaksOf(run[1..])
  }

  function BlanksOf(run: seq<Piece>): seq<Rune> {
    if run == [] then [] else (if run[0].Blanked? then [run[0].c] else []) + BlanksOf(run[1..])
  }

  /** Folding: blanks by themselves are kept; around breaks they are dropped. One break is a space, and
      of several the first is dropped, unless it is an LS or PS. */
  function Folded(run: seq<Piece>): seq<Rune> {
    var b := BreaksOf(run);
    if b == [] then BlanksOf(run)
    else if b[0] != LF then b
    else if |b| == 1 then [SPACE]
    else b[1..]
  }

  /** What blanks and breaks stand for; behind a continued line all breaks are kept. */
  function RunValue(continued: bool, run: seq<Piece>): seq<Rune> {
    if continued then BreaksOf(run) else Folded(run)
  }

  function Value(ps: seq<Piece>): seq<Rune>
    decreases |ps|
  {
    if ps == [] then []
    else
      match ps[0]
      case Kept(_, c) => [c] + Value(ps[1..])
      case Continued(_) =>
        var n := Run(ps[1..]);
        BreaksOf(ps[1..][..n]) + Value(ps[1..][n..])
      case _ =>
        var n := Run(ps);
        Folded(ps[..n]) + Value(ps[n..])
  }

  /** The value of what remains, after blanks and breaks that have been read. */
  function Remaining(continued: bool, run: seq<Piece>, ps: seq<Piece>): seq<Rune> {
    RunValue(continued, run + ps[..Run(ps)]) + Value(ps[Run(ps)..])
  }

  lemma NothingBefore(ps: seq<Piece>)
    ensures Remaining(false, [], ps) == Value(ps)
  {
    var n := Run(ps);
    assert [] + ps[..n] == ps[..n];
    if n == 0 {
      assert ps[..0] == [] && ps[0..] == ps && [] + Value(ps) == Value(ps);
    }
  }

  lemma ContinuedBefore(text: seq<Rune>, ps: seq<Piece>)
    ensures Value([Continued(text)] + ps) == Remaining(true, [], ps)
  {
    var n := Run(ps);
    assert ([Continued(text)] + ps)[1..] == ps;
    assert [] + ps[..n] == ps[..n];
  }

  /** One more blank or break has been read. */
  lemma OneMoreWhite(continued: bool, run: seq<Piece>, ps: seq<Piece>)
    requires ps != [] && White(ps[0])
    ensures Remaining(continued, run + [ps[0]], ps[1..]) == Remaining(continued, run, ps)
  {
    var n := Run(ps[1..]);
    assert run + [ps[0]] + ps[1..][..n] == run + ps[..n + 1];
    assert ps[1..][n..] == ps[n + 1..];
  }

  /** The run ends here. */
  lemma NoMoreWhite(continued: bool, run: seq<Piece>, ps: seq<Piece>)
    requires ps == [] || !White(ps[0])
    ensures Remaining(continued, run, ps) == RunValue(continued, run) + Value(ps)
  {
    assert run + ps[..0] == run && ps[0..] == ps;
  }

  lemma FirstOfConcat(a: seq<Piece>, b: seq<Piece>)
    requires a != []
    ensures a + b != [] && (a + b)[0] == a[0] && (a + b)[1..] == a[1..] + b
  {
  }

  lemma Assoc(x: seq<Rune>, y: seq<Rune>, z: seq<Rune>)
    ensures x + (y + z) == x + y + z
  {
  }

  lemma {:induction false} OfConcat(a: seq<Piece>, b: seq<Piece>)
    ensures BreaksOf(a + b) == BreaksOf(a) + BreaksOf(b) && BlanksOf(a + b) == BlanksOf(a) + BlanksOf(b)
  {
    if a == [] {
      assert a + b == b;
    } else {
      FirstOfConcat(a, b);
      OfFirst(a);
      OfFirst(a + b);
      hide BreaksOf, BlanksOf;
      OfConcat(a[1..], b);
      Assoc(if a[0].Broken? then [KeptBreak(a[0].text)] else [], BreaksOf(a[1..]), BreaksOf(b));
      Assoc(if a[0].Blanked? then [a[0].c] else [], BlanksOf(a[1..]), BlanksOf(b));
    }
  }

  lemma OfFirst(ps: seq<Piece>)
    requires ps != []
    ensures BreaksOf(ps) == (if ps[0].Broken? then [KeptBreak(ps[0].text)] else []) + BreaksOf(ps[1..])
    ensures BlanksOf(ps) == (if ps[0].Blanked? then [ps[0].c] else []) + BlanksOf(ps[1..])
  {
  }

  lemma OfOne(p: Piece)
    ensures BreaksOf([p]) == if p.Broken? then [KeptBreak(p.text)] else []
    ensures BlanksOf([p]) == if p.Blanked? then [p.c] else []
  {
    assert [p][1..] == [];
  }

  // ---- Modes of the scanner ----

  /** The mode is that of a scanner that has read the blanks and breaks of `run`. */
  predicate Stands(m: Mode, continued: bool, run: seq<Piece>) {
    match m
    case LineStart => !continued && run == []
    case Content => !continued && run == []
    case Blanks(ws) => !continued && BreaksOf(run) == [] && BlanksOf(run) == ws
    case Breaks(lead, trail) =>
      BreaksOf(run) == lead + trail && if continued then lead == [] else |lead| == 1
  }

  lemma JoinIsFolded(lead: seq<Rune>, trail: seq<Rune>, continued: bool, run: seq<Piece>)
    requires Stands(Breaks(lead, trail), continued, run)
    ensures Join(lead, trail) == RunValue(continued, run)
  {
    assert (lead + trail)[|lead|..] == trail;
  }

  lemma BlanksAreFolded(ws: seq<Rune>, continued: bool, run: seq<Piece>)
    requires Stands(Blanks(ws), continued, run)
    ensures ws == RunValue(continued, run)
  {
  }

  /** The mode after one more blank or break. */
  function NextMode(m: Mode, p: Piece): Mode
    requires White(p)
  {
    match (m, p)
    case (Blanks(ws), Blanked(c)) => Blanks(ws + [c])
    case (Breaks(_, _), Blanked(_)) => m
    case (_, Blanked(c)) => Blanks([c])
    case (Breaks(lead, trail), _) => Breaks(lead, trail + [KeptBreak(p.text)])
    case (_, _) => Breaks([KeptBreak(p.text)], [])
  }

  lemma StandsMore(m: Mode, continued: bool, run: seq<Piece>, p: Piece)
    requires Stands(m, continued, run) && White(p)
    ensures Stands(NextMode(m, p), continued, run + [p])
  {
    OfConcat(run, [p]);
    OfOne(p);
    if m.Breaks? {
      assert m.lead + m.trail + [] == m.lead + m.trail;
      if p.Broken? {
        assert m.lead + m.trail + [KeptBreak(p.text)] == m.lead + (m.trail + [KeptBreak(p.text)]);
      }
    }
  }

  // ---- One piece of text ----

  lemma BreakRead(text: seq<Rune>, u: seq<Rune>)
    requires IsBreakText(text) && (text[|text| - 1] == CR ==> At(u, 0) != LF)
    ensures AtBreak(text + u) && BreakLen(text + u) == |text| && BreakText(text + u) == [KeptBreak(text)]
    ensures (text + u)[|text|..] == u
  {
    assert (text + u)[0] == text[0];
  }

  lemma {:induction false} HexPrefix(t: seq<Rune>, u: seq<Rune>, n: nat)
    requires n <= |t|
    ensures HexNumber(t + u, n) == HexNumber(t, n)
    decreases n
  {
    if n > 0 {
      HexPrefix(t, u, n - 1);
    }
  }

  /** An escape is read by itself. */
  lemma EscapeAlone(t: seq<Rune>, u: seq<Rune>)
    requires At(t, 0) == BACKSLASH && |t| >= 2
    ensures ReadEscape(t).Escaped? && ReadEscape(t).len <= |t| ==> ReadEscape(t + u) == ReadEscape(t)
  {
    assert (t + u)[0] == t[0] && (t + u)[1] == t[1];
    assert (t + u)[2..] == t[2..] + u;
    var n := CodeLength(At(t, 1));
    if n <= |t| - 2 {
      HexPrefix(t[2..], u, n);
    }
  }

  lemma EscapeOfPrefix(t: seq<Rune>)
    requires At(t, 0) == BACKSLASH && ReadEscape(t).Escaped?
    ensures var n := ReadEscape(t).len; ReadEscape(t[..n]) == ReadEscape(t)
  {
    var n := ReadEscape(t).len;
    assert t == t[..n] + t[n..];
    assert t[..n][0] == t[0] && t[..n][1] == t[1];
    var k := CodeLength(At(t, 1));
    if SimpleEscape(At(t, 1)) < 0 {
      assert t[2..] == t[..n][2..] + t[n..];
      HexPrefix(t[..n][2..], t[n..], k);
    }
  }

  // ---- One step of the scanner ----

  lemma StepWhite(single: bool, p: Piece, u: seq<Rune>, col: nat, m: Mode)
    requires White(p) && IsPiece(single, p) && Separate(p, u)
    ensures Scan(single, PieceText(p) + u, col, m) == Scan(single, u, if p.Blanked? then col + 1 else 0, NextMode(m, p))
  {
    var t := PieceText(p) + u;
    assert t[0] == PieceText(p)[0];
    if p.Broken? {
      BreakRead(p.text, u);
    } else {
      assert t[1..] == u;
    }
    if m == LineStart {
      assert Scan(single, t, col, m) == Scan(single, t, col, Content);
    }
  }

  predicate Opens(t: seq<Rune>, col: nat, m: Mode) {
    m == Content || (m == LineStart && !(col == 0 && DocIndicator(t)))
  }

  lemma StepKept(single: bool, p: Piece, u: seq<Rune>, col: nat, m: Mode)
    requires p.Kept? && IsPiece(single, p) && Opens(p.text + u, col, m)
    ensures Scan(single, p.text + u, col, m) == Push([p.c], Scan(single, u, col + |p.text|, Content))
  {
    var t := p.text + u;
    assert t[0] == p.text[0] && t[|p.text|..] == u;
    if p.text != [p.c] {
      assert t[1] == p.text[1];
      if !single {
        EscapeAlone(p.text, u);
      }
    }
    if m == LineStart {
      assert Scan(single, t, col, m) == Scan(single, t, col, Content);
    }
  }

  lemma StepContinued(p: Piece, u: seq<Rune>, col: nat, m: Mode)
    requires p.Continued? && IsPiece(false, p) && Separate(p, u) && (m == Content || m == LineStart)
    ensures Scan(false, p.text + u, col, m) == Scan(false, u, 0, Breaks([], []))
  {
    var t := p.text + u;
    assert t[0] == BACKSLASH && t[1..] == p.text[1..] + u && t[1] == t[1..][0];
    BreakRead(p.text[1..], u);
    assert t[|p.text|..] == u;
    if m == LineStart {
      assert Scan(false, t, col, m) == Scan(false, t, col, Content);
    }
  }

  lemma StepEnd(single: bool, rest: seq<Rune>, col: nat, m: Mode)
    requires (m == Content || m == LineStart) && (single ==> At(rest, 0) != SQUOTE)
    ensures Scan(single, [Quote(single)] + rest, col, m) == Done([], rest)
  {
    var t := [Quote(single)] + rest;
    assert t[1..] == rest && At(t, 1) == At(rest, 0);
    if m == LineStart {
      assert Scan(single, t, col, m) == Scan(single, t, col, Content);
    }
  }

  /** The run has ended. */
  lemma StepOut(single: bool, t: seq<Rune>, col: nat, m: Mode, continued: bool, run: seq<Piece>)
    requires (m.Blanks? || m.Breaks?) && Stands(m, continued, run) && !Blank(At(t, 0)) && !Break(At(t, 0))
    ensures Scan(single, t, col, m) == Push(RunValue(continued, run), Scan(single, t, col, LineStart))
  {
    if m.Blanks? {
      BlanksAreFolded(m.ws, continued, run);
    } else {
      JoinIsFolded(m.lead, m.trail, continued, run);
    }
  }

  // ---- Whole scalars ----

  /** The characters `t` are those of the pieces, the closing quote, and `rest`. */
  predicate Spelled(single: bool, ps: seq<Piece>, t: seq<Rune>, rest: seq<Rune>, margin: bool) {
    && t == Text(ps) + ([Quote(single)] + rest)
    && Proper(single, ps, [Quote(single)] + rest, margin)
    && (single ==> At(rest, 0) != SQUOTE)
  }

  lemma SpelledBehind(single: bool, ps: seq<Piece>, t: seq<Rune>, rest: seq<Rune>, margin: bool) returns (u: seq<Rune>)
    requires ps != [] && Spelled(single, ps, t, rest, margin)
    ensures t == PieceText(ps[0]) + u && ps == [ps[0]] + ps[1..]
    ensures IsPiece(single, ps[0]) && Separate(ps[0], u) && Spelled(single, ps[1..], u, rest, EndsLine(ps[0]))
    ensures margin && ps[0].Kept? ==> !DocIndicator(t)
  {
    u := Text(ps[1..]) + ([Quote(single)] + rest);
    assert t == PieceText(ps[0]) + u;
  }

  function After(p: Piece): Mode {
    if p.Continued? then Breaks([], []) else Content
  }

  /** What remains behind a piece that is neither a blank nor a break. */
  lemma ValueBehind(p: Piece, ps: seq<Piece>)
    requires !White(p)
    ensures Value([p] + ps) == (if p.Kept? then [p.c] else []) + Remaining(p.Continued?, [], ps)
  {
    assert ([p] + ps)[1..] == ps;
    if p.Kept? {
      NothingBefore(ps);
    } else {
      ContinuedBefore(p.text, ps);
      assert [] + Remaining(true, [], ps) == Remaining(true, [], ps);
    }
  }

  lemma StepPiece(single: bool, p: Piece, u: seq<Rune>, col: nat, m: Mode)
    requires !White(p) && IsPiece(single, p) && Separate(p, u) && (m == Content || m == LineStart)
    requires p.Kept? ==> Opens(PieceText(p) + u, col, m)
    ensures Scan(single, PieceText(p) + u, col, m)
         == Push(if p.Kept? then [p.c] else [], Scan(single, u, if p.Kept? then col + |p.text| else 0, After(p)))
  {
    if p.Kept? {
      StepKept(single, p, u, col, m);
    } else {
      StepContinued(p, u, col, m);
      PushNothing(Scan(false, u, 0, Breaks([], [])));
    }
  }

  /** Every text that is spelled reads as its value. */
  lemma {:induction false} Reads(single: bool, ps: seq<Piece>, t: seq<Rune>, rest: seq<Rune>, col: nat, m: Mode,
      continued: bool, run: seq<Piece>, margin: bool)
    requires Spelled(single, ps, t, rest, margin) && Stands(m, continued, run) && (col == 0 && m != Content ==> margin)
    ensures Scan(single, t, col, m) == Done(Remaining(continued, run, ps), rest)
    decreases |ps|, Rank(m)
  {
    hide Scan, Remaining, Stands, Value, RunValue, Spelled, Separate, IsPiece;
    if ps != [] && White(ps[0]) {
      var p := ps[0];
      var u := SpelledBehind(single, ps, t, rest, margin);
      StepWhite(single, p, u, col, m);
      StandsMore(m, continued, run, p);
      Reads(single, ps[1..], u, rest, if p.Blanked? then col + 1 else 0, NextMode(m, p), continued, run + [p], EndsLine(p));
      OneMoreWhite(continued, run, ps);
    } else if m.Blanks? || m.Breaks? {
      OutOfWhite(single, ps, t, rest, margin);
      StepOut(single, t, col, m, continued, run);
      StandsFirst();
      Reads(single, ps, t, rest, col, LineStart, false, [], margin);
      NothingBefore(ps);
      NoMoreWhite(continued, run, ps);
    } else {
      StandsOnlyFirst(m, continued, run);
      NothingBefore(ps);
      if ps == [] {
        EmptySpelled(single, t, rest, margin);
        StepEnd(single, rest, col, m);
      } else {
        var p := ps[0];
        var u := SpelledBehind(single, ps, t, rest, margin);
        StepPiece(single, p, u, col, m);
        StandsFirst();
        Reads(single, ps[1..], u, rest, if p.Kept? then col + |p.text| else 0, After(p), p.Continued?, [], EndsLine(p));
        ValueBehind(p, ps[1..]);
      }
    }
  }

  lemma StandsFirst()
    ensures Stands(LineStart, false, []) && Stands(Content, false, []) && Stands(Breaks([], []), true, [])
  {
  }

  lemma StandsOnlyFirst(m: Mode, continued: bool, run: seq<Piece>)
    requires Stands(m, continued, run) && (m == Content || m == LineStart)
    ensures !continued && run == []
  {
  }

  lemma EmptySpelled(single: bool, t: seq<Rune>, rest: seq<Rune>, margin: bool)
    ensures Spelled(single, [], t, rest, margin) <==> t == [Quote(single)] + rest && (single ==> At(rest, 0) != SQUOTE)
    ensures Value([]) == []
  {
  }

  lemma OutOfWhite(single: bool, ps: seq<Piece>, t: seq<Rune>, rest: seq<Rune>, margin: bool)
    requires Spelled(single, ps, t, rest, margin) && (ps == [] || !White(ps[0]))
    ensures !Blank(At(t, 0)) && !Break(At(t, 0))
  {
    if ps != [] {
      var u := SpelledBehind(single, ps, t, rest, margin);
      assert t[0] == PieceText(ps[0])[0];
    }
  }

  // ---- Only what is spelled is read ----

  lemma FirstWhite(single: bool, t: seq<Rune>) returns (p: Piece, u: seq<Rune>)
    requires Blank(At(t, 0)) || Break(At(t, 0))
    ensures White(p) && t == PieceText(p) + u && IsPiece(single, p) && Separate(p, u)
  {
    if Blank(t[0]) {
      p, u := Blanked(t[0]), t[1..];
    } else {
      var n := BreakLen(t);
      p, u := Broken(t[..n]), t[n..];
      assert n == 2 ==> t[..n] == [CR, LF];
      assert n == 1 && t[0] == CR ==> At(u, 0) == At(t, 1);
    }
  }

  predicate AtEnd(single: bool, t: seq<Rune>) {
    At(t, 0) == Quote(single) && !(single && At(t, 1) == SQUOTE)
  }

  lemma FirstOther(single: bool, t: seq<Rune>, col: nat, m: Mode) returns (p: Piece, u: seq<Rune>)
    requires (m == Content || m == LineStart) && Scan(single, t, col, m).Done?
    requires !Blank(At(t, 0)) && !Break(At(t, 0)) && !AtEnd(single, t)
    ensures !White(p) && t == PieceText(p) + u && IsPiece(single, p) && Separate(p, u)
    ensures p.Kept? ==> Opens(t, col, m)
  {
    if m == LineStart {
      assert Scan(single, t, col, Content).Done?;
    }
    var c := At(t, 0);
    if single && c == SQUOTE {
      p, u := Kept([SQUOTE, SQUOTE], SQUOTE), t[2..];
    } else if !single && c == BACKSLASH && Break(At(t, 1)) {
      p, u := FirstContinued(t);
    } else if !single && c == BACKSLASH {
      var e := ReadEscape(t);
      EscapeOfPrefix(t);
      p, u := Kept(t[..e.len], e.c), t[e.len..];
      assert t[..e.len][1] == t[1];
    } else {
      p, u := Kept([c], c), t[1..];
    }
  }

  lemma FirstContinued(t: seq<Rune>) returns (p: Piece, u: seq<Rune>)
    requires At(t, 0) == BACKSLASH && Break(At(t, 1))
    ensures p.Continued? && t == PieceText(p) + u && IsPiece(false, p) && Separate(p, u)
  {
    var b, v := FirstWhite(false, t[1..]);
    p, u := Continued([BACKSLASH] + b.text), v;
    assert p.text[1..] == b.text;
  }

  lemma OneMoreSpelled(single: bool, p: Piece, ps: seq<Piece>, u: seq<Rune>, rest: seq<Rune>, margin: bool)
    requires Spelled(single, ps, u, rest, EndsLine(p)) && IsPiece(single, p) && Separate(p, u)
    requires margin && p.Kept? ==> !DocIndicator(PieceText(p) + u)
    ensures Spelled(single, [p] + ps, PieceText(p) + u, rest, margin)
  {
    assert ([p] + ps)[1..] == ps;
    assert PieceText(p) + u == Text([p] + ps) + ([Quote(single)] + rest);
  }

  /** Whatever is read is spelled by some pieces, and is their value. */
  lemma {:induction false} IsSpelled(single: bool, t: seq<Rune>, col: nat, m: Mode, continued: bool, run: seq<Piece>)
    returns (ps: seq<Piece>)
    requires Scan(single, t, col, m).Done? && Stands(m, continued, run)
    ensures var d := Scan(single, t, col, m);
            && Spelled(single, ps, t, d.rest, col == 0 && m != Content)
            && d.value == Remaining(continued, run, ps)
    decreases |t|, Rank(m)
  {
    hide Remaining, Stands, Value, RunValue, Spelled, Separate, IsPiece;
    hide Scan;
    var d := Scan(single, t, col, m);
    if Blank(At(t, 0)) || Break(At(t, 0)) {
      var p, u := FirstWhite(single, t);
      StepWhite(single, p, u, col, m);
      StandsMore(m, continued, run, p);
      PieceLength(single, p);
      ps := IsSpelled(single, u, if p.Blanked? then col + 1 else 0, NextMode(m, p), continued, run + [p]);
      OneMoreSpelled(single, p, ps, u, d.rest, col == 0 && m != Content);
      ps := [p] + ps;
      OneMoreWhite(continued, run, ps);
    } else if m.Blanks? || m.Breaks? {
      StepOut(single, t, col, m, continued, run);
      StandsFirst();
      ps := IsSpelled(single, t, col, LineStart, false, []);
      FirstIsOther(single, ps, t, d.rest, col == 0);
      NothingBefore(ps);
      NoMoreWhite(continued, run, ps);
    } else {
      StandsOnlyFirst(m, continued, run);
      if AtEnd(single, t) {
        ps := [];
        NothingBefore(ps);
        assert t == [Quote(single)] + t[1..];
        StepEnd(single, t[1..], col, m);
        EmptySpelled(single, t, t[1..], col == 0 && m != Content);
      } else {
        var p, u := FirstOther(single, t, col, m);
        StepPiece(single, p, u, col, m);
        StandsFirst();
        PieceLength(single, p);
        ps := IsSpelled(single, u, if p.Kept? then col + |p.text| else 0, After(p), p.Continued?, []);
        ValueBehind(p, ps);
        OneMoreSpelled(single, p, ps, u, d.rest, col == 0 && m != Content);
        ps := [p] + ps;
        NothingBefore(ps);
      }
    }
  }

  lemma PieceLength(single: bool, p: Piece)
    requires IsPiece(single, p)
    ensures PieceText(p) != []
    ensures p.Kept? ==> |p.text| > 0
  {
  }

  lemma FirstIsOther(single: bool, ps: seq<Piece>, t: seq<Rune>, rest: seq<Rune>, margin: bool)
    requires Spelled(single, ps, t, rest, margin) && !Blank(At(t, 0)) && !Break(At(t, 0))
    ensures ps == [] || !White(ps[0])
  {
    if ps != [] {
      var u := SpelledBehind(single, ps, t, rest, margin);
      assert t[0] == PieceText(ps[0])[0];
    }
  }

  /** Behind the opening quote the scanner reads a value exactly if the text is spelled so, by pieces
      whose value it is. */
  lemma ReadsExactly(single: bool, t: seq<Rune>, col: nat, v: seq<Rune>, rest: seq<Rune>)
    ensures Scan(single, t, col, LineStart) == Done(v, rest)
       <==> exists ps :: Spelled(single, ps, t, rest, col == 0) && Value(ps) == v
  {
    hide Scan, Spelled, Value, Remaining;
    StandsFirst();
    if Scan(single, t, col, LineStart) == Done(v, rest) {
      var ps := IsSpelled(single, t, col, LineStart, false, []);
      NothingBefore(ps);
    }
    forall ps | Spelled(single, ps, t, rest, col == 0)
      ensures Scan(single, t, col, LineStart) == Done(Value(ps), rest)
    {
      Reads(single, ps, t, rest, col, LineStart, false, [], col == 0);
      NothingBefore(ps);
    }
  }
}
