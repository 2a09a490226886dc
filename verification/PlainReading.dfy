/** What plain scalars are, said without the scanner: characters, and blanks and line breaks that are folded
    between them and dropped behind the last one. The scanner reads exactly these texts, and exactly these
    values. */
module PlainReading {
  import opened Utf8
  import opened CharClass
  import opened FlowReading
  import F = FlowScalar
  import P = PlainScalar

  /** What stands before a piece: nothing yet, a character, blanks only, or a break. */
  datatype Place = AtStart | InWord | BehindBlank | BehindBreak

  function Next(g: Place, p: Piece): Place {
    match p
    case Blanked(_) => if g.BehindBreak? then g else BehindBlank
    case Broken(_) => BehindBreak
    case _ => InWord
  }

  function NextColumn(col: nat, p: Piece): nat {
    if p.Broken? then 0 else col + 1
  }

  // ---- Which texts ----

  /** A ':' with a blank behind it, or an indicator of a flow collection. */
  predicate Indicator(flow: bool, t: seq<Rune>) {
    var c := F.At(t, 0);
    || (c == ':' as int && BlankZ(F.At(t, 1)))
    || (flow && (c == ',' as int || c == '?' as int || c == '[' as int || c == ']' as int || c == '{' as int || c == '}' as int))
  }

  /** Behind blanks and breaks no scalar goes on: at a comment, at a document indicator, or in a block left of
      the indentation. */
  predicate Stopped(flow: bool, indent: int, t: seq<Rune>, col: nat, g: Place) {
    !g.InWord? && (F.At(t, 0) == '#' as int || (col == 0 && F.DocIndicator(t)) || (!g.AtStart? && !flow && col < indent))
  }

  /** The pieces can stand before `tail`, in a scalar that goes on in column `col`. */
  predicate Proper(flow: bool, indent: int, ps: seq<Piece>, tail: seq<Rune>, col: nat, g: Place) {
    ps != [] ==>
      && (match ps[0]
          case Kept(text, c) =>
            && text == [c] && !BlankZ(c)
            && !Indicator(flow, Text(ps) + tail) && !Stopped(flow, indent, Text(ps) + tail, col, g)
          case Blanked(c) => Blank(c) && !(g.BehindBreak? && col < indent && c == TAB)
          case Broken(text) => IsBreakText(text) && Separate(ps[0], Text(ps[1..]) + tail)
          case Continued(_) => false)
      && Proper(flow, indent, ps[1..], tail, NextColumn(col, ps[0]), Next(g, ps[0]))
  }

  /** The column and the place behind the pieces. */
  function Behind(ps: seq<Piece>, col: nat, g: Place): (nat, Place) {
    if ps == [] then (col, g) else Behind(ps[1..], NextColumn(col, ps[0]), Next(g, ps[0]))
  }

  /** Here the scalar ends. */
  predicate IsEnd(flow: bool, indent: int, rest: seq<Rune>, at: (nat, Place)) {
    var c := F.At(rest, 0);
    !Blank(c) && !Break(c) && (c == 0 || Indicator(flow, rest) || Stopped(flow, indent, rest, at.0, at.1))
  }

  predicate Spelled(flow: bool, indent: int, ps: seq<Piece>, t: seq<Rune>, rest: seq<Rune>, col: nat, g: Place) {
    t == Text(ps) + rest && Proper(flow, indent, ps, rest, col, g) && IsEnd(flow, indent, rest, Behind(ps, col, g))
  }

  // ---- Which values ----

  /** Blanks and breaks are folded before a character; behind the last one they are dropped. */
  function Words(run: seq<Piece>, ps: seq<Piece>): seq<Rune>
    decreases |ps|
  {
    if ps == [] then []
    else
      match ps[0]
      case Kept(_, c) => Folded(run) + [c] + Words([], ps[1..])
      case _ => Words(run + [ps[0]], ps[1..])
  }

  // ---- Modes of the scanner ----

  function ModeAt(g: Place): P.Mode {
    match g
    case AtStart => P.Top
    case InWord => P.Word
    case _ => P.Gap
  }

  /** The scanner holds the blanks and breaks of `run`. */
  predicate Holds(g: Place, held: P.Pending, run: seq<Piece>) {
    match g
    case AtStart => held.Nothing? && run == []
    case InWord => held.Nothing? && run == []
    case BehindBlank => held.Blanks? && BreaksOf(run) == [] && BlanksOf(run) == held.ws
    case BehindBreak => held.Breaks? && |held.lead| == 1 && BreaksOf(run) == held.lead + held.trail
  }

  function More(held: P.Pending, p: Piece): P.Pending
    requires White(p)
  {
    match p
    case Blanked(c) => P.MoreBlank(held, c)
    case _ => P.MoreBreak(held, [KeptBreak(p.text)])
  }

  lemma HoldsMore(g: Place, held: P.Pending, run: seq<Piece>, p: Piece)
    requires Holds(g, held, run) && White(p)
    ensures Holds(Next(g, p), More(held, p), run + [p])
  {
    OfConcat(run, [p]);
    OfOne(p);
    if held.Breaks? {
      assert held.lead + held.trail + [] == held.lead + held.trail;
      if p.Broken? {
        assert held.lead + held.trail + [KeptBreak(p.text)] == held.lead + (held.trail + [KeptBreak(p.text)]);
      }
    }
  }

  lemma HeldIsFolded(g: Place, held: P.Pending, run: seq<Piece>)
    requires Holds(g, held, run)
    ensures P.PendingText(held) == Folded(run)
  {
    if held.Breaks? {
      assert (held.lead + held.trail)[1..] == held.trail;
    }
  }

  // ---- One step of the scanner ----

  lemma StepWhite(flow: bool, indent: int, p: Piece, u: seq<Rune>, col: nat, g: Place, held: P.Pending)
    requires White(p) && (if p.Blanked? then Blank(p.c) else IsBreakText(p.text) && Separate(p, u))
    requires held.Breaks? ==> g.BehindBreak?
    requires p.Blanked? && g.BehindBreak? && col < indent ==> p.c != TAB
    ensures P.Scan(flow, indent, PieceText(p) + u, col, ModeAt(g), held)
         == P.Scan(flow, indent, u, NextColumn(col, p), ModeAt(Next(g, p)), More(held, p))
  {
    var t := PieceText(p) + u;
    assert t[0] == PieceText(p)[0];
    if p.Broken? {
      BreakRead(p.text, u);
    } else {
      assert t[1..] == u;
    }
    P.TopStep(flow, indent, t, col, held);
    P.WordStep(flow, indent, t, col, held, []);
    P.GapStep(flow, indent, t, col, held);
    hide P.Scan;
  }

  /** At a character the scanner goes on with the word, or stops. */
  lemma AtCharacter(flow: bool, indent: int, t: seq<Rune>, col: nat, g: Place, held: P.Pending)
    requires !Blank(F.At(t, 0)) && !Break(F.At(t, 0))
    ensures P.Scan(flow, indent, t, col, ModeAt(g), held)
         == if Stopped(flow, indent, t, col, g) then P.Done([], t, held.Breaks?)
            else P.Scan(flow, indent, t, col, P.Word, held)
  {
    P.GapStep(flow, indent, t, col, held);
    P.TopStep(flow, indent, t, col, held);
    hide P.Scan;
  }

  lemma StepKept(flow: bool, indent: int, c: Rune, u: seq<Rune>, col: nat, g: Place, held: P.Pending, run: seq<Piece>)
    requires !BlankZ(c) && Holds(g, held, run)
    requires !Indicator(flow, [c] + u) && !Stopped(flow, indent, [c] + u, col, g)
    ensures P.Scan(flow, indent, [c] + u, col, ModeAt(g), held)
         == P.Push(Folded(run) + [c], P.Scan(flow, indent, u, col + 1, P.Word, P.Nothing))
  {
    var t := [c] + u;
    assert t[0] == c && t[1..] == u;
    AtCharacter(flow, indent, t, col, g, held);
    P.WordStep(flow, indent, t, col, held, []);
    HeldIsFolded(g, held, run);
    hide P.Scan, P.PendingText, Folded;
    P.PushNothing(P.Scan(flow, indent, t, col, P.Word, held));
    assert [] + P.PendingText(held) + [c] == P.PendingText(held) + [c];
  }

  lemma StepEnd(flow: bool, indent: int, rest: seq<Rune>, col: nat, g: Place, held: P.Pending)
    requires IsEnd(flow, indent, rest, (col, g))
    ensures P.Scan(flow, indent, rest, col, ModeAt(g), held) == P.Done([], rest, held.Breaks?)
  {
    AtCharacter(flow, indent, rest, col, g, held);
    P.WordStep(flow, indent, rest, col, held, []);
    hide P.Scan;
  }

  // ---- Whole scalars ----

  lemma SpelledBehind(flow: bool, indent: int, ps: seq<Piece>, t: seq<Rune>, rest: seq<Rune>, col: nat, g: Place)
    returns (u: seq<Rune>)
    requires ps != [] && Spelled(flow, indent, ps, t, rest, col, g)
    ensures t == PieceText(ps[0]) + u && !ps[0].Continued?
    ensures Spelled(flow, indent, ps[1..], u, rest, NextColumn(col, ps[0]), Next(g, ps[0]))
    ensures match ps[0]
            case Kept(text, c) => text == [c] && !BlankZ(c) && !Indicator(flow, t) && !Stopped(flow, indent, t, col, g)
            case Blanked(c) => Blank(c) && !(g.BehindBreak? && col < indent && c == TAB)
            case Broken(text) => IsBreakText(text) && Separate(ps[0], u)
            case Continued(_) => false
  {
    u := Text(ps[1..]) + rest;
    hide Indicator, Stopped, IsEnd;
    assert t == PieceText(ps[0]) + u;
  }

  lemma WordsBehind(run: seq<Piece>, ps: seq<Piece>)
    requires ps != []
    ensures ps[0].Kept? ==> Words(run, ps) == Folded(run) + [ps[0].c] + Words([], ps[1..])
    ensures !ps[0].Kept? ==> Words(run, ps) == Words(run + [ps[0]], ps[1..])
  {
  }

  /** Every text that is spelled reads as its value. */
  lemma {:induction false} Reads(flow: bool, indent: int, ps: seq<Piece>, t: seq<Rune>, rest: seq<Rune>, col: nat, g: Place,
      held: P.Pending, run: seq<Piece>)
    requires Spelled(flow, indent, ps, t, rest, col, g) && Holds(g, held, run)
    ensures P.Scan(flow, indent, t, col, ModeAt(g), held)
         == P.Done(Words(run, ps), rest, Behind(ps, col, g).1.BehindBreak?)
    decreases |ps|
  {
    if ps == [] {
      assert t == rest;
      StepEnd(flow, indent, rest, col, g, held);
      return;
    }
    var p := ps[0];
    hide P.Scan, Words, Folded, Indicator, Stopped, IsEnd;
    var u := SpelledBehind(flow, indent, ps, t, rest, col, g);
    hide Spelled;
    WordsBehind(run, ps);
    if White(p) {
      StepWhite(flow, indent, p, u, col, g, held);
      HoldsMore(g, held, run, p);
      Reads(flow, indent, ps[1..], u, rest, NextColumn(col, p), Next(g, p), More(held, p), run + [p]);
    } else {
      StepKept(flow, indent, p.c, u, col, g, held, run);
      NothingHeld();
      Reads(flow, indent, ps[1..], u, rest, col + 1, InWord, P.Nothing, []);
    }
  }

  lemma NothingHeld()
    ensures Holds(InWord, P.Nothing, []) && Holds(AtStart, P.Nothing, [])
  {
  }

  // ---- Only what is spelled is read ----

  lemma FirstWhitePiece(t: seq<Rune>) returns (p: Piece, u: seq<Rune>)
    requires Blank(F.At(t, 0)) || Break(F.At(t, 0))
    ensures White(p) && t == PieceText(p) + u && |u| < |t|
    ensures if p.Blanked? then Blank(p.c) && p.c == t[0] else IsBreakText(p.text) && Separate(p, u)
  {
    p, u := FirstWhite(true, t);
    assert t[0] == PieceText(p)[0];
  }

  lemma OneMorePiece(flow: bool, indent: int, p: Piece, ps: seq<Piece>, u: seq<Rune>, rest: seq<Rune>, col: nat, g: Place)
    requires Spelled(flow, indent, ps, u, rest, NextColumn(col, p), Next(g, p))
    requires match p
             case Kept(text, c) =>
               && text == [c] && !BlankZ(c)
               && !Indicator(flow, PieceText(p) + u) && !Stopped(flow, indent, PieceText(p) + u, col, g)
             case Blanked(c) => Blank(c) && !(g.BehindBreak? && col < indent && c == TAB)
             case Broken(text) => IsBreakText(text) && Separate(p, u)
             case Continued(_) => false
    ensures Spelled(flow, indent, [p] + ps, PieceText(p) + u, rest, col, g)
  {
    var all := [p] + ps;
    assert all[1..] == ps && all[0] == p;
    hide Indicator, Stopped, IsEnd;
    assert PieceText(p) + u == Text(all) + rest;
  }

  lemma NoTab(flow: bool, indent: int, t: seq<Rune>, col: nat, g: Place, held: P.Pending)
    requires P.Scan(flow, indent, t, col, ModeAt(g), held).Done? && (g.BehindBreak? ==> held.Breaks?)
    ensures !(g.BehindBreak? && col < indent && F.At(t, 0) == TAB)
  {
    P.GapStep(flow, indent, t, col, held);
  }

  /** Whatever is read is spelled by some pieces, and is their value. */
  lemma {:induction false} IsSpelled(flow: bool, indent: int, t: seq<Rune>, col: nat, g: Place, held: P.Pending, run: seq<Piece>)
    returns (ps: seq<Piece>)
    requires P.Scan(flow, indent, t, col, ModeAt(g), held).Done? && Holds(g, held, run)
    ensures Spelled(flow, indent, ps, t, P.Scan(flow, indent, t, col, ModeAt(g), held).rest, col, g)
    decreases |t|
  {
    var rest := P.Scan(flow, indent, t, col, ModeAt(g), held).rest;
    if Blank(F.At(t, 0)) || Break(F.At(t, 0)) {
      NoTab(flow, indent, t, col, g, held);
      hide P.Scan, Spelled, Indicator, Stopped;
      var p, u := FirstWhitePiece(t);
      StepWhite(flow, indent, p, u, col, g, held);
      HoldsMore(g, held, run, p);
      ps := IsSpelled(flow, indent, u, NextColumn(col, p), Next(g, p), More(held, p), run + [p]);
      OneMorePiece(flow, indent, p, ps, u, rest, col, g);
      ps := [p] + ps;
    } else {
      AtCharacter(flow, indent, t, col, g, held);
      P.WordStep(flow, indent, t, col, held, []);
      hide P.Scan;
      if F.At(t, 0) == 0 || Indicator(flow, t) || Stopped(flow, indent, t, col, g) {
        ps := [];
      } else {
        var c, u := t[0], t[1..];
        assert t == [c] + u;
        StepKept(flow, indent, c, u, col, g, held, run);
        NothingHeld();
        ps := IsSpelled(flow, indent, u, col + 1, InWord, P.Nothing, []);
        OneMorePiece(flow, indent, Kept([c], c), ps, u, rest, col, g);
        ps := [Kept([c], c)] + ps;
      }
    }
  }

  /** From its first character on the scanner reads a plain scalar exactly if the text is spelled so, by pieces
      whose value it is. */
  lemma ReadsExactly(flow: bool, indent: int, t: seq<Rune>, col: nat, v: seq<Rune>, rest: seq<Rune>, broken: bool)
    ensures P.Scan(flow, indent, t, col, P.Top, P.Nothing) == P.Done(v, rest, broken)
       <==> exists ps ::
              && Spelled(flow, indent, ps, t, rest, col, AtStart)
              && v == Words([], ps) && broken == Behind(ps, col, AtStart).1.BehindBreak?
  {
    hide P.Scan, Spelled, Words, Behind;
    NothingHeld();
    if P.Scan(flow, indent, t, col, P.Top, P.Nothing) == P.Done(v, rest, broken) {
      var ps := IsSpelled(flow, indent, t, col, AtStart, P.Nothing, []);
      Reads(flow, indent, ps, t, rest, col, AtStart, P.Nothing, []);
    }
    forall ps | Spelled(flow, indent, ps, t, rest, col, AtStart)
      ensures P.Scan(flow, indent, t, col, P.Top, P.Nothing)
           == P.Done(Words([], ps), rest, Behind(ps, col, AtStart).1.BehindBreak?)
    {
      Reads(flow, indent, ps, t, rest, col, AtStart, P.Nothing, []);
    }
  }
}
