/** How the flow-scalar scanner moves over one character, for any text that follows. */
module FlowScanSteps {
  import opened Utf8
  import opened CharClass
  import opened FlowScalar
  import opened ScalarText

  /** In the middle of a line, after the blanks `ws`. */
  function After(ws: seq<Rune>): Mode {
    if ws == [] then Content else Blanks(ws)
  }

  lemma Assoc3(a: seq<Rune>, b: seq<Rune>, c: seq<Rune>, d: seq<Rune>)
    ensures a + b + c + d == a + (b + (c + d))
  {
  }

  lemma AfterOpening(a: seq<Rune>, q: Rune, b: seq<Rune>, rest: seq<Rune>)
    ensures var t := a + [q] + b + [q] + rest;
            t[|a|] == q && t[|a| + 1..] == b + ([q] + rest)
  {
  }

  /** A non-blank character ends a run of blanks. */
  lemma LeaveBlanks(single: bool, t: seq<Rune>, col: nat, ws: seq<Rune>)
    requires t != [] && !BlankZ(t[0]) && col >= 1
    ensures Scan(single, t, col, After(ws)) == Push(ws, Scan(single, t, col, Content))
  {
    if ws == [] {
      PushNothing(Scan(single, t, col, Content));
    } else {
      assert Scan(single, t, col, Blanks(ws)) == Push(ws, Scan(single, t, col, LineStart));
    }
  }

  /** A character that means itself. */
  predicate Plain(single: bool, c: Rune) {
    !BlankZ(c) && c != Quote(single) && (single || c != BACKSLASH)
  }

  lemma StepLiteral(single: bool, c: Rune, u: seq<Rune>, col: nat, ws: seq<Rune>)
    requires Plain(single, c) && col >= 1
    ensures Scan(single, [c] + u, col, After(ws)) == Push(ws + [c], Scan(single, u, col + 1, Content))
  {
    var t := [c] + u;
    assert t[0] == c && t[1..] == u;
    LeaveBlanks(single, t, col, ws);
    PushPush(ws, [c], Scan(single, u, col + 1, Content));
  }

  lemma StepEscape(e: seq<Rune>, c: Rune, u: seq<Rune>, col: nat, ws: seq<Rune>)
    requires |e| >= 2 && e[0] == BACKSLASH && !Break(e[1])
    requires ReadEscape(e + u) == Escaped(c, |e|) && col >= 1
    ensures Scan(false, e + u, col, After(ws)) == Push(ws + [c], Scan(false, u, col + |e|, Content))
  {
    var t := e + u;
    assert t[0] == BACKSLASH && At(t, 1) == e[1] && t[|e|..] == u;
    LeaveBlanks(false, t, col, ws);
    PushPush(ws, [c], Scan(false, u, col + |e|, Content));
  }

  lemma StepQuote(single: bool, u: seq<Rune>, col: nat, ws: seq<Rune>)
    requires col >= 1 && (single ==> At(u, 0) != SQUOTE)
    ensures Scan(single, [Quote(single)] + u, col, After(ws)) == Done(ws, u)
  {
    var t := [Quote(single)] + u;
    assert t[1..] == u && At(t, 1) == At(u, 0);
    LeaveBlanks(single, t, col, ws);
    assert ws + [] == ws;
  }

  lemma StepSpace(single: bool, u: seq<Rune>, col: nat, ws: seq<Rune>)
    ensures Scan(single, [SPACE] + u, col, After(ws)) == Scan(single, u, col + 1, Blanks(ws + [SPACE]))
  {
    var t := [SPACE] + u;
    assert t[1..] == u && [] + [SPACE] == [SPACE];
  }

  lemma {:induction false} SkipIndent(single: bool, n: nat, t: seq<Rune>, col: nat, lead: seq<Rune>, trail: seq<Rune>)
    requires t != [] && !BlankZ(t[0])
    ensures Scan(single, Spaces(n) + t, col, Breaks(lead, trail))
         == Push(Join(lead, trail), Scan(single, t, col + n, LineStart))
    decreases n
  {
    if n == 0 {
      assert Spaces(0) + t == t;
    } else {
      assert (Spaces(n) + t)[1..] == Spaces(n - 1) + t;
      SkipIndent(single, n - 1, t, col + 1, lead, trail);
    }
  }

  /** A fold reads as the one space it stands for. */
  lemma StepFold(single: bool, s: Style, t: seq<Rune>, col: nat)
    requires LineBreak(s.br) && s.indent >= 1
    requires t != [] && !BlankZ(t[0])
    ensures Scan(single, s.br + Spaces(s.indent) + t, col, Content)
         == Push([SPACE], Scan(single, t, s.indent, Content))
  {
    var u := s.br + Spaces(s.indent) + t;
    assert u[|s.br|..] == Spaces(s.indent) + t;
    assert BreakLen(u) == |s.br| && BreakText(u) == [LF];
    SkipIndent(single, s.indent, t, 0, [LF], []);
  }

  lemma StepDoubledQuote(u: seq<Rune>, col: nat, ws: seq<Rune>)
    requires col >= 1
    ensures Scan(true, [SQUOTE, SQUOTE] + u, col, After(ws))
         == Push(ws + [SQUOTE], Scan(true, u, col + 2, Content))
  {
    var t := [SQUOTE, SQUOTE] + u;
    assert t[2..] == u;
    LeaveBlanks(true, t, col, ws);
    PushPush(ws, [SQUOTE], Scan(true, u, col + 2, Content));
  }

  /** A line break as the emitter writes it. */
  predicate BreakAs(br: seq<Rune>, c: Rune) {
    (c == LF && LineBreak(br)) || (br == [c] && (c == LS || c == PS))
  }

  /** How `br` reads when no LF follows it, in any mode that can meet it. */
  lemma ReadBreak(br: seq<Rune>, c: Rune, u: seq<Rune>)
    requires BreakAs(br, c) && (br == [CR] ==> At(u, 0) != LF)
    ensures AtBreak(br + u) && BreakLen(br + u) == |br| && BreakText(br + u) == [c]
    ensures (br + u)[|br|..] == u
  {
    assert (br + u)[0] == br[0];
  }

  lemma StepBreak(single: bool, br: seq<Rune>, c: Rune, u: seq<Rune>, col: nat)
    requires BreakAs(br, c) && (br == [CR] ==> At(u, 0) != LF)
    ensures Scan(single, br + u, col, Content) == Scan(single, u, 0, Breaks([c], []))
  {
    ReadBreak(br, c, u);
  }

  lemma StepMoreBreak(single: bool, br: seq<Rune>, c: Rune, u: seq<Rune>, col: nat,
      lead: seq<Rune>, trail: seq<Rune>)
    requires BreakAs(br, c) && (br == [CR] ==> At(u, 0) != LF)
    ensures Scan(single, br + u, col, Breaks(lead, trail)) == Scan(single, u, 0, Breaks(lead, trail + [c]))
  {
    ReadBreak(br, c, u);
  }
}
