/** Whole runs of the scanner: what it hands to the parser is one token for each lexeme, in order and of
    the kind that its characters call for, and between them only tokens that it has invented. */
module ScannerLexemes {
  import opened TokenQueue
  import opened ScannerSpec
  import opened ScannerSafety
  import opened ScannerRuns
  import opened ScannerTable

  /** Kinds of tokens that the scanner invents; a KEY may also be a '?'. */
  predicate Invented(kind: Kind) {
    kind == BlockSequenceStart || kind == BlockMappingStart || kind == BlockEnd || kind == Key
  }

  /** `ts` is `own` with invented tokens in between. */
  ghost predicate Interleaves(ts: seq<Token>, own: seq<Token>) {
    if ts == [] then own == []
    else
      || (own != [] && ts[0] == own[0] && Interleaves(ts[1..], own[1..]))
      || (Invented(ts[0].kind) && Interleaves(ts[1..], own))
  }

  function FlowNext(flow: nat, kind: Kind): nat {
    if kind == FlowSequenceStart || kind == FlowMappingStart then flow + 1
    else if (kind == FlowSequenceEnd || kind == FlowMappingEnd) && flow > 0 then flow - 1
    else flow
  }

  /** The flow collections that tokens have opened and not closed. */
  function FlowOf(own: seq<Token>): nat {
    if own == [] then 0 else FlowNext(FlowOf(own[..|own| - 1]), own[|own| - 1].kind)
  }

  /** The token of a lexeme: of the kind that is called for, and where the lexeme is; the end of the
      stream is on a new line. */
  predicate OwnToken(x: Lexeme, flow: nat, t: Token) {
    CallsFor(x, flow, t.kind) && t.start == if t.kind == StreamEnd then LineEnd(x.start) else x.start
  }

  ghost predicate OwnTokens(xs: seq<Lexeme>, own: seq<Token>) {
    |own| == |xs| && forall i | 0 <= i < |xs| :: OwnToken(xs[i], FlowOf(own[..i]), own[i])
  }

  // ---- Interleavings ----

  lemma {:induction false} AppendOwn(ts: seq<Token>, own: seq<Token>, t: Token)
    requires Interleaves(ts, own)
    ensures Interleaves(ts + [t], own + [t])
    decreases |ts|
  {
    if ts == [] {
      assert [t][1..] == [];
      assert ts + [t] == [t] && own + [t] == [t];
    } else {
      assert (ts + [t])[1..] == ts[1..] + [t];
      if own != [] && ts[0] == own[0] && Interleaves(ts[1..], own[1..]) {
        assert (own + [t])[1..] == own[1..] + [t];
        AppendOwn(ts[1..], own[1..], t);
      } else {
        AppendOwn(ts[1..], own, t);
      }
    }
  }

  lemma {:induction false} InsertInvented(a: seq<Token>, b: seq<Token>, own: seq<Token>, t: Token)
    requires Interleaves(a + b, own) && Invented(t.kind)
    ensures Interleaves(a + [t] + b, own)
    decreases |a|
  {
    var r := a + [t] + b;
    if a == [] {
      assert a + b == b && r[1..] == b;
    } else {
      assert (a + b)[1..] == a[1..] + b && r[1..] == a[1..] + [t] + b;
      if own != [] && a[0] == own[0] && Interleaves(a[1..] + b, own[1..]) {
        InsertInvented(a[1..], b, own[1..], t);
      } else {
        InsertInvented(a[1..], b, own, t);
      }
    }
  }

  lemma AppendInvented(ts: seq<Token>, own: seq<Token>, t: Token)
    requires Interleaves(ts, own) && Invented(t.kind)
    ensures Interleaves(ts + [t], own)
  {
    assert ts + [] == ts && ts + [t] + [] == ts + [t];
    InsertInvented(ts, [], own, t);
  }

  lemma {:induction false} AppendEnds(ts: seq<Token>, own: seq<Token>, n: nat, at: Mark)
    requires Interleaves(ts, own)
    ensures Interleaves(ts + Ends(n, at), own)
    decreases n
  {
    hide Interleaves;
    if n == 0 {
      assert ts + Ends(0, at) == ts;
    } else {
      AppendInvented(ts, own, Token(BlockEnd, at));
      AppendEnds(ts + [Token(BlockEnd, at)], own, n - 1, at);
      OneMoreEnd(ts, n - 1, at);
    }
  }

  /** The first tokens interleave the first of the lexemes' tokens. */
  lemma {:induction false} PrefixInterleaves(ts: seq<Token>, own: seq<Token>, n: nat) returns (k: nat)
    requires Interleaves(ts, own) && n <= |ts|
    ensures k <= |own| && Interleaves(ts[..n], own[..k])
    ensures n > 0 && !Invented(ts[n - 1].kind) ==> k > 0 && own[k - 1] == ts[n - 1]
    ensures n > 0 && !Invented(ts[0].kind) ==> k > 0 && own[0] == ts[0]
    decreases n
  {
    if n == 0 {
      k := 0;
      assert ts[..0] == [] && own[..0] == [];
    } else {
      assert ts[..n][1..] == ts[1..][..n - 1];
      if own != [] && ts[0] == own[0] && Interleaves(ts[1..], own[1..]) {
        var j := PrefixInterleaves(ts[1..], own[1..], n - 1);
        k := j + 1;
        assert own[..k][1..] == own[1..][..j];
      } else {
        k := PrefixInterleaves(ts[1..], own, n - 1);
        assert n > 1 ==> ts[1..][n - 2] == ts[n - 1];
      }
    }
  }

  // ---- One lexeme ----

  lemma FlowMore(own: seq<Token>, t: Token)
    ensures FlowOf(own + [t]) == FlowNext(FlowOf(own), t.kind)
  {
    assert (own + [t])[..|own|] == own;
  }

  lemma OwnMore(xs: seq<Lexeme>, own: seq<Token>, x: Lexeme, t: Token)
    requires OwnTokens(xs, own) && OwnToken(x, FlowOf(own), t)
    ensures OwnTokens(xs + [x], own + [t])
  {
    hide OwnToken, FlowOf;
    var ys, all := xs + [x], own + [t];
    forall i | 0 <= i < |ys|
      ensures OwnToken(ys[i], FlowOf(all[..i]), all[i])
    {
      if i < |xs| {
        assert all[..i] == own[..i];
      } else {
        assert all[..i] == own;
      }
    }
  }

  lemma StartingInterleaves(ts: seq<Token>, own: seq<Token>, levels: seq<int>, flow: nat, at: Mark, start: Kind)
    requires Interleaves(ts, own) && Invented(start) && levels != []
    ensures Interleaves(ts + Starting(levels, flow, at, start), own)
  {
    hide Interleaves;
    if flow == 0 && levels[|levels| - 1] < at.column {
      AppendInvented(ts, own, Token(start, at));
    } else {
      assert ts + [] == ts;
    }
  }

  /** A simple key and its VALUE. */
  lemma KeyInterleaves(ts: seq<Token>, own: seq<Token>, n: nat, levels: seq<int>, flow: nat, at: Mark, value: Token)
    requires Interleaves(ts, own) && n <= |ts| && levels != []
    ensures Interleaves(ts[..n] + Starting(levels, flow, at, BlockMappingStart) + [Token(Key, at)] + ts[n..] + [value], own + [value])
  {
    hide Interleaves;
    assert ts == ts[..n] + ts[n..];
    InsertInvented(ts[..n], ts[n..], own, Token(Key, at));
    var all := ts[..n] + Starting(levels, flow, at, BlockMappingStart) + [Token(Key, at)] + ts[n..];
    if flow == 0 && levels[|levels| - 1] < at.column {
      assert ts[..n] + [Token(Key, at)] + ts[n..] == ts[..n] + ([Token(Key, at)] + ts[n..]);
      InsertInvented(ts[..n], [Token(Key, at)] + ts[n..], own, Token(BlockMappingStart, at));
      assert all == ts[..n] + [Token(BlockMappingStart, at)] + ([Token(Key, at)] + ts[n..]);
    } else {
      assert all == ts[..n] + [Token(Key, at)] + ts[n..];
    }
    AppendOwn(all, own, value);
  }

  /** Fetching at a lexeme adds its own token behind the others, and invented ones between them. */
  lemma LexemeFetched(b: B, x: Lexeme, own: seq<Token>) returns (t: Token)
    requires Safe(b, false, b.mark) && AtMost(b.mark, x.start) && AtMost(x.start, x.end) && FetchNext(b, x).Fetched?
    requires Interleaves(b.produced, own)
    ensures OwnToken(x, b.flow, t)
    ensures Interleaves(FetchNext(b, x).next.produced, own + [t]) && FetchNext(b, x).next.flow == FlowNext(b.flow, t.kind)
    ensures FetchNext(b, x).next.started
  {
    hide Safe, FetchNext, Missed, Expected, Interleaves, CallsFor, LevelsAt, TokensAt, Reaching, FlowNext;
    if forall kind :: !CallsFor(x, b.flow, kind) {
      FetchesNothing(b, x);
    }
    var kind :| CallsFor(x, b.flow, kind);
    t := Token(kind, if kind == StreamEnd then LineEnd(x.start) else x.start);
    FetchesExactly(b, x, kind);
    ExpectedInterleaves(b, x, kind, own);
    Unfolded(b, false, b.mark);
  }

  lemma TokensInterleave(b: B, x: Lexeme, own: seq<Token>)
    requires Interleaves(b.produced, own) && |LevelsAt(b, x)| <= |AllLevels(b)|
    ensures Interleaves(TokensAt(b, x), own)
  {
    hide LevelsAt;
    AppendEnds(b.produced, own, |AllLevels(b)| - |LevelsAt(b, x)|, x.start);
  }

  /** Fetching a token of the kind adds it behind the others. */
  ghost predicate Adds(b: B, x: Lexeme, kind: Kind, own: seq<Token>)
    requires b.keys != [] && LevelsAt(b, x) != [] && |LevelsAt(b, x)| <= |AllLevels(b)|
    requires Last(b.keys).possible ==> Last(b.keys).number <= |b.produced|
  {
    Expected(b, x, kind).Fetched? ==>
      var q := Expected(b, x, kind).next;
      var t := Token(kind, if kind == StreamEnd then LineEnd(x.start) else x.start);
      Interleaves(q.produced, own + [t]) && q.flow == FlowNext(b.flow, kind) && q.started == b.started
  }

  lemma ExpectedInterleaves(b: B, x: Lexeme, kind: Kind, own: seq<Token>)
    requires Interleaves(b.produced, own)
    requires b.keys != [] && LevelsAt(b, x) != [] && |LevelsAt(b, x)| <= |AllLevels(b)|
    requires Last(b.keys).possible ==> Last(b.keys).number <= |b.produced|
    ensures Adds(b, x, kind, own)
  {
    TokensInterleave(b, x, own);
    hide LevelsAt, TokensAt, Interleaves, AllLevels, Adds;
    match kind
    case StreamEnd => EndInterleaves(b, x, own);
    case Directive => MarkerInterleaves(b, x, kind, own);
    case DocumentStart => MarkerInterleaves(b, x, kind, own);
    case DocumentEnd => MarkerInterleaves(b, x, kind, own);
    case BlockEntry => EntryInterleaves(b, x, kind, own);
    case Key => EntryInterleaves(b, x, kind, own);
    case Value => ValueInterleaves(b, x, own);
    case _ => OtherInterleaves(b, x, kind, own);
  }

  lemma EndInterleaves(b: B, x: Lexeme, own: seq<Token>)
    requires b.keys != [] && LevelsAt(b, x) != [] && |LevelsAt(b, x)| <= |AllLevels(b)|
    requires Last(b.keys).possible ==> Last(b.keys).number <= |b.produced|
    requires Interleaves(TokensAt(b, x), own)
    ensures Adds(b, x, StreamEnd, own)
  {
    hide LevelsAt, TokensAt, Interleaves, AllLevels, Holds;
    var ts, levels, end := TokensAt(b, x), LevelsAt(b, x), LineEnd(x.start);
    var left := if b.flow > 0 then levels else [-1];
    AppendEnds(ts, own, |levels| - |left|, end);
    AppendOwn(ts + Ends(|levels| - |left|, end), own, Token(StreamEnd, end));
  }

  lemma MarkerInterleaves(b: B, x: Lexeme, kind: Kind, own: seq<Token>)
    requires b.keys != [] && LevelsAt(b, x) != [] && |LevelsAt(b, x)| <= |AllLevels(b)|
    requires Last(b.keys).possible ==> Last(b.keys).number <= |b.produced|
    requires Interleaves(TokensAt(b, x), own) && (kind == Directive || kind == DocumentStart || kind == DocumentEnd)
    ensures Adds(b, x, kind, own)
  {
    MarkerExpected(b, x, kind);
    hide LevelsAt, TokensAt, Interleaves, AllLevels, Expected;
    var ts, levels := TokensAt(b, x), LevelsAt(b, x);
    var left := if b.flow > 0 then levels else [-1];
    AppendEnds(ts, own, |levels| - |left|, x.start);
    AppendOwn(ts + Ends(|levels| - |left|, x.start), own, Token(kind, x.start));
  }

  lemma MarkerExpected(b: B, x: Lexeme, kind: Kind)
    requires b.keys != [] && LevelsAt(b, x) != [] && |LevelsAt(b, x)| <= |AllLevels(b)|
    requires Last(b.keys).possible ==> Last(b.keys).number <= |b.produced|
    requires kind == Directive || kind == DocumentStart || kind == DocumentEnd
    ensures Expected(b, x, kind).Fetched? ==>
              var q, levels := Expected(b, x, kind).next, LevelsAt(b, x);
              var left := if b.flow > 0 then levels else [-1];
              && q.produced == TokensAt(b, x) + Ends(|levels| - |left|, x.start) + [Token(kind, x.start)]
              && q.flow == b.flow && q.started == b.started
  {
    hide LevelsAt, TokensAt, AllLevels, Holds, Reaching;
  }

  lemma EntryInterleaves(b: B, x: Lexeme, kind: Kind, own: seq<Token>)
    requires b.keys != [] && LevelsAt(b, x) != [] && |LevelsAt(b, x)| <= |AllLevels(b)|
    requires Last(b.keys).possible ==> Last(b.keys).number <= |b.produced|
    requires Interleaves(TokensAt(b, x), own) && (kind == BlockEntry || kind == Key)
    ensures Adds(b, x, kind, own)
  {
    hide LevelsAt, TokensAt, Interleaves, AllLevels, Holds, Starting, Deeper;
    var ts, levels := TokensAt(b, x), LevelsAt(b, x);
    var start := if kind == BlockEntry then BlockSequenceStart else BlockMappingStart;
    StartingInterleaves(ts, own, levels, b.flow, x.start, start);
    AppendOwn(ts + Starting(levels, b.flow, x.start, start), own, Token(kind, x.start));
  }

  lemma ValueInterleaves(b: B, x: Lexeme, own: seq<Token>)
    requires b.keys != [] && LevelsAt(b, x) != [] && |LevelsAt(b, x)| <= |AllLevels(b)|
    requires Last(b.keys).possible ==> Last(b.keys).number <= |b.produced|
    requires Interleaves(TokensAt(b, x), own)
    ensures Adds(b, x, Value, own)
  {
    MoreTokens(b, x);
    hide LevelsAt, TokensAt, Interleaves, AllLevels, Holds, Starting, Deeper;
    var ts, levels := TokensAt(b, x), LevelsAt(b, x);
    var k := Last(Reaching(b.keys, x.start));
    if k.possible {
      KeyInterleaves(ts, own, k.number, levels, b.flow, k.mark, Token(Value, x.start));
    } else {
      StartingInterleaves(ts, own, levels, b.flow, x.start, BlockMappingStart);
      AppendOwn(ts + Starting(levels, b.flow, x.start, BlockMappingStart), own, Token(Value, x.start));
    }
  }

  lemma MoreTokens(b: B, x: Lexeme)
    requires |LevelsAt(b, x)| <= |AllLevels(b)|
    ensures |TokensAt(b, x)| >= |b.produced|
  {
  }

  lemma OtherInterleaves(b: B, x: Lexeme, kind: Kind, own: seq<Token>)
    requires b.keys != [] && LevelsAt(b, x) != [] && |LevelsAt(b, x)| <= |AllLevels(b)|
    requires Last(b.keys).possible ==> Last(b.keys).number <= |b.produced|
    requires Interleaves(TokensAt(b, x), own)
    requires kind != StreamEnd && kind != Directive && kind != DocumentStart && kind != DocumentEnd
    requires kind != BlockEntry && kind != Key && kind != Value
    ensures Adds(b, x, kind, own)
  {
    AppendOwn(TokensAt(b, x), own, Token(kind, x.start));
    OtherExpected(b, x, kind);
    hide LevelsAt, TokensAt, Interleaves, AllLevels, Expected;
  }

  /** Other tokens are only appended. */
  lemma OtherExpected(b: B, x: Lexeme, kind: Kind)
    requires b.keys != [] && LevelsAt(b, x) != [] && |LevelsAt(b, x)| <= |AllLevels(b)|
    requires Last(b.keys).possible ==> Last(b.keys).number <= |b.produced|
    requires kind != StreamEnd && kind != Directive && kind != DocumentStart && kind != DocumentEnd
    requires kind != BlockEntry && kind != Key && kind != Value
    ensures Expected(b, x, kind).Fetched? ==>
              var q := Expected(b, x, kind).next;
              && q.produced == TokensAt(b, x) + [Token(kind, x.start)]
              && q.flow == FlowNext(b.flow, kind) && q.started == b.started
  {
    hide LevelsAt, TokensAt, AllLevels, Holds, KeyHere, MayBegin, Reaching, QuotedHere, BlockScalarHere;
  }

  // ---- Runs ----

  const FIRST := Token(StreamStart, Mark(0, 0, 0))

  /** The first `n` lexemes have been fetched, and `own` are their tokens. */
  ghost predicate Lexed(b: B, xs: seq<Lexeme>, n: nat, own: seq<Token>) {
    && n <= |xs| && OwnTokens(xs[..n], own) && b.flow == FlowOf(own)
    && if b.started then Interleaves(b.produced, [FIRST] + own) else b == START && own == []
  }

  lemma {:induction false} MoreLexed(b: B, all: seq<Lexeme>, n: nat, own: seq<Token>) returns (n': nat, own': seq<Token>)
    requires Inv(b) && Lexed(b, all, n, own) && ValidInput(b.mark, all[n..]) && FetchMore(b, all[n..]).Available?
    ensures var m := FetchMore(b, all[n..]);
            n' <= |all| && m.rest == all[n'..] && Lexed(m.next, all, n', own')
    decreases |all| - n, !b.started, 1
  {
    hide Safe, FetchNext, Interleaves, OwnTokens, FlowOf, ValidInput;
    if b.parsed < |b.produced| {
      StaleKeeps(b);
      var s := DropStale(b).next;
      if HeadMayMove(s) {
        n', own' := OneLexed(s, all, n, own);
      } else {
        n', own' := n, own;
      }
    } else {
      n', own' := OneLexed(b, all, n, own);
    }
  }

  lemma {:induction false} OneLexed(b: B, all: seq<Lexeme>, n: nat, own: seq<Token>) returns (n': nat, own': seq<Token>)
    requires Inv(b) && Lexed(b, all, n, own) && ValidInput(b.mark, all[n..]) && FetchOne(b, all[n..]).Available?
    ensures var m := FetchOne(b, all[n..]);
            n' <= |all| && m.rest == all[n'..] && Lexed(m.next, all, n', own')
    decreases |all| - n, !b.started, 0
  {
    hide Safe, FetchNext, FetchMore, OwnTokens, FlowOf;
    if !b.started {
      StreamStartGoes(b);
      FirstInterleaves(own);
      hide Interleaves;
      n', own' := MoreLexed(FetchStreamStart(b), all, n, own);
    } else {
      hide Interleaves;
      var x := all[n];
      FetchNextGoes(b, x);
      var r := FetchNext(b, x).next;
      Unfolded(r, false, r.mark);
      var t := LexemeFetched(b, x, [FIRST] + own);
      assert [FIRST] + own + [t] == [FIRST] + (own + [t]);
      OwnMore(all[..n], own, x, t);
      FlowMore(own, t);
      assert all[..n] + [x] == all[..n + 1];
      assert all[n..][1..] == all[n + 1..];
      n', own' := MoreLexed(r, all, n + 1, own + [t]);
    }
  }

  lemma FirstInterleaves(own: seq<Token>)
    ensures own == [] ==> START.produced + [FIRST] == [FIRST] + own && Interleaves([FIRST] + own, [FIRST] + own)
  {
    assert [FIRST][1..] == [];
    assert [FIRST] + [] == [FIRST];
  }

  lemma {:induction false} RunLexed(b: B, all: seq<Lexeme>, n: nat, own: seq<Token>) returns (n': nat, own': seq<Token>)
    requires Inv(b) && Lexed(b, all, n, own) && ValidInput(b.mark, all[n..])
    ensures Lexed(Deliver(b, all[n..]).last, all, n', own')
    decreases |all| - n, !b.started, |b.produced| - b.parsed
  {
    hide Safe, FetchMore, OwnTokens, FlowOf, Interleaves;
    var xs := all[n..];
    FetchMoreGoes(b, xs);
    if FetchMore(b, xs).Available? {
      var k, mine := MoreLexed(b, all, n, own);
      Consumed(b, xs);
      var r := FetchMore(b, xs).next;
      TakeKeeps(r);
      if r.produced[r.parsed].kind == StreamEnd {
        n', own' := k, mine;
      } else {
        n', own' := RunLexed(Take(r), all, k, mine);
      }
    } else {
      n', own' := n, own;
    }
  }

  /** The tokens delivered in a whole run are STREAM-START and, in order, the tokens that the first so
      many lexemes call for, with only invented tokens between them. A run that ends does so at the
      NUL behind the text. */
  lemma {:induction false} DeliversLexemes(xs: seq<Lexeme>)
    requires ValidInput(START.mark, xs)
    ensures Inv(START)
    ensures var d := Deliver(START, xs);
            exists n: nat, own: seq<Token> | n <= |xs| ::
              && OwnTokens(xs[..n], own) && Interleaves(d.tokens, [FIRST] + own)
              && (d.ended ==> n > 0 && xs[n - 1].look.c == 0)
  {
    hide Deliver, Interleaves, FlowOf, Safe, FetchMore, OwnTokens, Inv, ValidInput, Nested;
    StartLexed(xs);
    var d := Deliver(START, xs);
    var k, mine := RunLexed(START, xs, 0, []);
    DeliveredInOrder(START, xs);
    assert START.produced[..START.parsed] + d.tokens == d.tokens;
    FirstDelivered(xs);
    var n, own := DeliveredPrefix(d, xs, k, mine);
    LastDelivered(START, xs);
  }

  lemma StartLexed(xs: seq<Lexeme>)
    ensures Inv(START) && Lexed(START, xs, 0, []) && xs[0..] == xs
  {
  }

  lemma DeliveredPrefix(d: Delivered, xs: seq<Lexeme>, k: nat, mine: seq<Token>) returns (n: nat, own: seq<Token>)
    requires Lexed(d.last, xs, k, mine) && d.last.started && d.last.parsed <= |d.last.produced|
    requires d.tokens == d.last.produced[..d.last.parsed] && d.tokens != [] && d.tokens[0] == FIRST
    ensures n <= |xs| && OwnTokens(xs[..n], own) && Interleaves(d.tokens, [FIRST] + own)
    ensures d.tokens[|d.tokens| - 1].kind == StreamEnd ==> n > 0 && xs[n - 1].look.c == 0
  {
    hide Interleaves, FlowOf, OwnTokens;
    var ts := d.last.produced;
    var j := PrefixInterleaves(ts, [FIRST] + mine, d.last.parsed);
    n := j - 1;
    own := mine[..n];
    assert ([FIRST] + mine)[..j] == [FIRST] + own;
    OwnPrefix(xs, k, mine, n);
    assert d.tokens[|d.tokens| - 1] == ts[d.last.parsed - 1];
  }

  lemma OwnPrefix(xs: seq<Lexeme>, k: nat, mine: seq<Token>, n: nat)
    requires k <= |xs| && OwnTokens(xs[..k], mine) && n <= |mine|
    ensures n <= |xs| && OwnTokens(xs[..n], mine[..n])
    ensures n > 0 && mine[n - 1].kind == StreamEnd ==> xs[n - 1].look.c == 0
  {
    hide FlowOf, CallsFor;
    forall i | 0 <= i < n
      ensures OwnToken(xs[..n][i], FlowOf(mine[..n][..i]), mine[..n][i])
    {
      assert mine[..n][..i] == mine[..i] && xs[..n][i] == xs[..k][i];
      assert OwnToken(xs[..k][i], FlowOf(mine[..i]), mine[i]);
    }
    if n > 0 && mine[n - 1].kind == StreamEnd {
      assert OwnToken(xs[..k][n - 1], FlowOf(mine[..n - 1]), mine[n - 1]);
      CalledAtEnd(xs[n - 1], FlowOf(mine[..n - 1]));
    }
  }

  lemma CalledAtEnd(x: Lexeme, flow: nat)
    requires CallsFor(x, flow, StreamEnd)
    ensures x.look.c == 0
  {
  }

  lemma FirstDelivered(xs: seq<Lexeme>)
    requires ValidInput(START.mark, xs)
    ensures Inv(START) && Deliver(START, xs).tokens != [] && Deliver(START, xs).tokens[0] == FIRST
  {
    StreamOpens(xs);
    OneDelivered(START, xs, OPENED, xs);
  }

  lemma {:induction false} LastDelivered(b: B, xs: seq<Lexeme>)
    requires Inv(b) && ValidInput(b.mark, xs)
    ensures var d := Deliver(b, xs); d.ended ==> d.tokens != [] && d.tokens[|d.tokens| - 1].kind == StreamEnd
    decreases |xs|, !b.started, |b.produced| - b.parsed
  {
    hide FetchMore, Safe;
    FetchMoreGoes(b, xs);
    if FetchMore(b, xs).Available? {
      var r := FetchMore(b, xs).next;
      TakeKeeps(r);
      if r.produced[r.parsed].kind != StreamEnd {
        Consumed(b, xs);
        LastDelivered(Take(r), FetchMore(b, xs).rest);
      }
    }
  }
}
