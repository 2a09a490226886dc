/** Every fetch keeps the invariant, and whole runs of the scanner under the parser. */
module ScannerRuns {
  import opened TokenQueue
  import opened ScannerSpec
  import opened ScannerSafety

  /** The tokens that have been handed out stay as they are. */
  ghost predicate Future(b: B, r: B) {
    && r.parsed == b.parsed <= |b.produced| && b.parsed <= |r.produced|
    && r.produced[..b.parsed] == b.produced[..b.parsed]
  }

  /** A step keeps the invariant and the past, and leaves the scanner at `mark`. */
  ghost predicate Goes(b: B, r: Result, mark: Mark) {
    match r
    case Fetched(q) => Safe(q, false, mark) && q.mark == mark && Future(b, q)
    case Error => true
    case Panic => false
  }

  lemma GoesTo(b: B, q: B, m: Mark)
    requires Safe(q, false, q.mark) && Future(b, q) && AtMost(q.mark, m)
    ensures Goes(b, Fetched(q.(mark := m)), m)
  {
    hide Safe;
    MarkMoves(q, false, q.mark, m);
    NotPending(q.(mark := m), q.mark, false, m);
  }

  lemma FutureAppend(b: B, q: B, kind: Kind, start: Mark)
    requires Future(b, q)
    ensures Future(b, Append(q, kind, start))
  {
  }

  /** A token is appended where the scanner is, and the scanner goes past it. */
  lemma AppendsAndGoes(b: B, q: B, pending: bool, kind: Kind, m: Mark)
    requires Safe(q, pending, q.mark) && Future(b, q) && AtMost(q.mark, m) && Bracket(Token(kind, q.mark)) == 0
    ensures Goes(b, Fetched(Append(q, kind, q.mark).(mark := m)), m)
  {
    hide Safe;
    AppendHere(q, pending, kind);
    FutureAppend(b, q, kind, q.mark);
    GoesTo(b, Append(q, kind, q.mark), m);
  }

  lemma Stays(b: B, q: B)
    requires q.produced == b.produced && q.parsed == b.parsed <= |b.produced|
    ensures Future(b, q)
  {
  }

  // ---- The fetchers ----

  lemma RemoveGoes(b: B)
    requires Safe(b, false, b.mark)
    ensures Remove(b).Error? || (Remove(b).Fetched? && Safe(Remove(b).next, false, b.mark))
    ensures Remove(b).Fetched? ==> Remove(b).next == b.(keys := Remove(b).next.keys) && Future(b, Remove(b).next)
  {
    RemoveKeeps(b, b.mark);
    Unfolded(b, false, b.mark);
    hide Safe;
  }

  lemma ResetGoes(b: B)
    requires Safe(b, false, b.mark)
    ensures Goes(b, Reset(b), b.mark)
    ensures Reset(b).Fetched? ==> var q := Reset(b).next; q.flow == b.flow && !q.keys[|q.keys| - 1].possible
    ensures Reset(b).Fetched? && b.flow == 0 ==> Reset(b).next.indents == []
  {
    UnrollKeeps(b, -1);
    Unfolded(b, false, b.mark);
    if Unroll(b, -1).Fetched? {
      var u := Unroll(b, -1).next;
      RemoveGoes(u);
      Unfolded(u, false, u.mark);
      if Remove(u).Fetched? {
        RemoveKeeps(u, u.mark);
        AllowedMoves(Remove(u).next, false, b.mark, false);
      }
    }
    hide Safe, Remove, Unroll;
  }

  lemma StreamEndGoes(b: B)
    requires Safe(b, false, b.mark)
    ensures Goes(b, FetchStreamEnd(b), LineEnd(b.mark))
    ensures FetchStreamEnd(b).Fetched? ==>
              var q := FetchStreamEnd(b).next;
              && q.flow == b.flow && q.produced != [] && q.produced[|q.produced| - 1].kind == StreamEnd
              && !q.keys[|q.keys| - 1].possible
              && Balance(q.produced) == |q.indents| && (b.flow == 0 ==> q.indents == [])
  {
    hide Safe, Reset;
    var m := b.(mark := LineEnd(b.mark));
    MarkMoves(b, false, b.mark, m.mark);
    NotPending(m, b.mark, false, m.mark);
    ResetGoes(m);
    if Reset(m).Fetched? {
      var r := Reset(m).next;
      FutureThen(b, m, r);
      AppendsAndGoes(b, r, false, StreamEnd, r.mark);
      BalanceIsIndents(FetchStreamEnd(b).next);
    }
  }

  lemma BalanceIsIndents(b: B)
    requires Safe(b, false, b.mark)
    ensures Balance(b.produced) == |b.indents|
  {
  }

  lemma FutureThen(b: B, m: B, q: B)
    requires Future(m, q) && m.produced == b.produced && m.parsed == b.parsed
    ensures Future(b, q)
  {
  }

  lemma DirectiveGoes(b: B, x: Lexeme)
    requires Safe(b, false, b.mark) && AtMost(b.mark, x.end)
    ensures Goes(b, FetchDirective(b, x), x.end)
    ensures forall kind | kind == DocumentStart || kind == DocumentEnd :: Goes(b, FetchDocumentIndicator(b, kind, x), x.end)
  {
    hide Safe, Reset;
    ResetGoes(b);
    if Reset(b).Fetched? {
      AppendsAndGoes(b, Reset(b).next, false, Directive, x.end);
      AppendsAndGoes(b, Reset(b).next, false, DocumentStart, x.end);
      AppendsAndGoes(b, Reset(b).next, false, DocumentEnd, x.end);
    }
  }

  lemma FlowStartGoes(b: B, kind: Kind, x: Lexeme)
    requires Safe(b, false, b.mark) && AtMost(b.mark, x.end) && Bracket(Token(kind, b.mark)) == 0
    ensures Goes(b, FetchFlowStart(b, kind, x), x.end)
  {
    SaveKeeps(b);
    Unfolded(b, false, b.mark);
    hide Safe, Save;
    if Save(b).Fetched? {
      var s := Save(b).next;
      IncreaseKeeps(s, true, b.mark);
      AllowedMoves(IncreaseFlow(s), true, b.mark, true);
      Stays(b, IncreaseFlow(s).(allowed := true));
      AppendsAndGoes(b, IncreaseFlow(s).(allowed := true), true, kind, x.end);
    }
  }

  lemma FlowEndGoes(b: B, kind: Kind, x: Lexeme)
    requires Safe(b, false, b.mark) && AtMost(b.mark, x.end) && Bracket(Token(kind, b.mark)) == 0
    ensures Goes(b, FetchFlowEnd(b, kind, x), x.end)
    ensures Goes(b, FetchFlowEntry(b, x), x.end)
  {
    RemoveGoes(b);
    Unfolded(b, false, b.mark);
    hide Safe, Remove;
    if Remove(b).Fetched? {
      var r := Remove(b).next;
      DecreaseKeeps(r, b.mark);
      if DecreaseFlow(r).Fetched? {
        var d := DecreaseFlow(r).next;
        AllowedMoves(d, false, b.mark, false);
        Stays(b, d.(allowed := false));
        AppendsAndGoes(b, d.(allowed := false), false, kind, x.end);
      }
      AllowedMoves(r, false, b.mark, true);
      Stays(b, r.(allowed := true));
      AppendsAndGoes(b, r.(allowed := true), false, FlowEntry, x.end);
    }
  }

  lemma RollHereGoes(b: B, kind: Kind)
    requires Safe(b, false, b.mark) && (kind == BlockSequenceStart || kind == BlockMappingStart)
    ensures var r := RollHere(b, kind);
            r.Error? || (r.Fetched? && Safe(r.next, false, b.mark) && Future(b, r.next) && r.next.mark == b.mark && r.next.flow == b.flow)
  {
    RollAppends(b, kind);
    Unfolded(b, false, b.mark);
    hide Safe;
  }

  /** The indicators '-', '?' and ':' of a block collection. */
  lemma IndicatorGoes(b: B, start: Kind, kind: Kind, allowed: bool, x: Lexeme)
    requires Safe(b, false, b.mark) && AtMost(b.mark, x.end)
    requires (start == BlockSequenceStart || start == BlockMappingStart) && Bracket(Token(kind, b.mark)) == 0
    ensures RollHere(b, start).Fetched? ==>
              var r := RollHere(b, start).next;
              && Goes(b, Fetched(Append(r.(allowed := allowed), kind, b.mark).(mark := x.end)), x.end)
              && !Remove(r).Panic?
              && (Remove(r).Fetched? ==>
                    Goes(b, Fetched(Append(Remove(r).next.(allowed := allowed), kind, b.mark).(mark := x.end)), x.end))
    ensures !RollHere(b, start).Panic?
  {
    hide Safe, Remove, RollHere;
    RollHereGoes(b, start);
    if RollHere(b, start).Fetched? {
      var r := RollHere(b, start).next;
      AllowedMoves(r, false, b.mark, allowed);
      FutureAllowed(b, r, allowed);
      AppendsAndGoes(b, r.(allowed := allowed), false, kind, x.end);
      RemoveGoes(r);
      if Remove(r).Fetched? {
        var k := Remove(r).next;
        AllowedMoves(k, false, b.mark, allowed);
        FutureOf(b, r, k.(allowed := allowed));
        AppendsAndGoes(b, k.(allowed := allowed), false, kind, x.end);
      }
    }
  }

  lemma FutureAllowed(b: B, r: B, allowed: bool)
    requires Future(b, r)
    ensures Future(b, r.(allowed := allowed))
  {
  }

  lemma FutureOf(b: B, r: B, k: B)
    requires Future(b, r) && k.produced == r.produced && k.parsed == r.parsed
    ensures Future(b, k)
  {
  }

  lemma BlockEntryGoes(b: B, x: Lexeme)
    requires Safe(b, false, b.mark) && AtMost(b.mark, x.end)
    ensures Goes(b, FetchBlockEntry(b, x), x.end) && Goes(b, FetchKey(b, x), x.end)
  {
    hide Safe, Remove, RollHere, Goes;
    IndicatorGoes(b, BlockSequenceStart, BlockEntry, true, x);
    IndicatorGoes(b, BlockMappingStart, Key, b.flow == 0, x);
    ErrorGoes(b, x.end);
  }

  lemma ErrorGoes(b: B, m: Mark)
    ensures Goes(b, Error, m)
  {
  }

  lemma RemovedKey(b: B, r: B)
    requires Safe(b, false, b.mark) && b.keys != []
    requires var n := |b.keys| - 1; r == b.(keys := b.keys[n := b.keys[n].(possible := false)])
    ensures Safe(r, false, b.mark)
  {
    hide Balance, Nested, Ordered, Rising;
    forall i | 0 <= i < |r.keys|
      ensures KeySafe(r, r.keys[i], false, b.mark)
    {
      assert KeySafe(b, b.keys[i], false, b.mark);
    }
  }

  /** A VALUE after a simple key: KEY, and BLOCK-MAPPING-START if the level is new, come directly
      before the key's first token, which is still in the queue, on the line of the ':' and at
      most 1024 characters before it. */
  lemma SimpleKeyInserted(b: B, x: Lexeme)
    requires Safe(b, false, b.mark) && AtMost(b.mark, x.end)
    requires var k := b.keys[|b.keys| - 1]; k.possible && !IsStale(k, b.mark)
    ensures Goes(b, FetchValue(b, x), x.end)
    ensures var k := b.keys[|b.keys| - 1];
            && b.parsed <= k.number < |b.produced| && b.produced[k.number].start == k.mark
            && k.mark.line == b.mark.line && b.mark.index <= k.mark.index + 1024
            && FetchValue(b, x).next.produced
               == b.produced[..k.number]
                  + (if b.flow == 0 && b.indent < k.mark.column then [Token(BlockMappingStart, k.mark)] else [])
                  + [Token(Key, k.mark)] + b.produced[k.number..] + [Token(Value, b.mark)]
  {
    Unfolded(b, false, b.mark);
    InsertKeyKeeps(b);
    var n := |b.keys| - 1;
    var k := b.keys[n];
    assert KeySafe(b, k, false, b.mark);
    hide Safe, InsertKey;
    var i := InsertKey(b);
    var r := i.(keys := b.keys[n := k.(possible := false)]);
    RemovedKey(i, r);
    AllowedMoves(r, false, b.mark, false);
    PrefixKept(b, r, k.number);
    FutureAllowed(b, r, false);
    AppendsAndGoes(b, r.(allowed := false), false, Value, x.end);
  }

  lemma PrefixKept(b: B, r: B, number: nat)
    requires b.parsed <= number < |b.produced| && r.parsed == b.parsed
    requires |r.produced| >= number && r.produced[..number] == b.produced[..number]
    ensures Future(b, r)
  {
    assert r.produced[..number][..b.parsed] == r.produced[..b.parsed];
    assert b.produced[..number][..b.parsed] == b.produced[..b.parsed];
  }

  lemma ValueGoes(b: B, x: Lexeme)
    requires Safe(b, false, b.mark) && AtMost(b.mark, x.end)
    requires forall i | 0 <= i < |b.keys| :: !IsStale(b.keys[i], b.mark)
    ensures Goes(b, FetchValue(b, x), x.end)
  {
    Unfolded(b, false, b.mark);
    var k := b.keys[|b.keys| - 1];
    if k.possible {
      SimpleKeyInserted(b, x);
    } else {
      hide Safe, RollHere, Goes;
      IndicatorGoes(b, BlockMappingStart, Value, b.flow == 0, x);
      ErrorGoes(b, x.end);
    }
  }

  lemma SavedGoes(b: B, kind: Kind, x: Lexeme)
    requires Safe(b, false, b.mark) && AtMost(b.mark, x.end) && Bracket(Token(kind, b.mark)) == 0
    ensures Goes(b, FetchSaved(b, kind, x), x.end)
  {
    SaveKeeps(b);
    Unfolded(b, false, b.mark);
    hide Safe, Save;
    if Save(b).Fetched? {
      var s := Save(b).next.(allowed := false);
      AllowedMoves(Save(b).next, true, b.mark, false);
      Stays(b, s);
      AppendsAndGoes(b, s, true, kind, x.end);
    }
  }

  lemma PlainGoes(b: B, x: Lexeme)
    requires Safe(b, false, b.mark) && AtMost(b.mark, x.end)
    ensures Goes(b, FetchPlainScalar(b, x), x.end)
  {
    hide Safe, FetchSaved;
    SavedGoes(b, Scalar, x);
    if FetchSaved(b, Scalar, x).Fetched? {
      AllowedMoves(FetchSaved(b, Scalar, x).next, false, x.end, x.broken);
    }
  }

  lemma BlockScalarGoes(b: B, x: Lexeme)
    requires Safe(b, false, b.mark) && AtMost(b.mark, x.end)
    ensures Goes(b, FetchBlockScalar(b, x), x.end)
  {
    RemoveGoes(b);
    Unfolded(b, false, b.mark);
    hide Safe, Remove;
    if Remove(b).Fetched? {
      var r := Remove(b).next.(allowed := true);
      AllowedMoves(Remove(b).next, false, b.mark, true);
      Stays(b, r);
      AppendsAndGoes(b, r, false, Scalar, x.end);
    }
  }

  /** The scanner's mark after a lexeme. */
  function After(x: Lexeme): Mark {
    if x.look.c == 0 then LineEnd(x.start) else x.end
  }

  lemma FetchAtGoes(b: B, x: Lexeme)
    requires Safe(b, false, b.mark) && b.mark == x.start && AtMost(x.start, x.end)
    requires forall i | 0 <= i < |b.keys| :: !IsStale(b.keys[i], b.mark)
    ensures Goes(b, FetchAt(b, x), After(x))
  {
    hide Safe, Goes, FetchStreamEnd, FetchDirective, FetchDocumentIndicator, FetchFlowStart, FetchFlowEnd, FetchFlowEntry,
         FetchBlockEntry, FetchKey, FetchValue, FetchSaved, FetchBlockScalar, FetchPlainScalar, StartsPlain, IsStale;
    StreamEndGoes(b);
    DirectiveGoes(b, x);
    FlowStartGoes(b, FlowSequenceStart, x);
    FlowStartGoes(b, FlowMappingStart, x);
    FlowEndGoes(b, FlowSequenceEnd, x);
    FlowEndGoes(b, FlowMappingEnd, x);
    BlockEntryGoes(b, x);
    ValueGoes(b, x);
    SavedGoes(b, Alias, x);
    SavedGoes(b, Anchor, x);
    SavedGoes(b, Tag, x);
    SavedGoes(b, Scalar, x);
    PlainGoes(b, x);
    BlockScalarGoes(b, x);
    ErrorGoes(b, x.end);
  }

  /** After the stale keys have been dropped, no key is stale. */
  lemma NoneStale(b: B)
    requires DropStale(b).Fetched?
    ensures forall i | 0 <= i < |b.keys| :: !IsStale(DropStale(b).next.keys[i], b.mark)
  {
  }

  /** One token, or more: the invariant and the tokens already handed out are kept. */
  lemma FetchNextGoes(b: B, x: Lexeme)
    requires Safe(b, false, b.mark) && AtMost(b.mark, x.start) && AtMost(x.start, x.end)
    ensures Goes(b, FetchNext(b, x), After(x))
  {
    var m := MoveTo(b, x);
    MarkMoves(b, false, b.mark, x.start);
    NotPending(b.(mark := x.start), b.mark, false, x.start);
    AllowedMoves(b.(mark := x.start), false, x.start, m.allowed);
    StaleKeeps(m);
    hide Safe, FetchAt;
    if DropStale(m).Fetched? {
      var s := DropStale(m).next;
      NoneStale(m);
      UnrollKeeps(s, s.mark.column);
      hide DropStale, Unroll;
      if Unroll(s, s.mark.column).Fetched? {
        var u := Unroll(s, s.mark.column).next;
        FetchAtGoes(u, x);
        Unfolded(b, false, b.mark);
        if FetchAt(u, x).Fetched? {
          FutureGrown(b, u, FetchAt(u, x).next);
        }
      }
    }
  }

  lemma FutureGrown(b: B, u: B, q: B)
    requires Future(u, q) && b.produced <= u.produced && u.parsed == b.parsed <= |b.produced|
    ensures Future(b, q)
  {
    assert u.produced[..b.parsed] == b.produced[..b.parsed];
  }

  // ---- Handing out tokens ----

  /** Marks that never go back; and nothing after the end of the stream but its end. */
  ghost predicate ValidInput(mark: Mark, xs: seq<Lexeme>)
    decreases |xs|
  {
    xs != [] ==>
      && AtMost(mark, xs[0].start) && AtMost(xs[0].start, xs[0].end)
      && (|xs| > 1 && xs[0].look.c == 0 ==> xs[1].look.c == 0)
      && ValidInput(After(xs[0]), xs[1..])
  }

  ghost predicate FetchedMore(b: B, r: More) {
    r.Available? ==>
      && Inv(r.next) && r.next.started && Future(b, r.next) && ValidInput(r.next.mark, r.rest)
      && r.next.parsed < |r.next.produced| && !HeadMayMove(r.next)
  }

  lemma StreamStartGoes(b: B)
    requires Inv(b) && !b.started
    ensures Inv(FetchStreamStart(b)) && FetchStreamStart(b).started && Future(b, FetchStreamStart(b))
  {
    var r := FetchStreamStart(b);
    BalanceOne(r.produced[0]);
    assert [] + r.produced == r.produced;
    assert r.produced[..0] == [] && r.produced[..1] == r.produced;
    assert [] + [-1] == [-1];
  }

  /** Fetching goes on until the head of the queue cannot move any more. */
  lemma {:induction false} FetchMoreGoes(b: B, xs: seq<Lexeme>)
    requires Inv(b) && ValidInput(b.mark, xs)
    ensures FetchedMore(b, FetchMore(b, xs))
    decreases |xs|, !b.started, 1
  {
    hide Safe, FetchNext;
    if b.parsed < |b.produced| {
      StaleKeeps(b);
      if DropStale(b).Fetched? {
        var s := DropStale(b).next;
        if HeadMayMove(s) {
          FetchOneGoes(s, xs);
          FutureMore(b, s, FetchOne(s, xs));
        }
      }
    } else {
      FetchOneGoes(b, xs);
    }
  }

  lemma FutureMore(b: B, s: B, r: More)
    requires FetchedMore(s, r) && s.produced == b.produced && s.parsed == b.parsed
    ensures FetchedMore(b, r)
  {
  }

  lemma {:induction false} FetchOneGoes(b: B, xs: seq<Lexeme>)
    requires Inv(b) && ValidInput(b.mark, xs)
    ensures FetchedMore(b, FetchOne(b, xs))
    decreases |xs|, !b.started, 0
  {
    hide Safe, FetchNext, FetchMore;
    if !b.started {
      StreamStartGoes(b);
      FetchMoreGoes(FetchStreamStart(b), xs);
    } else if xs != [] {
      FetchNextGoes(b, xs[0]);
      if FetchNext(b, xs[0]).Fetched? {
        var r := FetchNext(b, xs[0]).next;
        Unfolded(r, false, r.mark);
        FetchMoreGoes(r, xs[1..]);
        FutureChain(b, r, FetchMore(r, xs[1..]));
      }
    }
  }

  lemma FutureChain(b: B, r: B, m: More)
    requires Future(b, r) && FetchedMore(r, m)
    ensures FetchedMore(b, m)
  {
  }

  /** The head of the queue can be handed out: no key points at it any more. */
  lemma TakeKeeps(b: B)
    requires Inv(b) && b.started && b.parsed < |b.produced| && !HeadMayMove(b)
    ensures Inv(Take(b))
  {
    hide Balance, Nested, Ordered, Rising, Increasing;
    var r := Take(b);
    forall i | 0 <= i < |r.keys|
      ensures KeySafe(r, r.keys[i], false, r.mark)
    {
      assert KeySafe(b, b.keys[i], false, b.mark);
    }
  }

  // ---- Whole runs ----

  /** What the parser gets when it takes tokens until STREAM-END or an error. */
  datatype Delivered = Delivered(tokens: seq<Token>, last: B, ended: bool)

  ghost function Deliver(b: B, xs: seq<Lexeme>): Delivered
    requires Inv(b) && ValidInput(b.mark, xs)
    decreases |xs|, !b.started, |b.produced| - b.parsed
  {
    FetchMoreGoes(b, xs);
    match FetchMore(b, xs)
    case Failed => Delivered([], b, false)
    case Available(r, rest) =>
      var t := r.produced[r.parsed];
      TakeKeeps(r);
      if t.kind == StreamEnd then Delivered([t], Take(r), true)
      else
        Consumed(b, xs);
        var d := Deliver(Take(r), rest);
        Delivered([t] + d.tokens, d.last, d.ended)
  }

  /** Either input has been used up, or the stream has started, or the queue is as it was. */
  lemma {:induction false} Consumed(b: B, xs: seq<Lexeme>)
    requires Inv(b) && ValidInput(b.mark, xs) && FetchMore(b, xs).Available?
    ensures var m := FetchMore(b, xs);
            || |m.rest| < |xs|
            || (m.rest == xs && !b.started && m.next.started)
            || (m.rest == xs && b.started && m.next.produced == b.produced && m.next.parsed == b.parsed && m.next.flow == b.flow)
    decreases |xs|, !b.started, 1
  {
    hide Safe, FetchNext;
    if b.parsed < |b.produced| {
      StaleKeeps(b);
      if DropStale(b).Fetched? && HeadMayMove(DropStale(b).next) {
        ConsumedOne(DropStale(b).next, xs);
      }
    } else {
      ConsumedOne(b, xs);
    }
  }

  lemma {:induction false} ConsumedOne(b: B, xs: seq<Lexeme>)
    requires Inv(b) && ValidInput(b.mark, xs) && FetchOne(b, xs).Available?
    ensures var m := FetchOne(b, xs); |m.rest| < |xs| || (m.rest == xs && !b.started && m.next.started)
    decreases |xs|, !b.started, 0
  {
    hide Safe, FetchNext, FetchMore;
    if !b.started {
      StreamStartGoes(b);
      FetchMoreGoes(FetchStreamStart(b), xs);
      Consumed(FetchStreamStart(b), xs);
    } else {
      FetchNextGoes(b, xs[0]);
      var r := FetchNext(b, xs[0]).next;
      Unfolded(r, false, r.mark);
      Consumed(r, xs[1..]);
    }
  }

  /** The tokens handed out, in the order in which the scanner has them at the end: no insertion
      has come before or between them. At any time at least as many block collections have been
      started as ended. */
  lemma {:induction false} DeliveredInOrder(b: B, xs: seq<Lexeme>)
    requires Inv(b) && ValidInput(b.mark, xs)
    ensures var d := Deliver(b, xs);
            && Inv(d.last) && d.last.parsed <= |d.last.produced|
            && d.last.produced[..d.last.parsed] == b.produced[..b.parsed] + d.tokens
            && Nested(b.produced[..b.parsed] + d.tokens)
    decreases |xs|, !b.started, |b.produced| - b.parsed
  {
    hide FetchMore, Safe, Nested, Inv;
    FetchMoreGoes(b, xs);
    PastNested(b);
    match FetchMore(b, xs)
    case Failed =>
      assert b.produced[..b.parsed] + [] == b.produced[..b.parsed];
    case Available(r, rest) =>
      var t := r.produced[r.parsed];
      TakeKeeps(r);
      PastNested(Take(r));
      assert Take(r).produced[..r.parsed + 1] == b.produced[..b.parsed] + [t];
      if t.kind != StreamEnd {
        Consumed(b, xs);
        DeliveredInOrder(Take(r), rest);
        var d := Deliver(Take(r), rest);
        assert b.produced[..b.parsed] + [t] + d.tokens == b.produced[..b.parsed] + ([t] + d.tokens);
      }
  }

  lemma PastNested(b: B)
    requires Inv(b)
    ensures b.parsed <= |b.produced| && Nested(b.produced[..b.parsed])
  {
    hide Balance;
    if b.started {
      forall n | 0 <= n <= b.parsed
        ensures Balance(b.produced[..b.parsed][..n]) >= 0
      {
        assert b.produced[..b.parsed][..n] == b.produced[..n];
      }
    } else {
      EmptyNested();
    }
  }

  lemma EmptyNested()
    ensures Nested([])
  {
    var none: seq<Token> := [];
    assert none[..0] == none;
  }

  // ---- The end of the stream ----

  ghost predicate NoEnd(ts: seq<Token>) {
    forall i | 0 <= i < |ts| :: ts[i].kind != StreamEnd
  }

  /** STREAM-END is the last token and nothing can be inserted any more. */
  ghost predicate Finished(b: B) {
    && b.started && b.produced != []
    && NoEnd(b.produced[..|b.produced| - 1]) && b.produced[|b.produced| - 1].kind == StreamEnd
    && b.indents == [] && forall i | 0 <= i < |b.keys| :: !b.keys[i].possible
  }

  /** After the first STREAM-END come no other tokens. */
  ghost predicate OnlyEnds(ts: seq<Token>) {
    forall i, j | 0 <= i < j < |ts| && ts[i].kind == StreamEnd :: ts[j].kind == StreamEnd
  }

  /** The end of the stream has not come; or it has come and is final; or it has come inside a
      flow collection, which is then open for ever. */
  ghost predicate Ending(b: B, xs: seq<Lexeme>) {
    || NoEnd(b.produced) || Finished(b)
    || (b.started && b.flow > 0 && OnlyEnds(b.produced) && (xs != [] ==> xs[0].look.c == 0))
  }

  lemma {:induction false} UnrollNoEnd(b: B, column: int)
    requires NoEnd(b.produced) && Unroll(b, column).Fetched?
    ensures NoEnd(Unroll(b, column).next.produced)
    decreases |b.indents|
  {
    if b.flow == 0 && b.indent > column && b.indents != [] {
      var n := |b.indents| - 1;
      UnrollNoEnd(Append(b, BlockEnd, b.mark).(indent := b.indents[n], indents := b.indents[..n]), column);
    }
  }

  lemma ResetNoEnd(b: B)
    requires NoEnd(b.produced) && Reset(b).Fetched?
    ensures NoEnd(Reset(b).next.produced)
  {
    if Unroll(b, -1).Fetched? {
      UnrollNoEnd(b, -1);
    }
    hide Unroll, NoEnd;
  }

  lemma InsertedNoEnd(ts: seq<Token>, n: int, t: Token)
    requires NoEnd(ts) && n <= |ts| && t.kind != StreamEnd
    ensures NoEnd(Inserted(ts, n, t))
  {
  }

  /** A fetch that adds tokens, none of them STREAM-END. */
  ghost predicate Adds(b: B, r: Result) {
    r.Fetched? ==>
      && |r.next.produced| > |b.produced| && r.next.parsed == b.parsed
      && (NoEnd(b.produced) ==> NoEnd(r.next.produced))
  }

  lemma AppendAdds(b: B, q: B, r: B)
    requires |q.produced| >= |b.produced| && q.parsed == b.parsed && (NoEnd(b.produced) ==> NoEnd(q.produced))
    requires |r.produced| == |q.produced| + 1 && r.produced[..|q.produced|] == q.produced && r.parsed == q.parsed
    requires r.produced[|q.produced|].kind != StreamEnd
    ensures Adds(b, Fetched(r))
  {
    assert r.produced == q.produced + [r.produced[|q.produced|]];
  }

  lemma ResetAdds(b: B, x: Lexeme, kind: Kind)
    requires Safe(b, false, b.mark) && kind != StreamEnd
    ensures Adds(b, FetchDirective(b, x)) && Adds(b, FetchDocumentIndicator(b, kind, x))
  {
    ResetGrows(b);
    hide Reset, Adds, NoEnd, Safe;
    if Reset(b).Fetched? {
      if NoEnd(b.produced) {
        ResetNoEnd(b);
      }
      var r := Reset(b).next;
      AppendAdds(b, r, Append(r, kind, r.mark).(mark := x.end));
      AppendAdds(b, r, Append(r, Directive, r.mark).(mark := x.end));
    }
    ErrorAdds(b);
  }

  lemma ErrorAdds(b: B)
    ensures Adds(b, Error) && Adds(b, Panic)
  {
  }

  lemma KeysAddNothing(b: B)
    ensures Save(b).Fetched? ==> Save(b).next == b.(keys := Save(b).next.keys)
    ensures Remove(b).Fetched? ==> Remove(b).next == b.(keys := Remove(b).next.keys)
    ensures DecreaseFlow(b).Fetched? ==>
              DecreaseFlow(b).next == b.(keys := DecreaseFlow(b).next.keys, flow := DecreaseFlow(b).next.flow)
  {
  }

  /** The same tokens and one more. */
  lemma OneMoreAdds(b: B, r: B, t: Token)
    requires r.produced == b.produced + [t] && r.parsed == b.parsed && t.kind != StreamEnd
    ensures Adds(b, Fetched(r))
  {
  }

  lemma FlowAdds(b: B, x: Lexeme, kind: Kind)
    requires kind != StreamEnd
    ensures Adds(b, FetchFlowStart(b, kind, x)) && Adds(b, FetchFlowEnd(b, kind, x)) && Adds(b, FetchFlowEntry(b, x))
  {
    hide Save, Remove, DecreaseFlow, Adds;
    KeysAddNothing(b);
    ErrorAdds(b);
    var t := Token(kind, b.mark);
    if FetchFlowStart(b, kind, x).Fetched? {
      OneMoreAdds(b, FetchFlowStart(b, kind, x).next, t);
    }
    if Remove(b).Fetched? {
      KeysAddNothing(Remove(b).next);
      if FetchFlowEnd(b, kind, x).Fetched? {
        OneMoreAdds(b, FetchFlowEnd(b, kind, x).next, t);
      }
      OneMoreAdds(b, FetchFlowEntry(b, x).next, Token(FlowEntry, b.mark));
    }
  }

  lemma SavedAdds(b: B, x: Lexeme, kind: Kind)
    requires kind != StreamEnd
    ensures Adds(b, FetchSaved(b, kind, x)) && Adds(b, FetchPlainScalar(b, x)) && Adds(b, FetchBlockScalar(b, x))
  {
    hide Save, Remove, Adds;
    KeysAddNothing(b);
    ErrorAdds(b);
    if FetchSaved(b, kind, x).Fetched? {
      OneMoreAdds(b, FetchSaved(b, kind, x).next, Token(kind, b.mark));
    }
    if FetchPlainScalar(b, x).Fetched? {
      OneMoreAdds(b, FetchPlainScalar(b, x).next, Token(Scalar, b.mark));
    }
    if FetchBlockScalar(b, x).Fetched? {
      OneMoreAdds(b, FetchBlockScalar(b, x).next, Token(Scalar, b.mark));
    }
  }

  lemma RollAdds(b: B, start: Kind)
    requires start != StreamEnd
    ensures RollHere(b, start).Fetched? ==>
              var r := RollHere(b, start).next;
              |r.produced| >= |b.produced| && r.parsed == b.parsed && (NoEnd(b.produced) ==> NoEnd(r.produced))
  {
  }

  lemma IndicatorAdds(b: B, x: Lexeme)
    ensures Adds(b, FetchBlockEntry(b, x)) && Adds(b, FetchKey(b, x))
  {
    RollAdds(b, BlockSequenceStart);
    RollAdds(b, BlockMappingStart);
    hide RollHere, Adds, NoEnd;
    ErrorAdds(b);
    if RollHere(b, BlockSequenceStart).Fetched? && Remove(RollHere(b, BlockSequenceStart).next).Fetched? {
      var r := RollHere(b, BlockSequenceStart).next;
      var k := Remove(r).next;
      AppendAdds(b, r, Append(k.(allowed := true), BlockEntry, b.mark).(mark := x.end));
    }
    if RollHere(b, BlockMappingStart).Fetched? && Remove(RollHere(b, BlockMappingStart).next).Fetched? {
      var r := RollHere(b, BlockMappingStart).next;
      var k := Remove(r).next;
      AppendAdds(b, r, Append(k.(allowed := b.flow == 0), Key, b.mark).(mark := x.end));
    }
  }

  lemma ValueAdds(b: B, x: Lexeme)
    ensures Adds(b, FetchValue(b, x))
  {
    RollAdds(b, BlockMappingStart);
    if b.keys != [] && b.keys[|b.keys| - 1].possible && b.keys[|b.keys| - 1].number <= |b.produced| {
      var k := b.keys[|b.keys| - 1];
      var n := if k.number < b.parsed then -1 else k.number;
      if NoEnd(b.produced) {
        InsertedNoEnd(b.produced, n, Token(Key, k.mark));
        InsertedNoEnd(Inserted(b.produced, n, Token(Key, k.mark)), n, Token(BlockMappingStart, k.mark));
      }
    }
    hide RollHere;
  }

  /** Only at NUL does a fetch end the stream. */
  lemma FetchAtAdds(b: B, x: Lexeme)
    requires Safe(b, false, b.mark) && x.look.c != 0
    ensures Adds(b, FetchAt(b, x))
  {
    hide Adds, Safe, FetchStreamEnd, FetchDirective, FetchDocumentIndicator, FetchFlowStart, FetchFlowEnd, FetchFlowEntry,
         FetchBlockEntry, FetchKey, FetchValue, FetchSaved, FetchBlockScalar, FetchPlainScalar, StartsPlain;
    ErrorAdds(b);
    ResetAdds(b, x, DocumentStart);
    ResetAdds(b, x, DocumentEnd);
    FlowAdds(b, x, FlowSequenceStart);
    FlowAdds(b, x, FlowMappingStart);
    FlowAdds(b, x, FlowSequenceEnd);
    FlowAdds(b, x, FlowMappingEnd);
    SavedAdds(b, x, Alias);
    SavedAdds(b, x, Anchor);
    SavedAdds(b, x, Tag);
    SavedAdds(b, x, Scalar);
    IndicatorAdds(b, x);
    ValueAdds(b, x);
  }

  lemma FetchNextEnding(b: B, x: Lexeme, xs: seq<Lexeme>)
    requires Safe(b, false, b.mark) && ValidInput(b.mark, [x] + xs) && Ending(b, [x] + xs) && !Finished(b)
    requires FetchNext(b, x).Fetched?
    ensures Ending(FetchNext(b, x).next, xs)
  {
    var m := MoveTo(b, x);
    MarkMoves(b, false, b.mark, x.start);
    NotPending(b.(mark := x.start), b.mark, false, x.start);
    AllowedMoves(b.(mark := x.start), false, x.start, m.allowed);
    StaleKeeps(m);
    var s := DropStale(m).next;
    UnrollKeeps(s, s.mark.column);
    var u := Unroll(s, s.mark.column).next;
    assert ([x] + xs)[1..] == xs;
    hide Safe, FetchAt, Unroll, DropStale;
    if NoEnd(b.produced) {
      UnrollNoEnd(s, s.mark.column);
      if x.look.c != 0 {
        FetchAtAdds(u, x);
      } else {
        StreamEndEnding(u, x, xs);
      }
    } else {
      StreamEndEnding(u, x, xs);
    }
  }

  lemma StreamEndEnding(u: B, x: Lexeme, xs: seq<Lexeme>)
    requires Safe(u, false, u.mark) && x.look.c == 0 && (xs != [] ==> xs[0].look.c == 0)
    requires NoEnd(u.produced) || (u.flow > 0 && OnlyEnds(u.produced))
    requires FetchAt(u, x).Fetched?
    ensures Ending(FetchAt(u, x).next, xs)
  {
    hide Safe;
    StreamEndGoes(u);
    Unfolded(u, false, u.mark);
    var q := FetchStreamEnd(u).next;
    Unfolded(q, false, q.mark);
    if u.flow == 0 {
      var m := u.(mark := LineEnd(u.mark));
      ResetNoEnd(m);
      assert q.produced[..|q.produced| - 1] == Reset(m).next.produced;
    }
    hide Reset;
  }

  lemma {:induction false} FetchMoreEnding(b: B, xs: seq<Lexeme>)
    requires Inv(b) && ValidInput(b.mark, xs) && Ending(b, xs) && (Finished(b) ==> b.parsed < |b.produced|)
    requires FetchMore(b, xs).Available?
    ensures Ending(FetchMore(b, xs).next, FetchMore(b, xs).rest)
    decreases |xs|, !b.started, 1
  {
    hide Safe, FetchNext;
    if b.parsed < |b.produced| {
      StaleKeeps(b);
      var s := DropStale(b).next;
      assert Ending(s, xs);
      if HeadMayMove(s) {
        FetchOneEnding(s, xs);
      }
    } else {
      FetchOneEnding(b, xs);
    }
  }

  lemma {:induction false} FetchOneEnding(b: B, xs: seq<Lexeme>)
    requires Inv(b) && ValidInput(b.mark, xs) && Ending(b, xs) && !Finished(b)
    requires FetchOne(b, xs).Available?
    ensures Ending(FetchOne(b, xs).next, FetchOne(b, xs).rest)
    decreases |xs|, !b.started, 0
  {
    hide Safe, FetchNext, FetchMore;
    if !b.started {
      StreamStartGoes(b);
      var r := FetchStreamStart(b);
      assert NoEnd(r.produced);
      assert !Finished(r);
      FetchMoreEnding(r, xs);
    } else {
      FetchNextGoes(b, xs[0]);
      var r := FetchNext(b, xs[0]).next;
      Unfolded(r, false, r.mark);
      assert xs == [xs[0]] + xs[1..];
      FetchNextEnding(b, xs[0], xs[1..]);
      LessParsed(b, xs[0]);
      FetchMoreEnding(r, xs[1..]);
    }
  }

  /** Each fetch brings a token. */
  lemma LessParsed(b: B, x: Lexeme)
    requires Safe(b, false, b.mark) && AtMost(b.mark, x.start) && AtMost(x.start, x.end) && FetchNext(b, x).Fetched?
    ensures FetchNext(b, x).next.parsed < |FetchNext(b, x).next.produced|
  {
    var m := MoveTo(b, x);
    MarkMoves(b, false, b.mark, x.start);
    NotPending(b.(mark := x.start), b.mark, false, x.start);
    AllowedMoves(b.(mark := x.start), false, x.start, m.allowed);
    StaleKeeps(m);
    var s := DropStale(m).next;
    UnrollKeeps(s, s.mark.column);
    var u := Unroll(s, s.mark.column).next;
    Unfolded(u, false, u.mark);
    hide Safe, FetchAt, Unroll, DropStale;
    FetchAtGrows(u, x);
  }

  lemma FetchAtGrows(u: B, x: Lexeme)
    requires Safe(u, false, u.mark) && FetchAt(u, x).Fetched?
    ensures |FetchAt(u, x).next.produced| > |u.produced| && FetchAt(u, x).next.parsed == u.parsed
  {
    hide Safe;
    if x.look.c == 0 {
      var e := u.(mark := LineEnd(u.mark));
      MarkMoves(u, false, u.mark, e.mark);
      NotPending(e, u.mark, false, e.mark);
      ResetGrows(e);
      hide Reset;
    } else {
      FetchAtAdds(u, x);
      hide FetchAt;
    }
  }

  lemma ResetGrows(b: B)
    requires Safe(b, false, b.mark)
    ensures Reset(b).Fetched? ==> |Reset(b).next.produced| >= |b.produced| && Reset(b).next.parsed == b.parsed
  {
    UnrollKeeps(b, -1);
    hide Safe, Unroll;
  }

  /** When STREAM-END is handed out, the block collections that have been started and not ended are
      those whose levels are still open; outside of flow collections there are none. */
  lemma {:induction false} BalancedAtEnd(b: B, xs: seq<Lexeme>)
    requires Inv(b) && ValidInput(b.mark, xs) && Ending(b, xs) && (Finished(b) ==> b.parsed < |b.produced|)
    ensures var d := Deliver(b, xs);
            d.ended ==>
              && Balance(b.produced[..b.parsed] + d.tokens) == |d.last.indents|
              && (d.last.flow == 0 ==> d.last.indents == [])
    decreases |xs|, !b.started, |b.produced| - b.parsed
  {
    hide FetchMore, Safe, Balance, Nested, Ending, Finished, Inv;
    FetchMoreGoes(b, xs);
    if FetchMore(b, xs).Available? {
      FetchMoreEnding(b, xs);
      Consumed(b, xs);
      var r := FetchMore(b, xs).next;
      var rest := FetchMore(b, xs).rest;
      var t := r.produced[r.parsed];
      TakeKeeps(r);
      assert Take(r).produced[..r.parsed + 1] == b.produced[..b.parsed] + [t];
      if t.kind == StreamEnd {
        EndBalanced(r, rest);
      } else {
        EndingTaken(r, rest);
        BalancedAtEnd(Take(r), rest);
        var d := Deliver(Take(r), rest);
        assert b.produced[..b.parsed] + [t] + d.tokens == b.produced[..b.parsed] + ([t] + d.tokens);
      }
    }
  }

  lemma EndBalanced(r: B, rest: seq<Lexeme>)
    requires Inv(r) && Ending(r, rest) && r.parsed < |r.produced| && r.produced[r.parsed].kind == StreamEnd
    ensures Balance(r.produced[..r.parsed + 1]) == |r.indents| && (r.flow == 0 ==> r.indents == [])
  {
    BalanceIsIndents(r);
    hide Balance, Nested, Safe, Inv;
    if Finished(r) {
      LastIsEnd(r);
      assert r.produced[..r.parsed + 1] == r.produced;
    } else {
      EndsBalance(r.produced, r.parsed);
    }
  }

  lemma {:induction false} EndsBalance(ts: seq<Token>, k: nat)
    requires k < |ts| && ts[k].kind == StreamEnd && OnlyEnds(ts)
    ensures Balance(ts[..k + 1]) == Balance(ts)
    decreases |ts|
  {
    if k + 1 == |ts| {
      assert ts[..k + 1] == ts;
    } else {
      var init := ts[..|ts| - 1];
      EndsBalance(init, k);
      assert init[..k + 1] == ts[..k + 1];
    }
  }

  lemma EndingTaken(r: B, rest: seq<Lexeme>)
    requires Ending(r, rest) && r.parsed < |r.produced| && r.produced[r.parsed].kind != StreamEnd
    ensures Ending(Take(r), rest) && (Finished(Take(r)) ==> r.parsed + 1 < |r.produced|)
  {
  }

  lemma LastIsEnd(r: B)
    requires Finished(r) && r.parsed < |r.produced| && r.produced[r.parsed].kind == StreamEnd
    ensures r.parsed == |r.produced| - 1
  {
    var past := r.produced[..|r.produced| - 1];
    assert forall i | 0 <= i < |past| :: past[i] == r.produced[i];
  }

  /** A whole stream, from a scanner that has just been initialized. The tokens handed out nest at
      every point. Once STREAM-END has come, as many block collections are left without an end as
      levels are open; and none is left exactly if no flow collection is open or no level is. */
  lemma WholeStream(xs: seq<Lexeme>)
    requires ValidInput(START.mark, xs)
    ensures Inv(START)
    ensures var d := Deliver(START, xs);
            && Nested(d.tokens)
            && (d.ended ==> Balance(d.tokens) == |d.last.indents|)
            && (d.ended ==> (Balance(d.tokens) == 0 <==> d.last.flow == 0 || d.last.indents == []))
  {
    hide Balance, Nested, Deliver;
    var d := Deliver(START, xs);
    DeliveredInOrder(START, xs);
    BalancedAtEnd(START, xs);
    assert START.produced[..START.parsed] + d.tokens == d.tokens;
  }

  // ---- A stream that ends inside a flow collection ----

  /** The text '- [' and the NUL behind it. */
  const UNCLOSED: seq<Lexeme> :=
    [Lexeme(Mark(0, 0, 0), false, Look(0x2D, false, false, true, true), true, false, Mark(1, 0, 1)),
     Lexeme(Mark(2, 0, 2), false, Look(0x5B, false, false, false, true), true, false, Mark(3, 0, 3)),
     Lexeme(Mark(3, 0, 3), false, Look(0, true, false, false, true), true, false, Mark(3, 0, 3))]

  const OPENED := START.(produced := [Token(StreamStart, Mark(0, 0, 0))], indent := -1, keys := [NO_KEY], allowed := true, started := true)

  const IN_BLOCK := OPENED.(
    produced := OPENED.produced + [Token(BlockSequenceStart, Mark(0, 0, 0)), Token(BlockEntry, Mark(0, 0, 0))],
    indents := [-1], indent := 0, mark := Mark(1, 0, 1))

  /** The '[' may still turn out to be a simple key. */
  const IN_FLOW := IN_BLOCK.(
    produced := IN_BLOCK.produced + [Token(FlowSequenceStart, Mark(2, 0, 2))], flow := 1,
    keys := [SimpleKey(true, false, 3, Mark(2, 0, 2)), NO_KEY], mark := Mark(3, 0, 3))

  const AT_END := IN_FLOW.(
    produced := IN_FLOW.produced + [Token(StreamEnd, Mark(3, 1, 0))], allowed := false, mark := Mark(3, 1, 0))

  const LEFT_OPEN := AT_END.(keys := [SimpleKey(false, false, 3, Mark(2, 0, 2)), NO_KEY])

  /** Before the first token only STREAM-START is there. */
  lemma StreamOpens(xs: seq<Lexeme>)
    ensures FetchMore(START, xs) == Available(OPENED, xs)
  {
    assert START.produced + OPENED.produced == OPENED.produced && START.keys + OPENED.keys == OPENED.keys;
    assert FetchMore(OPENED, xs) == Available(OPENED, xs) by { NothingToDo(OPENED, xs); }
  }

  /** The head of the queue is there and final. */
  lemma NothingToDo(b: B, xs: seq<Lexeme>)
    requires b.parsed < |b.produced| && WithoutStale(b.keys, b.mark) == b.keys && !HeadMayMove(b)
    requires forall i | 0 <= i < |b.keys| :: !b.keys[i].required
    ensures FetchMore(b, xs) == Available(b, xs)
  {
  }

  lemma EntryFetched()
    ensures FetchNext(OPENED.(parsed := 1), UNCLOSED[0]) == Fetched(IN_BLOCK.(parsed := 1))
  {
    var b := OPENED.(parsed := 1);
    var rolled := b.(produced := b.produced + [Token(BlockSequenceStart, Mark(0, 0, 0))], indents := [-1], indent := 0);
    assert [] + [-1] == [-1];
    assert WithoutStale(b.keys, b.mark) == b.keys;
    assert RollHere(b, BlockSequenceStart) == Fetched(rolled);
    assert rolled.keys[0 := rolled.keys[0].(possible := false)] == rolled.keys;
    assert rolled.produced + [Token(BlockEntry, Mark(0, 0, 0))] == IN_BLOCK.produced;
  }

  lemma BracketFetched()
    ensures FetchNext(IN_BLOCK.(parsed := 3), UNCLOSED[1]) == Fetched(IN_FLOW.(parsed := 3))
  {
    var b := IN_BLOCK.(parsed := 3, mark := Mark(2, 0, 2));
    assert WithoutStale(b.keys, b.mark) == b.keys;
    var k := SimpleKey(true, false, 3, Mark(2, 0, 2));
    assert Save(b) == Fetched(b.(keys := [k]));
    assert [k] + [NO_KEY] == IN_FLOW.keys;
  }

  lemma EndFetched()
    ensures FetchNext(IN_FLOW.(parsed := 3), UNCLOSED[2]) == Fetched(AT_END.(parsed := 3))
  {
    var b := IN_FLOW.(parsed := 3);
    assert WithoutStale(b.keys, b.mark) == b.keys;
    assert b.keys[1 := b.keys[1].(possible := false)] == b.keys;
  }

  /** The end of the stream starts a new line, on which the '[' is no key any more. */
  lemma KeyDropped()
    ensures FetchMore(AT_END.(parsed := 3), []) == Available(LEFT_OPEN.(parsed := 3), [])
  {
    var b := AT_END.(parsed := 3);
    assert WithoutStale(b.keys, b.mark) == LEFT_OPEN.keys;
    assert DropStale(b) == Fetched(LEFT_OPEN.(parsed := 3));
  }

  lemma EntryComes()
    ensures FetchMore(OPENED.(parsed := 1), UNCLOSED) == Available(IN_BLOCK.(parsed := 1), UNCLOSED[1..])
  {
    EntryFetched();
    NothingToDo(IN_BLOCK.(parsed := 1), UNCLOSED[1..]);
    hide FetchNext;
  }

  /** While the '[' may move, the scanner reads on. */
  lemma BracketComes()
    ensures FetchMore(IN_BLOCK.(parsed := 3), UNCLOSED[1..]) == Available(LEFT_OPEN.(parsed := 3), [])
  {
    BracketFetched();
    EndFetched();
    KeyDropped();
    hide FetchNext;
    var b := IN_FLOW.(parsed := 3);
    assert UNCLOSED[1..][0] == UNCLOSED[1] && UNCLOSED[1..][1..] == UNCLOSED[2..];
    assert UNCLOSED[2..][0] == UNCLOSED[2] && UNCLOSED[2..][1..] == [];
    assert WithoutStale(b.keys, b.mark) == b.keys && DropStale(b) == Fetched(b);
    assert b.keys[0].possible && b.keys[0].number == b.parsed;
    assert HeadMayMove(b);
    assert FetchOne(b, UNCLOSED[2..]) == FetchMore(AT_END.(parsed := 3), []);
    assert FetchMore(b, UNCLOSED[2..]) == FetchOne(b, UNCLOSED[2..]);
    assert FetchMore(IN_BLOCK.(parsed := 3), UNCLOSED[1..]) == FetchMore(b, UNCLOSED[2..]);
  }

  /** One token is handed out, and the others after it. */
  lemma OneDelivered(b: B, xs: seq<Lexeme>, r: B, rest: seq<Lexeme>)
    requires Inv(b) && ValidInput(b.mark, xs) && FetchMore(b, xs) == Available(r, rest)
    ensures r.parsed < |r.produced| && Inv(Take(r)) && ValidInput(r.mark, rest)
    ensures var t := r.produced[r.parsed];
            Deliver(b, xs) == if t.kind == StreamEnd then Delivered([t], Take(r), true)
                              else
                                var d := Deliver(Take(r), rest);
                                Delivered([t] + d.tokens, d.last, d.ended)
  {
    hide Safe, FetchMore;
    FetchMoreGoes(b, xs);
    TakeKeeps(r);
  }

  lemma EndDelivered()
    requires Inv(IN_BLOCK.(parsed := 3)) && ValidInput(IN_BLOCK.mark, UNCLOSED[1..])
    ensures Deliver(IN_BLOCK.(parsed := 3), UNCLOSED[1..])
         == Delivered([Token(FlowSequenceStart, Mark(2, 0, 2)), Token(StreamEnd, Mark(3, 1, 0))], LEFT_OPEN.(parsed := 5), true)
  {
    hide Safe, FetchMore, Balance, Nested, Inv, ValidInput, Deliver;
    var none: seq<Lexeme> := [];
    BracketComes();
    OneDelivered(IN_BLOCK.(parsed := 3), UNCLOSED[1..], LEFT_OPEN.(parsed := 3), none);
    NothingToDo(LEFT_OPEN.(parsed := 4), none);
    OneDelivered(LEFT_OPEN.(parsed := 4), none, LEFT_OPEN.(parsed := 4), none);
  }

  lemma StartDelivered()
    requires Inv(START) && ValidInput(START.mark, UNCLOSED)
    ensures Inv(IN_BLOCK.(parsed := 3)) && ValidInput(IN_BLOCK.mark, UNCLOSED[1..])
    ensures var d := Deliver(IN_BLOCK.(parsed := 3), UNCLOSED[1..]);
            Deliver(START, UNCLOSED) == Delivered(IN_BLOCK.produced + d.tokens, d.last, d.ended)
  {
    hide Safe, FetchMore, Balance, Nested, Inv, ValidInput, Deliver;
    StreamOpens(UNCLOSED);
    OneDelivered(START, UNCLOSED, OPENED, UNCLOSED);
    EntryComes();
    OneDelivered(OPENED.(parsed := 1), UNCLOSED, IN_BLOCK.(parsed := 1), UNCLOSED[1..]);
    NothingToDo(IN_BLOCK.(parsed := 2), UNCLOSED[1..]);
    OneDelivered(IN_BLOCK.(parsed := 2), UNCLOSED[1..], IN_BLOCK.(parsed := 2), UNCLOSED[1..]);
    var p := IN_BLOCK.produced;
    var d := Deliver(IN_BLOCK.(parsed := 3), UNCLOSED[1..]).tokens;
    assert p + d == [p[0]] + ([p[1]] + ([p[2]] + d));
  }

  lemma UnclosedDelivered()
    requires Inv(START) && ValidInput(START.mark, UNCLOSED)
    ensures Deliver(START, UNCLOSED) == Delivered(LEFT_OPEN.produced, LEFT_OPEN.(parsed := 5), true)
  {
    hide Safe, Inv, ValidInput, Deliver;
    StartDelivered();
    EndDelivered();
    assert IN_BLOCK.produced + [Token(FlowSequenceStart, Mark(2, 0, 2)), Token(StreamEnd, Mark(3, 1, 0))] == LEFT_OPEN.produced;
  }

  /** The guard of yaml_parser_unroll_indent on the flow level keeps the levels open: '- [' is
      delivered to its STREAM-END with the block sequence started and not ended. */
  lemma UnclosedFlowLeavesBlockOpen()
    ensures Inv(START) && ValidInput(START.mark, UNCLOSED)
    ensures var d := Deliver(START, UNCLOSED);
            && d.ended && d.tokens == LEFT_OPEN.produced && d.last == LEFT_OPEN.(parsed := 5)
            && d.last.flow == 1 && Balance(d.tokens) == 1
  {
    UnclosedValid();
    hide Safe, Balance, Nested, ValidInput, Deliver;
    WholeStream(UNCLOSED);
    UnclosedDelivered();
  }

  lemma UnclosedValid()
    ensures ValidInput(START.mark, UNCLOSED)
  {
  }
}
