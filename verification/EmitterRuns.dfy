/** Whole runs of the emitter: its bounded lookahead answers as if the whole stream were in the
    queue, a complete stream leaves the queue empty, and the streams that get through are exactly
    the well-bracketed ones with well-formed events. */
module EmitterRuns {
  import opened Utf8
  import opened EventGrammar
  import opened EmitterSpec
  import opened EmitterSoundness

  // ---- An emitter that sees the whole stream ----

  /** Handle `n` events with everything that follows in the queue. */
  function HandleSome(m: M, n: nat, o: nat -> Choice): Result
    requires n <= |m.events|
    decreases n
  {
    if n == 0 then Ok(m)
    else
      match EmitterSpec.Step(m, o(m.handled))
      case Ok(q) => HandleSome(q.(events := m.events[1..], handled := m.handled + 1), n - 1, o)
      case r => r
  }

  ghost predicate AllValid(es: seq<Event>) {
    forall i | 0 <= i < |es| :: ValidEvent(es[i])
  }

  lemma InvIgnoresQueue(m: M, es: seq<Event>, n: nat)
    ensures Inv(m.(events := es, handled := n)) == Inv(m) && Abs(m.(events := es, handled := n)) == Abs(m)
  {
    hide AllFrames, Flows, Depth, Waiting;
  }

  /** The events handled are exactly those that the grammar allows and that are well formed. */
  lemma {:induction false} HandlesExactly(m: M, n: nat, o: nat -> Choice)
    requires Inv(m) && n <= |m.events|
    ensures var r := HandleSome(m, n, o);
            var g := Run(Abs(m), m.events[..n]);
            && !r.Panic?
            && (r.Ok? <==> g != Rejected && AllValid(m.events[..n]))
            && (r.Ok? ==> Inv(r.next) && Abs(r.next) == g && r.next.events == m.events[n..])
    decreases n
  {
    hide Inv, Abs, EmitterSpec.Step, Run, ValidEvent;
    if n == 0 {
      RunNothing(Abs(m));
      AbsNotRejected(m);
      assert m.events[..0] == [] && m.events[0..] == m.events;
    } else {
      var e := m.events[0];
      var c := o(m.handled);
      StepSound(m, e, c);
      assert m.events[..n] == [e] + m.events[1..][..n - 1];
      RunConcat(Abs(m), [e], m.events[1..][..n - 1]);
      RunOne(Abs(m), e);
      match EmitterSpec.Step(m, c)
      case Panic =>
      case Fail =>
        RejectedForever(m.events[1..][..n - 1]);
        assert m.events[..n][0] == e;
      case Ok(q) =>
        var q' := q.(events := m.events[1..], handled := m.handled + 1);
        InvIgnoresQueue(q, m.events[1..], m.handled + 1);
        HandlesExactly(q', n - 1, o);
        assert m.events[1..][n - 1..] == m.events[n..];
        ValidOneMore(e, m.events[1..][..n - 1]);
    }
  }

  lemma ValidOneMore(e: Event, es: seq<Event>)
    ensures AllValid([e] + es) <==> ValidEvent(e) && AllValid(es)
  {
    hide ValidEvent;
    var all := [e] + es;
    assert all[0] == e;
    assert forall i | 0 <= i < |es| :: all[i + 1] == es[i];
  }

  lemma AbsNotRejected(m: M)
    ensures Abs(m) != Rejected
  {
  }

  // ---- The lookahead is enough ----

  /** A collection's start is handled only when the event after it is there. */
  lemma SeesNext(es: seq<Event>)
    requires !NeedMoreEvents(es) && (es[0].SequenceStart? || es[0].MappingStart?)
    ensures |es| >= 2
  {
    if |es| == 1 {
      assert es[1..] == [];
      assert !LevelReturns(es[1..], 1);
    }
  }

  /** The same with any more events behind those that the emitter waited for. */
  lemma StepSeesEnough(m: M, es: seq<Event>, more: seq<Event>, c: Choice)
    requires m.events == es && !NeedMoreEvents(es)
    ensures (es + more)[0] == es[0]
    ensures EmptySequence(m.(events := es + more)) == EmptySequence(m)
    ensures EmptyMapping(m.(events := es + more)) == EmptyMapping(m)
    ensures var r := EmitterSpec.Step(m, c);
            var r' := EmitterSpec.Step(m.(events := es + more), c);
            if r.Ok? then r' == Ok(r.next.(events := es + more)) else r' == r
  {
    if es[0].SequenceStart? || es[0].MappingStart? {
      SeesNext(es);
      assert (es + more)[1] == es[1];
    }
    StepIgnoresMore(m, es + more, c);
  }

  lemma StepIgnoresMore(m: M, all: seq<Event>, c: Choice)
    requires m.events != [] && all != [] && all[0] == m.events[0]
    requires EmptySequence(m.(events := all)) == EmptySequence(m) && EmptyMapping(m.(events := all)) == EmptyMapping(m)
    ensures var r := EmitterSpec.Step(m, c);
            var r' := EmitterSpec.Step(m.(events := all), c);
            if r.Ok? then r' == Ok(r.next.(events := all)) else r' == r
  {
    var e := m.events[0];
    AnalyzeIgnoresQueue(m, all, e);
    hide Analyze;
    match Analyze(m, e)
    case Bad =>
    case Good(d) => DispatchIgnoresMore(m, all, e, d, c);
  }

  lemma AnalyzeIgnoresQueue(m: M, all: seq<Event>, e: Event)
    ensures Analyze(m.(events := all), e) == Analyze(m, e)
  {
    hide TagData;
  }

  /** The two results are the same but for the queue. */
  predicate SameBut(r: Result, r': Result, all: seq<Event>) {
    if r.Ok? then r' == Ok(r.next.(events := all)) else r' == r
  }

  lemma NodeIgnoresMore(m: M, all: seq<Event>, s: EmitterState, e: Event, d: Data, mapping: bool)
    requires EmptySequence(m.(events := all)) == EmptySequence(m) && EmptyMapping(m.(events := all)) == EmptyMapping(m)
    ensures SameBut(EmitNode(Push(m, s), e, d, mapping), EmitNode(Push(m.(events := all), s), e, d, mapping), all)
  {
  }

  lemma DispatchIgnoresMore(m: M, all: seq<Event>, e: Event, d: Data, c: Choice)
    requires m.events != [] && all != [] && all[0] == m.events[0] == e
    requires EmptySequence(m.(events := all)) == EmptySequence(m) && EmptyMapping(m.(events := all)) == EmptyMapping(m)
    ensures SameBut(Dispatch(m, e, d, c), Dispatch(m.(events := all), e, d, c), all)
  {
    hide EmitNode, EmitStreamStart, EmitDocumentStart, EmitDocumentEnd, EmitFlowSequenceItem, EmitFlowMappingKey,
         EmitBlockSequenceItem, EmitBlockMappingKey, EmptySequence, EmptyMapping, SameBut, Push;
    OutsideIgnoresMore(m, all, e);
    SequenceIgnoresMore(m, all, e, d, c, true);
    SequenceIgnoresMore(m, all, e, d, c, false);
    MappingIgnoresMore(m, all, e, d, c, true);
    MappingIgnoresMore(m, all, e, d, c, false);
    NodeIgnoresMore(m, all, DocumentEndState, e, d, false);
    NodeIgnoresMore(m, all, FlowMappingKeyState, e, d, true);
    NodeIgnoresMore(m, all, BlockMappingKeyState, e, d, true);
  }

  lemma OutsideIgnoresMore(m: M, all: seq<Event>, e: Event)
    ensures SameBut(EmitStreamStart(m, e), EmitStreamStart(m.(events := all), e), all)
    ensures SameBut(EmitDocumentEnd(m, e), EmitDocumentEnd(m.(events := all), e), all)
    ensures SameBut(Fail, Fail, all)
    ensures SameBut(EmitDocumentStart(m, e), EmitDocumentStart(m.(events := all), e), all)
  {
    hide AppendDirectives;
  }

  lemma LevelsIgnoreMore(m: M, all: seq<Event>)
    ensures SameBut(EndCollection(m), EndCollection(m.(events := all)), all)
    ensures forall flow, indentless ::
              IncreaseIndent(m.(events := all), flow, indentless) == IncreaseIndent(m, flow, indentless).(events := all)
  {
  }

  /** The emitter inside the collection, and its queue. */
  lemma EnteredIgnoresMore(m: M, all: seq<Event>, flow: bool, indentless: bool)
    ensures var n := IncreaseIndent(m, flow, indentless);
            && n.events == m.events
            && EmptySequence(n) == EmptySequence(m) && EmptyMapping(n) == EmptyMapping(m)
            && EmptySequence(n.(events := all)) == EmptySequence(m.(events := all))
            && EmptyMapping(n.(events := all)) == EmptyMapping(m.(events := all))
  {
  }

  lemma FlowLevelIgnoresMore(m: M, k: int)
    ensures EmptySequence(m.(flowLevel := k)) == EmptySequence(m) && EmptyMapping(m.(flowLevel := k)) == EmptyMapping(m)
  {
  }

  lemma SequenceIgnoresMore(m: M, all: seq<Event>, e: Event, d: Data, c: Choice, first: bool)
    requires EmptySequence(m.(events := all)) == EmptySequence(m) && EmptyMapping(m.(events := all)) == EmptyMapping(m)
    ensures SameBut(EmitFlowSequenceItem(m, e, d, first), EmitFlowSequenceItem(m.(events := all), e, d, first), all)
    ensures SameBut(EmitBlockSequenceItem(m, e, d, c, first), EmitBlockSequenceItem(m.(events := all), e, d, c, first), all)
  {
    hide EmitNode, EndCollection, IncreaseIndent, EmptySequence, EmptyMapping;
    var indentless := m.mappingContext && !c.indention;
    LevelsIgnoreMore(m, all);
    EnteredIgnoresMore(m, all, true, false);
    EnteredIgnoresMore(m, all, false, indentless);
    var f := if first then IncreaseIndent(m, true, false).(flowLevel := m.flowLevel + 1) else m;
    var b := if first then IncreaseIndent(m, false, indentless) else m;
    FlowLevelIgnoresMore(IncreaseIndent(m, true, false), m.flowLevel + 1);
    FlowLevelIgnoresMore(IncreaseIndent(m, true, false).(events := all), m.flowLevel + 1);
    LevelsIgnoreMore(f.(flowLevel := f.flowLevel - 1), all);
    LevelsIgnoreMore(b, all);
    NodeIgnoresMore(f, all, FlowSequenceItemState, e, d, false);
    NodeIgnoresMore(b, all, BlockSequenceItemState, e, d, false);
  }

  lemma MappingIgnoresMore(m: M, all: seq<Event>, e: Event, d: Data, c: Choice, first: bool)
    requires m.events != [] && all != [] && all[0] == m.events[0] == e
    requires EmptySequence(m.(events := all)) == EmptySequence(m) && EmptyMapping(m.(events := all)) == EmptyMapping(m)
    ensures SameBut(EmitFlowMappingKey(m, e, d, c, first), EmitFlowMappingKey(m.(events := all), e, d, c, first), all)
    ensures SameBut(EmitBlockMappingKey(m, e, d, c, first), EmitBlockMappingKey(m.(events := all), e, d, c, first), all)
  {
    hide EmitNode, EndCollection, IncreaseIndent, EmptySequence, EmptyMapping, SimpleKey;
    LevelsIgnoreMore(m, all);
    EnteredIgnoresMore(m, all, true, false);
    EnteredIgnoresMore(m, all, false, false);
    var f := if first then IncreaseIndent(m, true, false).(flowLevel := m.flowLevel + 1) else m;
    var b := if first then IncreaseIndent(m, false, false) else m;
    FlowLevelIgnoresMore(IncreaseIndent(m, true, false), m.flowLevel + 1);
    FlowLevelIgnoresMore(IncreaseIndent(m, true, false).(events := all), m.flowLevel + 1);
    LevelsIgnoreMore(f.(flowLevel := f.flowLevel - 1), all);
    LevelsIgnoreMore(b, all);
    KeyIgnoresMore(m, f, all, d, c);
    KeyIgnoresMore(m, b, all, d, c);
    NodeIgnoresMore(f, all, FlowMappingSimpleValueState, e, d, true);
    NodeIgnoresMore(f, all, FlowMappingValueState, e, d, true);
    NodeIgnoresMore(b, all, BlockMappingSimpleValueState, e, d, true);
    NodeIgnoresMore(b, all, BlockMappingValueState, e, d, true);
  }

  lemma KeyIgnoresMore(m: M, n: M, all: seq<Event>, d: Data, c: Choice)
    requires m.events != [] && all != [] && all[0] == m.events[0] && n.events == m.events
    requires EmptySequence(m.(events := all)) == EmptySequence(m) && EmptyMapping(m.(events := all)) == EmptyMapping(m)
    ensures SimpleKey(n.(events := all), d, c) == SimpleKey(n, d, c)
  {
  }

  // ---- The queue ----

  /** What has been handled one way is handled the other way. */
  lemma {:induction false} HandleMore(m: M, n: nat, k: nat, o: nat -> Choice)
    requires n + k <= |m.events| && HandleSome(m, n, o).Ok?
    requires |HandleSome(m, n, o).next.events| == |m.events| - n
    ensures HandleSome(m, n + k, o) == HandleSome(HandleSome(m, n, o).next, k, o)
    decreases n
  {
    hide EmitterSpec.Step;
    if n > 0 {
      var q := EmitterSpec.Step(m, o(m.handled)).next.(events := m.events[1..], handled := m.handled + 1);
      HandleMore(q, n - 1, k, o);
    }
  }

  /** What draining the queue gives, `r`, is what handling some events gives with `more` behind them. */
  ghost predicate Refined(m: M, more: seq<Event>, o: nat -> Choice, r: Result) {
    match r
    case Ok(q) =>
      && |q.events| <= |m.events| && q.events == m.events[|m.events| - |q.events|..]
      && HandleSome(m.(events := m.events + more), |m.events| - |q.events|, o) == Ok(q.(events := q.events + more))
    case r => exists n | 0 <= n <= |m.events| :: HandleSome(m.(events := m.events + more), n, o) == r
  }

  lemma NothingRefined(m: M, more: seq<Event>, o: nat -> Choice)
    ensures Refined(m, more, o, Ok(m))
  {
    HandleEnds(m.(events := m.events + more), o);
    assert m.events[0..] == m.events;
  }

  lemma StopRefined(m: M, more: seq<Event>, o: nat -> Choice, r: Result)
    requires m.events != [] && !r.Ok? && EmitterSpec.Step(m.(events := m.events + more), o(m.handled)) == r
    ensures Refined(m, more, o, r)
  {
    hide EmitterSpec.Step, HandleSome;
    HandleEnds(m.(events := m.events + more), o);
    assert HandleSome(m.(events := m.events + more), 1, o) == r;
  }

  /** The queue as it is left. */
  lemma {:induction false} DrainRefines(m: M, more: seq<Event>, o: nat -> Choice)
    ensures Refined(m, more, o, Drain(m, o))
    ensures Drain(m, o).Ok? ==> NeedMoreEvents(Drain(m, o).next.events)
    decreases |m.events|
  {
    hide EmitterSpec.Step, NeedMoreEvents, HandleSome, Refined;
    if NeedMoreEvents(m.events) {
      NothingRefined(m, more, o);
    } else {
      NotEmpty(m.events);
      var c := o(m.handled);
      StepSeesEnough(m, m.events, more, c);
      match EmitterSpec.Step(m, c)
      case Ok(q) =>
        var q' := q.(events := m.events[1..], handled := m.handled + 1);
        DrainRefines(q', more, o);
        FirstOfMore(m.events, more);
        OneMoreRefined(m, q', more, o, Drain(q', o));
      case r => StopRefined(m, more, o, r);
    }
  }

  lemma FirstOfMore(es: seq<Event>, more: seq<Event>)
    requires es != []
    ensures (es + more)[1..] == es[1..] + more
  {
  }

  lemma HandleEnds(m: M, o: nat -> Choice)
    ensures HandleSome(m, 0, o) == Ok(m)
    ensures m.events != [] && !EmitterSpec.Step(m, o(m.handled)).Ok? ==>
              HandleSome(m, 1, o) == EmitterSpec.Step(m, o(m.handled))
  {
    hide EmitterSpec.Step;
  }

  lemma NotEmpty(es: seq<Event>)
    requires !NeedMoreEvents(es)
    ensures es != []
  {
  }

  /** After one more step, which leaves `m'`. */
  lemma OneMoreRefined(m: M, m': M, more: seq<Event>, o: nat -> Choice, r: Result)
    requires m.events != [] && m'.events == m.events[1..] && Refined(m', more, o, r)
    requires var s := EmitterSpec.Step(m.(events := m.events + more), o(m.handled));
             s.Ok? && s.next.(events := m.events[1..] + more, handled := m.handled + 1) == m'.(events := m'.events + more)
    ensures Refined(m, more, o, r)
  {
    hide EmitterSpec.Step, HandleSome;
    var all := m.(events := m.events + more);
    var all' := m'.(events := m'.events + more);
    FirstOfMore(m.events, more);
    match r
    case Ok(q) =>
      HandleOneMore(all, |m'.events| - |q.events|, o);
      assert m.events[1..][|m'.events| - |q.events|..] == m.events[|m.events| - |q.events|..];
    case r =>
      var n :| 0 <= n <= |m'.events| && HandleSome(all', n, o) == r;
      HandleOneMore(all, n, o);
      assert HandleSome(all, n + 1, o) == r;
  }

  lemma HandleOneMore(m: M, n: nat, o: nat -> Choice)
    requires n < |m.events| && EmitterSpec.Step(m, o(m.handled)).Ok?
    ensures var q := EmitterSpec.Step(m, o(m.handled)).next.(events := m.events[1..], handled := m.handled + 1);
            HandleSome(m, n + 1, o) == HandleSome(q, n, o)
  {
    hide EmitterSpec.Step;
  }

  /** At most three events wait. */
  lemma BoundedQueue(es: seq<Event>)
    requires NeedMoreEvents(es)
    ensures |es| <= 3
  {
  }

  /** Any number of calls: bounded lookahead does what unbounded lookahead does, whatever events are
      still to come. */
  lemma {:induction false} EmitAllRefines(m: M, es: seq<Event>, more: seq<Event>, o: nat -> Choice)
    requires NeedMoreEvents(m.events)
    ensures var all := m.(events := m.events + es + more);
            match EmitAll(m, es, o)
            case Ok(q) =>
              && NeedMoreEvents(q.events) && |q.events| <= |m.events + es|
              && HandleSome(all, |m.events + es| - |q.events|, o) == Ok(q.(events := q.events + more))
            case r => exists n | 0 <= n <= |m.events + es| :: HandleSome(all, n, o) == r
    decreases |es|
  {
    hide NeedMoreEvents, EmitterSpec.Step, Drain, HandleSome;
    var all := m.(events := m.events + es + more);
    if es == [] {
      assert m.events + es + more == m.events + more;
      HandleNothing(all, o);
    } else {
      var m1 := m.(events := m.events + [es[0]]);
      DrainRefines(m1, es[1..] + more, o);
      assert m1.events + (es[1..] + more) == m.events + es + more;
      match Drain(m1, o)
      case Ok(q) =>
        EmitAllRefines(q, es[1..], more, o);
        var n := |m1.events| - |q.events|;
        var all' := q.(events := q.events + es[1..] + more);
        assert q.events + (es[1..] + more) == q.events + es[1..] + more;
        assert HandleSome(all, n, o) == Ok(all');
        match EmitAll(q, es[1..], o) {
          case Ok(r) =>
            HandleMore(all, n, |q.events + es[1..]| - |r.events|, o);
          case r =>
            var k :| 0 <= k <= |q.events + es[1..]| && HandleSome(all', k, o) == r;
            HandleMore(all, n, k, o);
        }
      case r =>
    }
  }

  /** The same with nothing to come. */
  lemma EmitAllHandles(m: M, es: seq<Event>, o: nat -> Choice)
    requires NeedMoreEvents(m.events)
    ensures var all := m.(events := m.events + es);
            match EmitAll(m, es, o)
            case Ok(q) =>
              && NeedMoreEvents(q.events) && |q.events| <= |all.events|
              && HandleSome(all, |all.events| - |q.events|, o) == Ok(q)
            case r => exists n | 0 <= n <= |all.events| :: HandleSome(all, n, o) == r
  {
    hide NeedMoreEvents, EmitAll, HandleSome;
    EmitAllRefines(m, es, [], o);
    assert m.events + es + [] == m.events + es;
    match EmitAll(m, es, o)
    case Ok(q) => assert q.events + [] == q.events;
    case r =>
  }

  lemma HandleNothing(m: M, o: nat -> Choice)
    ensures HandleSome(m, 0, o) == Ok(m)
  {
  }

  // ---- A complete stream drains the queue ----

  function Sum(es: seq<Event>): int {
    if es == [] then 0 else Level(es[0]) + Sum(es[1..])
  }

  lemma {:induction false} SumConcat(a: seq<Event>, b: seq<Event>)
    ensures Sum(a + b) == Sum(a) + Sum(b)
  {
    if a == [] {
      assert a + b == b;
    } else {
      assert (a + b)[1..] == a[1..] + b;
      SumConcat(a[1..], b);
    }
  }

  lemma {:induction false} NodeBalanced(n: Node)
    requires WellFormed(n)
    ensures Sum(Flatten(n)) == 0
    decreases n, 1
  {
    hide Sum;
    match n
    case Leaf(e) =>
      SumOne(e);
    case Sequence(e, items) =>
      ItemsBalanced(items);
      SumOne(e);
      SumOne(SequenceEnd);
      SumConcat([e], FlattenItems(items));
      SumConcat([e] + FlattenItems(items), [SequenceEnd]);
    case Mapping(e, pairs) =>
      PairsBalanced(pairs);
      SumOne(e);
      SumOne(MappingEnd);
      SumConcat([e], FlattenPairs(pairs));
      SumConcat([e] + FlattenPairs(pairs), [MappingEnd]);
  }

  lemma SumOne(e: Event)
    ensures Sum([e]) == Level(e)
  {
    assert [e][1..] == [];
  }

  lemma {:induction false} ItemsBalanced(items: seq<Node>)
    requires forall i | 0 <= i < |items| :: WellFormed(items[i])
    ensures Sum(FlattenItems(items)) == 0
    decreases items, 0
  {
    if items != [] {
      NodeBalanced(items[0]);
      ItemsBalanced(items[1..]);
      SumConcat(Flatten(items[0]), FlattenItems(items[1..]));
    }
  }

  lemma {:induction false} PairsBalanced(pairs: seq<Pair>)
    requires forall i | 0 <= i < |pairs| :: WellFormed(pairs[i].key) && WellFormed(pairs[i].value)
    ensures Sum(FlattenPairs(pairs)) == 0
    decreases pairs, 0
  {
    hide Sum;
    if pairs == [] {
      assert FlattenPairs(pairs) == [];
      SumNothing();
    } else {
      PairBalanced(pairs[0]);
      PairsBalanced(pairs[1..]);
      SumConcat(FlattenPair(pairs[0]), FlattenPairs(pairs[1..]));
    }
  }

  lemma SumNothing()
    ensures Sum([]) == 0
  {
  }

  lemma {:induction false} PairBalanced(p: Pair)
    requires WellFormed(p.key) && WellFormed(p.value)
    ensures Sum(FlattenPair(p)) == 0
    decreases p, 0
  {
    hide Sum;
    NodeBalanced(p.key);
    NodeBalanced(p.value);
    SumConcat(Flatten(p.key), Flatten(p.value));
  }

  /** The level returns where the levels of the events add up to nothing. */
  lemma {:induction false} Returns(es: seq<Event>, k: nat, level: int)
    requires 0 < k <= |es| && level + Sum(es[..k]) == 0
    ensures LevelReturns(es, level)
    decreases k
  {
    assert es[..k][1..] == es[1..][..k - 1];
    if k > 1 && level + Level(es[0]) != 0 {
      Returns(es[1..], k - 1, level + Level(es[0]));
    }
  }

  /** What remains of a complete stream never has to wait. */
  lemma NothingWaits(g: State, es: seq<Event>)
    requires es != [] && Run(g, es) == After && g != After
    ensures !NeedMoreEvents(es)
  {
    hide Run;
    var e := es[0];
    Unfold(g, es);
    if e.DocumentStart? {
      var d, rest := DocumentOf(es);
      NodeBalanced(d.root);
      SumOne(d.start);
      SumOne(d.end);
      SumConcat([d.start], Flatten(d.root));
      SumConcat([d.start] + Flatten(d.root), [d.end]);
      var all := [d.start] + Flatten(d.root) + [d.end];
      assert es[..|all|] == all;
      Returns(es, |all|, 0);
    } else if e.SequenceStart? || e.MappingStart? {
      var n, rest := NodeOf(g.stack, es);
      NodeBalanced(n);
      assert es[..|Flatten(n)|] == Flatten(n);
      FlattenNotEmpty(n);
      Returns(es, |Flatten(n)|, 0);
    }
  }

  lemma FlattenNotEmpty(n: Node)
    ensures Flatten(n) != []
  {
  }

  // ---- The main results ----

  lemma StartInv(bestIndent: int, canonical: bool)
    ensures Inv(EmitterSpec.Start(bestIndent, canonical)) && Abs(EmitterSpec.Start(bestIndent, canonical)) == Before
  {
  }

  lemma EndIsAfter(m: M)
    requires Inv(m)
    ensures Abs(m) == After <==> m.state == EndState
  {
  }

  /** Emitting never underflows a stack; it fails only if the events so far do not conform; what
      has been handled conforms; and at most three events wait. */
  lemma EmitsConforming(es: seq<Event>, bestIndent: int, canonical: bool, o: nat -> Choice)
    ensures var r := EmitAll(EmitterSpec.Start(bestIndent, canonical), es, o);
            && !r.Panic?
            && (r.Fail? ==> Run(Before, es) == Rejected || !AllValid(es))
            && (r.Ok? ==>
                  var n := |es| - |r.next.events|;
                  && 0 <= n && |r.next.events| <= 3 && r.next.events == es[n..]
                  && Inv(r.next) && Abs(r.next) == Run(Before, es[..n]) && AllValid(es[..n]))
  {
    hide Inv, Abs, Run, HandleSome, EmitAll, AllValid, NeedMoreEvents;
    var n := SomeHandled(es, bestIndent, canonical, o);
    StartHandles(bestIndent, canonical, n, es, o);
  }

  /** So many events are handled. */
  lemma SomeHandled(es: seq<Event>, bestIndent: int, canonical: bool, o: nat -> Choice) returns (n: nat)
    ensures n <= |es|
    ensures var m := EmitterSpec.Start(bestIndent, canonical);
            var r := EmitAll(m, es, o);
            && HandleSome(m.(events := es), n, o) == r
            && (r.Ok? ==> |r.next.events| == |es| - n <= 3)
  {
    var m := EmitterSpec.Start(bestIndent, canonical);
    assert NeedMoreEvents(m.events);
    hide HandleSome, EmitAll, NeedMoreEvents;
    EmitAllHandles(m, es, o);
    assert m.events + es == es;
    match EmitAll(m, es, o)
    case Ok(q) =>
      n := |es| - |q.events|;
      BoundedQueue(q.events);
    case r =>
      n :| n <= |es| && HandleSome(m.(events := es), n, o) == r;
  }

  /** Events handled from the start on. */
  lemma StartHandles(bestIndent: int, canonical: bool, n: nat, es: seq<Event>, o: nat -> Choice)
    requires n <= |es|
    ensures var r := HandleSome(EmitterSpec.Start(bestIndent, canonical).(events := es), n, o);
            && !r.Panic?
            && (r.Fail? ==> Run(Before, es) == Rejected || !AllValid(es))
            && (r.Ok? ==> r.next.events == es[n..] && Inv(r.next) && Abs(r.next) == Run(Before, es[..n]) && AllValid(es[..n]))
  {
    hide Inv, Abs, Run, HandleSome, AllValid;
    var all := EmitterSpec.Start(bestIndent, canonical).(events := es);
    StartInv(bestIndent, canonical);
    InvIgnoresQueue(EmitterSpec.Start(bestIndent, canonical), es, all.handled);
    HandlesExactly(all, n, o);
    PrefixRejected(es, n);
  }

  lemma PrefixRejected(es: seq<Event>, n: nat)
    requires n <= |es|
    ensures Run(Before, es[..n]) == Rejected ==> Run(Before, es) == Rejected
    ensures AllValid(es) ==> AllValid(es[..n])
  {
    hide Run, ValidEvent;
    assert es == es[..n] + es[n..];
    RunConcat(Before, es[..n], es[n..]);
    RejectedForever(es[n..]);
  }

  /** A stream gets through to its end, with nothing left in the queue, if and only if it is a
      well-bracketed stream of well-formed events. */
  lemma EmitsExactlyConforming(es: seq<Event>, bestIndent: int, canonical: bool, o: nat -> Choice)
    ensures var r := EmitAll(EmitterSpec.Start(bestIndent, canonical), es, o);
            (r.Ok? && r.next.state == EndState && r.next.events == []) <==> (Run(Before, es) == After && AllValid(es))
  {
    hide Inv, Abs, Run, EmitAll, ValidEvent, NeedMoreEvents;
    var m := EmitterSpec.Start(bestIndent, canonical);
    EmitsConforming(es, bestIndent, canonical, o);
    var r := EmitAll(m, es, o);
    if r.Ok? {
      var q := r.next;
      var n := |es| - |q.events|;
      EndIsAfter(q);
      assert es == es[..n] + es[n..];
      RunConcat(Before, es[..n], es[n..]);
      if q.events == [] {
        assert es[..n] == es;
      } else if Run(Before, es) == After {
        EmitWaits(m, es, o);
        if Abs(q) == After {
          NothingAfter(es[n..]);
        } else {
          NothingWaits(Abs(q), es[n..]);
        }
      }
    }
  }

  lemma EmitWaits(m: M, es: seq<Event>, o: nat -> Choice)
    requires EmitAll(m, es, o).Ok? && m.events == []
    ensures NeedMoreEvents(EmitAll(m, es, o).next.events)
  {
    EmitAllHandles(m, es, o);
    hide EmitAll;
  }
}
