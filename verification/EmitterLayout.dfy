/** Where the emitter puts the nodes of a tree: after every event the state, the indentation and the
    flow level are those that the tree prescribes, and a node leaves the emitter as it found it. */
module EmitterLayout {
  import opened Utf8
  import opened EventGrammar
  import opened EmitterSpec
  import opened EmitterSoundness
  import opened EmitterRuns
  import P = ParserSpec
  import R = ResolvedTags

  // ---- What the tree prescribes ----

  /** What stays the same in a document. */
  datatype Setting = Setting(best: int, canonical: bool, directives: seq<TagDirective>, o: nat -> Choice)

  /** Where a node stands: the indentation around it, and the flow collections around it. */
  datatype Place = Place(indent: int, flow: int)

  /** The emitter after an event. */
  datatype Spot = Spot(state: EmitterState, place: Place)

  predicate IsEmpty(n: Node) {
    match n
    case Leaf(_) => false
    case Sequence(_, items) => items == []
    case Mapping(_, pairs) => pairs == []
  }

  /** A collection is written in flow style inside another, in canonical output, if it is asked for,
      and if the collection is empty. */
  predicate InFlowStyle(n: Node, at: Place, s: Setting)
    requires WellFormed(n) && !n.Leaf?
  {
    at.flow > 0 || s.canonical || n.start.layout == Flow || IsEmpty(n)
  }

  /** Inside of a collection. A sequence in a block mapping need not be indented. */
  function Inner(at: Place, flow: bool, indentless: bool, s: Setting): Place {
    if flow then Place(if at.indent < 0 then s.best else at.indent + s.best, at.flow + 1)
    else Place(if at.indent < 0 then 0 else if indentless then at.indent else at.indent + s.best, at.flow)
  }

  predicate FirstPrefix(ds: seq<TagDirective>, i: nat, tag: Text) {
    i < |ds| && ds[i].prefix <= tag && forall j | 0 <= j < i :: !(ds[j].prefix <= tag)
  }

  /** The octets of a tag's handle and suffix. */
  ghost function TagOctets(ds: seq<TagDirective>, tag: Text): int {
    if exists i: nat :: FirstPrefix(ds, i, tag) then
      var i: nat :| FirstPrefix(ds, i, tag);
      |ds[i].handle| + |tag| - |ds[i].prefix|
    else |tag|
  }

  /** The octets of an anchor and a tag, if that has to be written. */
  ghost function PropertyOctets(s: Setting, anchor: Text, tag: Text, implicit: bool): int {
    |anchor| + if tag != [] && (s.canonical || !implicit) then TagOctets(s.directives, tag) else 0
  }

  /** A key that goes on one line: an alias, a scalar or an empty collection, and of at most 128
      octets. `k` is the number of its first event. */
  ghost predicate Simple(key: Node, at: Place, s: Setting, k: nat)
    requires WellFormed(key)
  {
    && (at.flow > 0 ==> !s.canonical)
    && match key
       case Leaf(Alias(anchor)) => |anchor| <= 128
       case Leaf(Scalar(anchor, tag, value, implicit, quoted, _)) =>
         !s.o(k).multiline && PropertyOctets(s, anchor, tag, implicit || quoted) + |value| <= 128
       case Sequence(e, items) => items == [] && PropertyOctets(s, e.anchor, e.tag, e.implicit) <= 128
       case Mapping(e, pairs) => pairs == [] && PropertyOctets(s, e.anchor, e.tag, e.implicit) <= 128
       case _ => false
  }

  /** The emitter after each event of a node, whose first event has the number `k`; `next` is the state
      that waits for what comes after the node. */
  ghost function Spots(n: Node, next: EmitterState, at: Place, inMapping: bool, s: Setting, k: nat): seq<Spot>
    requires WellFormed(n)
    decreases n, 0
  {
    match n
    case Leaf(_) => [Spot(next, at)]
    case Sequence(_, items) =>
      var flow := InFlowStyle(n, at, s);
      var inner := Inner(at, flow, inMapping && !s.o(k + 1).indention, s);
      [Spot(if flow then FlowSequenceFirstItemState else BlockSequenceFirstItemState, at)]
      + ItemSpots(items, if flow then FlowSequenceItemState else BlockSequenceItemState, inner, s, k + 1)
      + [Spot(next, at)]
    case Mapping(_, pairs) =>
      var flow := InFlowStyle(n, at, s);
      [Spot(if flow then FlowMappingFirstKeyState else BlockMappingFirstKeyState, at)]
      + PairSpots(pairs, flow, Inner(at, flow, false, s), s, k + 1)
      + [Spot(next, at)]
  }

  ghost function ItemSpots(items: seq<Node>, next: EmitterState, at: Place, s: Setting, k: nat): seq<Spot>
    requires forall i | 0 <= i < |items| :: WellFormed(items[i])
    decreases items, 0
  {
    if items == [] then []
    else Spots(items[0], next, at, false, s, k) + ItemSpots(items[1..], next, at, s, k + |Flatten(items[0])|)
  }

  ghost function PairSpots(pairs: seq<Pair>, flow: bool, at: Place, s: Setting, k: nat): seq<Spot>
    requires forall i | 0 <= i < |pairs| :: WellFormed(pairs[i].key) && WellFormed(pairs[i].value)
    decreases pairs, 1
  {
    if pairs == [] then []
    else PairSpot(pairs[0], flow, at, s, k) + PairSpots(pairs[1..], flow, at, s, k + |FlattenPair(pairs[0])|)
  }

  ghost function PairSpot(p: Pair, flow: bool, at: Place, s: Setting, k: nat): seq<Spot>
    requires WellFormed(p.key) && WellFormed(p.value)
    decreases p, 0
  {
    var simple := Simple(p.key, at, s, k);
    Spots(p.key, if flow then if simple then FlowMappingSimpleValueState else FlowMappingValueState
                 else if simple then BlockMappingSimpleValueState else BlockMappingValueState, at, true, s, k)
    + Spots(p.value, if flow then FlowMappingKeyState else BlockMappingKeyState, at, true, s, k + |Flatten(p.key)|)
  }

  // ---- Runs with what they go through ----

  function Onward(m: M, r: M): M
    requires m.events != []
  {
    r.(events := m.events[1..], handled := m.handled + 1)
  }

  function Here(m: M): Spot {
    Spot(m.state, Place(m.indent, m.flowLevel))
  }

  /** Handling events takes the emitter through the spots to `q`. */
  ghost predicate Traces(m: M, o: nat -> Choice, spots: seq<Spot>, q: M)
    decreases |spots|
  {
    if spots == [] then m == q
    else
      && m.events != []
      && EmitterSpec.Step(m, o(m.handled)).Ok?
      && var r := Onward(m, EmitterSpec.Step(m, o(m.handled)).next);
         Here(r) == spots[0] && Traces(r, o, spots[1..], q)
  }

  lemma {:induction false} TracesThen(m: M, o: nat -> Choice, a: seq<Spot>, q: M, b: seq<Spot>, r: M)
    requires Traces(m, o, a, q) && Traces(q, o, b, r)
    ensures Traces(m, o, a + b, r)
    decreases |a|
  {
    hide EmitterSpec.Step;
    if a == [] {
      assert a + b == b;
    } else {
      assert (a + b)[1..] == a[1..] + b;
      TracesThen(Onward(m, EmitterSpec.Step(m, o(m.handled)).next), o, a[1..], q, b, r);
    }
  }

  lemma TracesOne(m: M, o: nat -> Choice, r: M)
    requires m.events != [] && EmitterSpec.Step(m, o(m.handled)) == Ok(r)
    ensures Traces(m, o, [Here(Onward(m, r))], Onward(m, r))
  {
    hide EmitterSpec.Step;
    assert [Here(Onward(m, r))][1..] == [];
  }

  // ---- The data of an event ----

  lemma {:induction false} TagDataOctets(ds: seq<TagDirective>, d: Data, tag: Text)
    requires d.handle == [] && d.suffix == []
    ensures var r := TagData(ds, d, tag); r.anchor == d.anchor && |r.handle| + |r.suffix| == TagOctets(ds, tag)
    decreases |ds|
  {
    if ds == [] {
    } else if ds[0].prefix <= tag {
      forall i: nat | FirstPrefix(ds, i, tag)
        ensures i == 0
      {
      }
      assert FirstPrefix(ds, 0, tag);
    } else {
      TagDataOctets(ds[1..], d, tag);
      forall i: nat
        ensures FirstPrefix(ds, i + 1, tag) <==> FirstPrefix(ds[1..], i, tag)
        ensures !FirstPrefix(ds, 0, tag)
      {
        assert forall j | 0 <= j < |ds| - 1 :: ds[1..][j] == ds[j + 1];
        assert forall j | 1 <= j < |ds| :: ds[j] == ds[1..][j - 1];
      }
      OctetsOfRest(ds, tag);
    }
  }

  lemma OctetsOfRest(ds: seq<TagDirective>, tag: Text)
    requires ds != [] && !FirstPrefix(ds, 0, tag)
    requires forall i: nat :: FirstPrefix(ds, i + 1, tag) <==> FirstPrefix(ds[1..], i, tag)
    ensures TagOctets(ds, tag) == TagOctets(ds[1..], tag)
  {
    if exists i: nat :: FirstPrefix(ds[1..], i, tag) {
      var i: nat :| FirstPrefix(ds[1..], i, tag);
      forall j: nat | FirstPrefix(ds[1..], j, tag)
        ensures j == i
      {
      }
      forall j: nat | FirstPrefix(ds, j, tag)
        ensures j == i + 1
      {
        assert FirstPrefix(ds, (j - 1) + 1, tag);
      }
      assert FirstPrefix(ds, i + 1, tag);
      assert ds[i + 1] == ds[1..][i];
    } else {
      forall j: nat
        ensures !FirstPrefix(ds, j, tag)
      {
        if j > 0 {
          assert FirstPrefix(ds, (j - 1) + 1, tag) <==> FirstPrefix(ds[1..], j - 1, tag);
        }
      }
    }
  }

  /** What the analysis finds for a collection or a scalar that is well formed. */
  lemma AnalyzedProperties(m: M, s: Setting, anchor: Text, tag: Text, implicit: bool)
    requires Suits(m, s) && (anchor == [] || ValidAnchor(anchor))
    ensures AnalyzeProperties(m, anchor, tag, implicit).Good?
    ensures var d := AnalyzeProperties(m, anchor, tag, implicit).data;
            |d.anchor| + |d.handle| + |d.suffix| == PropertyOctets(s, anchor, tag, implicit)
  {
    hide TagData, TagOctets, ValidAnchor;
    TagDataOctets(m.tagDirectives, AnalyzeAnchor(NO_DATA, anchor).data, tag);
  }

  // ---- Steps inside of collections ----

  ghost predicate Suits(m: M, s: Setting) {
    m.canonical == s.canonical && m.bestIndent == s.best && m.tagDirectives == s.directives && GoodDirectives(s.directives)
    && m.flowLevel >= 0
  }

  /** The next step hands the node to come to EmitNode, with the stacks as in `p`. */
  ghost predicate Passes(m: M, p: M, mapping: bool, o: nat -> Choice) {
    && m.events != [] && p.events == m.events && p.handled == m.handled && p.states != []
    && EmitterSpec.Step(m, o(m.handled))
       == match Analyze(p, m.events[0])
          case Bad => Fail
          case Good(d) => EmitNode(p, m.events[0], d, mapping)
  }

  /** The emitter once a node has been handled: the state that waited returns. */
  function Left(p: M, rest: seq<Event>, handled: nat, mapping: bool): M
    requires p.states != []
  {
    p.(state := p.states[|p.states| - 1], states := p.states[..|p.states| - 1], events := rest, handled := handled,
       mappingContext := mapping)
  }

  /** The same for a collection whose level is that of `e`. */
  function Closed(e: M, flow: bool, rest: seq<Event>, handled: nat, mapping: bool): M
    requires e.states != [] && e.indents != []
  {
    Left(e, rest, handled, mapping).(flowLevel := if flow then e.flowLevel - 1 else e.flowLevel,
      indent := e.indents[|e.indents| - 1], indents := e.indents[..|e.indents| - 1])
  }

  predicate ItemState(s: EmitterState) {
    s == FlowSequenceItemState || s == BlockSequenceItemState
  }

  predicate KeyState(s: EmitterState) {
    s == FlowMappingKeyState || s == BlockMappingKeyState
  }

  lemma ItemPasses(m: M, e: M, t: EmitterState, o: nat -> Choice)
    requires m.events != [] && !m.events[0].SequenceEnd? && Entry(m.state) == t && ItemState(t)
    requires e == Entered(m, m.mappingContext && !o(m.handled).indention)
    ensures Passes(m, Push(e, t), false, o)
  {
    hide EmitNode, Entered, Analyze;
    var x, c := m.events[0], o(m.handled);
    AnalyzeEntered(m, m.mappingContext && !c.indention, x);
    AnalyzePushed(e, t, x);
    EnteredQueue(m, m.mappingContext && !c.indention);
    hide Dispatch, Entry;
    match Analyze(m, x)
    case Bad =>
    case Good(d) => SequenceItemDispatched(m, x, d, c);
  }

  lemma EnteredQueue(m: M, indentless: bool)
    ensures var e := Entered(m, indentless);
            e.events == m.events && e.handled == m.handled && e.canonical == m.canonical
  {
  }

  lemma SequenceEnds(m: M, e: M, t: EmitterState, o: nat -> Choice)
    requires m.events != [] && m.events[0].SequenceEnd? && Entry(m.state) == t && ItemState(t)
    requires e == Entered(m, m.mappingContext && !o(m.handled).indention) && e.states != [] && e.indents != []
    ensures EmitterSpec.Step(m, o(m.handled)) == EndCollection(Lowered(e, t))
    ensures EndCollection(Lowered(e, t)) == Ok(Closed(e, InFlow(t), e.events, e.handled, e.mappingContext))
  {
    hide EmitNode, Entered;
    SequenceItemDispatched(m, m.events[0], NO_DATA, o(m.handled));
    hide Dispatch;
  }

  lemma MappingDispatched(m: M, x: Event, d: Data, c: Choice)
    requires m.events != [] && KeyState(Entry(m.state))
    ensures var t, n := Entry(m.state), Entered(m, false);
            Dispatch(m, x, d, c) ==
            if x.MappingEnd? then EndCollection(Lowered(n, t))
            else EmitNode(Push(n, AfterKey(t, (InFlow(t) ==> !n.canonical) && SimpleKey(n, d, c))), x, d, true)
  {
    hide EmitNode, EndCollection, IncreaseIndent, SimpleKey;
    IncreasedCanonical(m);
  }

  lemma IncreasedCanonical(m: M)
    ensures IncreaseIndent(m, true, false).canonical == m.canonical
  {
  }

  lemma KeyPasses(m: M, e: M, t: EmitterState, d: Data, o: nat -> Choice)
    requires m.events != [] && !m.events[0].MappingEnd? && Entry(m.state) == t && KeyState(t) && e == Entered(m, false)
    requires Analyze(e, m.events[0]) == Good(d)
    ensures Passes(m, Push(e, AfterKey(t, (InFlow(t) ==> !e.canonical) && SimpleKey(e, d, o(m.handled)))), true, o)
  {
    hide EmitNode, Entered, Analyze;
    var x, c := m.events[0], o(m.handled);
    AnalyzeEntered(m, false, x);
    AnalyzePushed(e, AfterKey(t, (InFlow(t) ==> !e.canonical) && SimpleKey(e, d, c)), x);
    EnteredQueue(m, false);
    MappingDispatched(m, x, d, c);
    hide Dispatch, Entry, SimpleKey;
  }

  lemma MappingEnds(m: M, e: M, t: EmitterState, o: nat -> Choice)
    requires m.events != [] && m.events[0].MappingEnd? && Entry(m.state) == t && KeyState(t)
    requires e == Entered(m, false) && e.states != [] && e.indents != []
    ensures EmitterSpec.Step(m, o(m.handled)) == EndCollection(Lowered(e, t))
    ensures EndCollection(Lowered(e, t)) == Ok(Closed(e, InFlow(t), e.events, e.handled, e.mappingContext))
  {
    hide EmitNode, Entered;
    MappingDispatched(m, m.events[0], NO_DATA, o(m.handled));
    hide Dispatch;
  }

  lemma ValuePasses(m: M, flow: bool, simple: bool, o: nat -> Choice)
    requires m.events != [] && m.state == AfterKey(KeyStateOf(flow), simple)
    ensures Passes(m, Push(m, KeyStateOf(flow)), true, o)
  {
    hide EmitNode, Analyze;
    AnalyzePushed(m, KeyStateOf(flow), m.events[0]);
  }

  // ---- Nodes ----

  lemma FlattenFirst(n: Node)
    requires WellFormed(n)
    ensures Flatten(n) != [] && StartsNode(Flatten(n)[0])
    ensures Flatten(n)[0] == match n case Leaf(e) => e case Sequence(e, _) => e case Mapping(e, _) => e
  {
  }

  lemma ItemsFirst(items: seq<Node>, rest: seq<Event>)
    requires forall i | 0 <= i < |items| :: WellFormed(items[i])
    ensures (FlattenItems(items) + ([SequenceEnd] + rest))[0].SequenceEnd? <==> items == []
  {
    hide Flatten;
    if items != [] {
      FlattenFirst(items[0]);
    }
  }

  lemma PairsFirst(pairs: seq<Pair>, rest: seq<Event>)
    requires forall i | 0 <= i < |pairs| :: WellFormed(pairs[i].key) && WellFormed(pairs[i].value)
    ensures (FlattenPairs(pairs) + ([MappingEnd] + rest))[0].MappingEnd? <==> pairs == []
  {
    hide Flatten;
    if pairs != [] {
      FlattenFirst(pairs[0].key);
    }
  }

  /** The empty-collection tests find empty collections. */
  lemma EmptyFound(n: Node, m: M, rest: seq<Event>)
    requires WellFormed(n) && m.events == Flatten(n) + rest
    ensures EmptySequence(m) <==> n.Sequence? && n.items == []
    ensures EmptyMapping(m) <==> n.Mapping? && n.pairs == []
  {
    hide FlattenItems, FlattenPairs;
    match n
    case Leaf(e) =>
    case Sequence(e, items) =>
      ItemsFirst(items, rest);
      assert m.events == [e] + (FlattenItems(items) + ([SequenceEnd] + rest));
      assert m.events[1] == (FlattenItems(items) + ([SequenceEnd] + rest))[0];
    case Mapping(e, pairs) =>
      PairsFirst(pairs, rest);
      assert m.events == [e] + (FlattenPairs(pairs) + ([MappingEnd] + rest));
      assert m.events[1] == (FlattenPairs(pairs) + ([MappingEnd] + rest))[0];
  }

  /** The test for simple keys finds simple keys. */
  lemma SimpleFound(n: Node, e: M, s: Setting, d: Data, rest: seq<Event>)
    requires WellFormed(n) && e.events == Flatten(n) + rest && Suits(e, s) && ValidEvent(e.events[0])
    requires Analyze(e, e.events[0]) == Good(d)
    ensures var at := Place(e.indent, e.flowLevel);
            Simple(n, at, s, e.handled) <==> (at.flow > 0 ==> !e.canonical) && SimpleKey(e, d, s.o(e.handled))
  {
    EmptyFound(n, e, rest);
    FlattenFirst(n);
    hide Flatten, AnalyzeProperties, PropertyOctets, EmptySequence, EmptyMapping, ValidAnchor;
    match e.events[0]
    case Scalar(anchor, tag, _, implicit, quoted, _) => AnalyzedProperties(e, s, anchor, tag, implicit || quoted);
    case SequenceStart(anchor, tag, implicit, _) => AnalyzedProperties(e, s, anchor, tag, implicit);
    case MappingStart(anchor, tag, implicit, _) => AnalyzedProperties(e, s, anchor, tag, implicit);
    case _ =>
  }

  lemma ValidParts(a: seq<Event>, b: seq<Event>)
    ensures AllValid(a + b) <==> AllValid(a) && AllValid(b)
  {
    hide ValidEvent;
    var c := a + b;
    assert forall i | 0 <= i < |a| :: c[i] == a[i];
    assert forall i | 0 <= i < |b| :: c[|a| + i] == b[i];
  }

  function SequenceFirst(flow: bool): EmitterState {
    if flow then FlowSequenceFirstItemState else BlockSequenceFirstItemState
  }

  function MappingFirst(flow: bool): EmitterState {
    if flow then FlowMappingFirstKeyState else BlockMappingFirstKeyState
  }

  function ItemStateOf(flow: bool): EmitterState {
    if flow then FlowSequenceItemState else BlockSequenceItemState
  }

  /** The emitter in the state that a collection's start event leads to. */
  function Begun(p: M, first: EmitterState, mapping: bool): M
    requires p.events != []
  {
    p.(state := first, mappingContext := mapping, events := p.events[1..], handled := p.handled + 1)
  }

  ghost predicate Due(n: Node, m: M, p: M, mapping: bool, s: Setting, rest: seq<Event>) {
    && WellFormed(n) && AllValid(Flatten(n)) && Suits(p, s)
    && m.events == Flatten(n) + rest && Passes(m, p, mapping, s.o)
  }

  lemma LeafLaid(n: Node, m: M, p: M, mapping: bool, s: Setting, rest: seq<Event>) returns (q: M)
    requires Due(n, m, p, mapping, s, rest) && n.Leaf?
    ensures q == Left(p, rest, m.handled + 1, mapping) && q.handled == m.handled + 1 && q.events == rest && |Flatten(n)| == 1
    ensures Traces(m, s.o, [Spot(p.states[|p.states| - 1], Place(p.indent, p.flowLevel))], q)
  {
    var e := m.events[0];
    assert m.events == [e] + rest && m.events[1..] == rest && n.event == e;
    assert ValidEvent(Flatten(n)[0]);
    q := Left(p, rest, m.handled + 1, mapping);
    LeafHandled(p, s, e, mapping);
    hide EmitNode, EmitterSpec.Step, Analyze, PopState, Flatten, ValidEvent;
    TracesOne(m, s.o, PopState(p.(mappingContext := mapping)).next);
    LeftPopped(p, rest, mapping);
  }

  lemma LeftPopped(p: M, rest: seq<Event>, mapping: bool)
    requires p.states != [] && p.events != [] && p.events[1..] == rest
    ensures PopState(p.(mappingContext := mapping)).Ok?
    ensures Onward(p, PopState(p.(mappingContext := mapping)).next) == Left(p, rest, p.handled + 1, mapping)
  {
  }

  lemma LeafHandled(p: M, s: Setting, e: Event, mapping: bool)
    requires Suits(p, s) && ValidEvent(e) && (e.Alias? || e.Scalar?) && p.states != []
    ensures Analyze(p, e).Good?
    ensures EmitNode(p, e, Analyze(p, e).data, mapping) == PopState(p.(mappingContext := mapping))
  {
    Analyzed(p, e);
    hide Analyze, ValidAnchor;
    var m := p.(mappingContext := mapping);
    var n := IncreaseIndent(m, true, false);
    assert n.indents[..|n.indents| - 1] == m.indents;
  }

  /** The start of a collection. */
  lemma StartHandled(n: Node, m: M, p: M, mapping: bool, s: Setting, rest: seq<Event>)
    requires Due(n, m, p, mapping, s, rest) && !n.Leaf?
    ensures var flow := InFlowStyle(n, Place(p.indent, p.flowLevel), s);
            var first := if n.Sequence? then SequenceFirst(flow) else MappingFirst(flow);
            Traces(m, s.o, [Spot(first, Place(p.indent, p.flowLevel))], Begun(p, first, mapping))
  {
    var e := m.events[0];
    FlattenFirst(n);
    assert ValidEvent(Flatten(n)[0]);
    Analyzed(p, e);
    EmptyFound(n, p.(mappingContext := mapping), rest);
    hide EmitterSpec.Step, Analyze, Flatten, EmptySequence, EmptyMapping, ValidEvent;
    TracesOne(m, s.o, EmitNode(p, e, Analyze(p, e).data, mapping).next);
  }

  lemma {:induction false} NodeLaid(n: Node, m: M, p: M, mapping: bool, s: Setting, rest: seq<Event>) returns (q: M)
    requires Due(n, m, p, mapping, s, rest)
    ensures q == Left(p, rest, m.handled + |Flatten(n)|, q.mappingContext)
    ensures q.handled == m.handled + |Flatten(n)| && q.events == rest
    ensures Traces(m, s.o, Spots(n, p.states[|p.states| - 1], Place(p.indent, p.flowLevel), mapping, s, m.handled), q)
    decreases n, 1
  {
    match n
    case Leaf(_) => q := LeafLaid(n, m, p, mapping, s, rest);
    case Sequence(_, _) => q := SequenceLaid(n, m, p, mapping, s, rest);
    case Mapping(_, _) => q := MappingLaid(n, m, p, mapping, s, rest);
  }

  lemma SpotsOfSequence(n: Node, next: EmitterState, at: Place, inMapping: bool, s: Setting, k: nat)
    requires WellFormed(n) && n.Sequence?
    ensures var flow := InFlowStyle(n, at, s);
            Spots(n, next, at, inMapping, s, k) ==
            [Spot(SequenceFirst(flow), at)]
            + (ItemSpots(n.items, ItemStateOf(flow), Inner(at, flow, inMapping && !s.o(k + 1).indention, s), s, k + 1) + [Spot(next, at)])
  {
    hide InFlowStyle, Inner, ItemSpots;
  }

  lemma SpotsOfMapping(n: Node, next: EmitterState, at: Place, inMapping: bool, s: Setting, k: nat)
    requires WellFormed(n) && n.Mapping?
    ensures var flow := InFlowStyle(n, at, s);
            Spots(n, next, at, inMapping, s, k) ==
            [Spot(MappingFirst(flow), at)]
            + (PairSpots(n.pairs, flow, Inner(at, flow, false, s), s, k + 1) + [Spot(next, at)])
  {
    hide InFlowStyle, Inner, PairSpots;
  }

  lemma ItemSpotsFirst(items: seq<Node>, t: EmitterState, at: Place, s: Setting, k: nat, last: Spot)
    requires items != [] && forall i | 0 <= i < |items| :: WellFormed(items[i])
    ensures ItemSpots(items, t, at, s, k) + [last]
         == Spots(items[0], t, at, false, s, k) + (ItemSpots(items[1..], t, at, s, k + |Flatten(items[0])|) + [last])
  {
    hide Spots, Flatten;
  }

  lemma PairSpotsFirst(pairs: seq<Pair>, flow: bool, at: Place, s: Setting, k: nat, last: Spot)
    requires pairs != [] && forall i | 0 <= i < |pairs| :: WellFormed(pairs[i].key) && WellFormed(pairs[i].value)
    ensures PairSpots(pairs, flow, at, s, k) + [last]
         == PairSpot(pairs[0], flow, at, s, k) + (PairSpots(pairs[1..], flow, at, s, k + |FlattenPair(pairs[0])|) + [last])
  {
    hide PairSpot, FlattenPair;
  }

  lemma SequenceParts(n: Node, m: M, p: M, mapping: bool, s: Setting, rest: seq<Event>)
    requires Due(n, m, p, mapping, s, rest) && n.Sequence?
    ensures m.events[1..] == FlattenItems(n.items) + ([SequenceEnd] + rest) && |Flatten(n)| == |FlattenItems(n.items)| + 2
    ensures p.events == m.events && m.events != [] && p.handled == m.handled && AllValid(FlattenItems(n.items)) && p.states != []
    ensures WellFormed(n) && (!InFlowStyle(n, Place(p.indent, p.flowLevel), s) ==> p.flowLevel == 0)
    ensures Suits(p, s) && forall i | 0 <= i < |n.items| :: WellFormed(n.items[i])
  {
    ValidParts([n.start] + FlattenItems(n.items), [SequenceEnd]);
    ValidParts([n.start], FlattenItems(n.items));
    assert m.events == [n.start] + (FlattenItems(n.items) + ([SequenceEnd] + rest));
    hide Flatten, FlattenItems, ValidEvent;
  }

  lemma {:induction false} SequenceLaid(n: Node, m: M, p: M, mapping: bool, s: Setting, rest: seq<Event>) returns (q: M)
    requires Due(n, m, p, mapping, s, rest) && n.Sequence?
    ensures q == Left(p, rest, m.handled + |Flatten(n)|, q.mappingContext)
    ensures q.handled == m.handled + |Flatten(n)| && q.events == rest
    ensures Traces(m, s.o, Spots(n, p.states[|p.states| - 1], Place(p.indent, p.flowLevel), mapping, s, m.handled), q)
    decreases n, 0
  {
    hide *;
    SequenceParts(n, m, p, mapping, s, rest);
    StartHandled(n, m, p, mapping, s, rest);
    var at := Place(p.indent, p.flowLevel);
    var flow := InFlowStyle(n, at, s);
    var m1 := Begun(p, SequenceFirst(flow), mapping);
    var indentless := mapping && !s.o(m.handled + 1).indention;
    var e := Entered(m1, indentless);
    BegunSequence(p, flow, mapping);
    EnteredPlace(p, SequenceFirst(flow), mapping, flow, indentless, s);
    SpotsOfSequence(n, p.states[|p.states| - 1], at, mapping, s, m.handled);
    q := ItemsLaid(n.items, m1, e, ItemStateOf(flow), s, rest);
    ClosedLeft(p, SequenceFirst(flow), mapping, flow, indentless, rest, q.handled, q.mappingContext, q);
    TracesThen(m, s.o, [Spot(SequenceFirst(flow), at)], m1,
               ItemSpots(n.items, ItemStateOf(flow), Place(e.indent, e.flowLevel), s, m.handled + 1) + [Here(q)], q);
  }

  lemma BegunSequence(p: M, flow: bool, mapping: bool)
    requires p.events != []
    ensures var m := Begun(p, SequenceFirst(flow), mapping);
            && m.mappingContext == mapping && m.handled == p.handled + 1 && m.events == p.events[1..]
            && Entry(m.state) == ItemStateOf(flow) && ItemState(ItemStateOf(flow)) && InFlow(ItemStateOf(flow)) == flow
  {
  }

  lemma BegunMapping(p: M, flow: bool, mapping: bool)
    requires p.events != []
    ensures var m := Begun(p, MappingFirst(flow), mapping);
            m.handled == p.handled + 1 && m.events == p.events[1..] && Entry(m.state) == KeyStateOf(flow)
  {
  }

  lemma EnteredPlace(p: M, first: EmitterState, mapping: bool, flow: bool, indentless: bool, s: Setting)
    requires p.events != [] && Suits(p, s) && p.states != []
    requires first == SequenceFirst(flow) || first == MappingFirst(flow)
    ensures var e := Entered(Begun(p, first, mapping), indentless);
            && Place(e.indent, e.flowLevel) == Inner(Place(p.indent, p.flowLevel), flow, indentless, s)
            && Suits(e, s) && e.states == p.states && e.indents != [] && (flow ==> e.flowLevel > 0) && (!flow ==> e.flowLevel == p.flowLevel)
            && e.events == p.events[1..] && e.handled == p.handled + 1
  {
  }

  lemma ClosedLeft(p: M, first: EmitterState, mapping: bool, flow: bool, indentless: bool, rest: seq<Event>, handled: nat, later: bool, q: M)
    requires p.events != [] && p.states != []
    requires first == SequenceFirst(flow) || first == MappingFirst(flow)
    ensures var e := Entered(Begun(p, first, mapping), indentless);
            && e.states != [] && e.indents != [] && Closed(e, flow, rest, handled, later) == Left(p, rest, handled, later)
            && (q == Left(p, rest, handled, later) ==> Here(q) == Spot(p.states[|p.states| - 1], Place(p.indent, p.flowLevel)))
  {
    var e := Entered(Begun(p, first, mapping), indentless);
    assert e.indents[..|e.indents| - 1] == p.indents;
  }

  /** The items of a sequence and its end. */
  lemma {:induction false} ItemsLaid(items: seq<Node>, m: M, e: M, t: EmitterState, s: Setting, rest: seq<Event>) returns (q: M)
    requires forall i | 0 <= i < |items| :: WellFormed(items[i])
    requires AllValid(FlattenItems(items)) && Suits(e, s) && e.states != [] && e.indents != []
    requires m.events == FlattenItems(items) + ([SequenceEnd] + rest)
    requires Entry(m.state) == t && ItemState(t) && e == Entered(m, m.mappingContext && !s.o(m.handled).indention)
    ensures q == Closed(e, InFlow(t), rest, m.handled + |FlattenItems(items)| + 1, q.mappingContext)
    ensures q.handled == m.handled + |FlattenItems(items)| + 1 && q.events == rest
    ensures Traces(m, s.o,
                   ItemSpots(items, t, Place(e.indent, e.flowLevel), s, m.handled) + [Here(q)], q)
    decreases items, 2
  {
    hide *;
    EnteredQueue(m, m.mappingContext && !s.o(m.handled).indention);
    ItemsFirst(items, rest);
    if items == [] {
      q := ItemsEnd(m, e, t, s, rest);
      NoItemSpots(t, Place(e.indent, e.flowLevel), s, m.handled, Here(q));
    } else {
      ItemParts(items, m, rest);
      var at := Place(e.indent, e.flowLevel);
      var later := FlattenItems(items[1..]) + ([SequenceEnd] + rest);
      ItemPasses(m, e, t, s.o);
      var p := Push(e, t);
      PushSuits(e, t, s);
      ItemDue(items[0], m, p, s, later);
      var q1 := NodeLaid(items[0], m, p, false, s, later);
      LeftPushed(e, t, later, q1.handled, q1.mappingContext);
      EnteredItem(q1, t);
      LaterSuits(e, q1, t, later, s);
      q := ItemsLaid(items[1..], q1, q1, t, s, rest);
      ClosedLater(e, q1, t, later, InFlow(t), rest, q.handled, q.mappingContext);
      ItemSpotsFirst(items, t, at, s, m.handled, Here(q));
      TracesThen(m, s.o, Spots(items[0], t, at, false, s, m.handled), q1,
                 ItemSpots(items[1..], t, at, s, q1.handled) + [Here(q)], q);
    }
  }

  lemma ItemsEnd(m: M, e: M, t: EmitterState, s: Setting, rest: seq<Event>) returns (q: M)
    requires m.events == FlattenItems([]) + ([SequenceEnd] + rest) && e.states != [] && e.indents != []
    requires Entry(m.state) == t && ItemState(t) && e == Entered(m, m.mappingContext && !s.o(m.handled).indention)
    ensures q == Closed(e, InFlow(t), rest, m.handled + 1, q.mappingContext) && q.handled == m.handled + 1 && q.events == rest && |FlattenItems([])| == 0
    ensures Traces(m, s.o, [Here(q)], q)
  {
    assert m.events == [SequenceEnd] + rest && m.events[1..] == rest;
    EnteredQueue(m, m.mappingContext && !s.o(m.handled).indention);
    SequenceEnds(m, e, t, s.o);
    q := Closed(e, InFlow(t), rest, m.handled + 1, e.mappingContext);
    hide EmitterSpec.Step, Entered, EndCollection;
    TracesOne(m, s.o, EndCollection(Lowered(e, t)).next);
  }

  lemma NoItemSpots(t: EmitterState, at: Place, s: Setting, k: nat, last: Spot)
    ensures ItemSpots([], t, at, s, k) + [last] == [last]
  {
  }

  lemma PairsEnd(m: M, e: M, flow: bool, s: Setting, rest: seq<Event>) returns (q: M)
    requires m.events == FlattenPairs([]) + ([MappingEnd] + rest) && e.states != [] && e.indents != []
    requires Entry(m.state) == KeyStateOf(flow) && e == Entered(m, false)
    ensures q == Closed(e, flow, rest, m.handled + 1, q.mappingContext) && q.handled == m.handled + 1 && q.events == rest && |FlattenPairs([])| == 0
    ensures Traces(m, s.o, [Here(q)], q)
  {
    var t := KeyStateOf(flow);
    assert m.events == [MappingEnd] + rest && m.events[1..] == rest;
    EnteredQueue(m, false);
    MappingEnds(m, e, t, s.o);
    q := Closed(e, flow, rest, m.handled + 1, e.mappingContext);
    hide EmitterSpec.Step, Entered, EndCollection;
    TracesOne(m, s.o, EndCollection(Lowered(e, t)).next);
  }

  lemma NoPairSpots(flow: bool, at: Place, s: Setting, k: nat, last: Spot)
    ensures PairSpots([], flow, at, s, k) + [last] == [last]
  {
  }

  lemma ItemParts(items: seq<Node>, m: M, rest: seq<Event>)
    requires items != [] && m.events == FlattenItems(items) + ([SequenceEnd] + rest) && AllValid(FlattenItems(items))
    ensures m.events == Flatten(items[0]) + (FlattenItems(items[1..]) + ([SequenceEnd] + rest))
    ensures AllValid(Flatten(items[0])) && AllValid(FlattenItems(items[1..]))
    ensures |FlattenItems(items)| == |Flatten(items[0])| + |FlattenItems(items[1..])|
  {
    ValidParts(Flatten(items[0]), FlattenItems(items[1..]));
    hide Flatten, ValidEvent;
  }

  lemma ItemDue(n: Node, m: M, p: M, s: Setting, later: seq<Event>)
    requires WellFormed(n) && AllValid(Flatten(n)) && Suits(p, s) && m.events == Flatten(n) + later && Passes(m, p, false, s.o)
    ensures Due(n, m, p, false, s, later) && p.states != []
  {
    hide Flatten, AllValid, Suits;
  }

  lemma PushSuits(e: M, t: EmitterState, s: Setting)
    requires Suits(e, s)
    ensures var p := Push(e, t); Suits(p, s) && p.indent == e.indent && p.flowLevel == e.flowLevel && p.handled == e.handled
  {
  }

  /** The emitter after a node inside of a collection. */
  lemma LaterSuits(e: M, q: M, t: EmitterState, later: seq<Event>, s: Setting)
    requires Suits(e, s) && q == e.(state := t, events := later, handled := q.handled, mappingContext := q.mappingContext)
    ensures Suits(q, s) && q.indent == e.indent && q.flowLevel == e.flowLevel && q.states == e.states && q.indents == e.indents
    ensures q.state == t && q.events == later
  {
  }

  lemma ClosedLater(e: M, q: M, t: EmitterState, later: seq<Event>, flow: bool, rest: seq<Event>, handled: nat, mapping: bool)
    requires e.states != [] && e.indents != []
    requires q == e.(state := t, events := later, handled := q.handled, mappingContext := q.mappingContext)
    ensures Closed(q, flow, rest, handled, mapping) == Closed(e, flow, rest, handled, mapping)
  {
  }

  lemma LeftPushed(e: M, t: EmitterState, rest: seq<Event>, handled: nat, mapping: bool)
    ensures Left(Push(e, t), rest, handled, mapping)
         == e.(state := t, events := rest, handled := handled, mappingContext := mapping)
    ensures Push(e, t).states[|Push(e, t).states| - 1] == t
  {
    assert (e.states + [t])[..|e.states|] == e.states;
  }

  lemma EnteredItem(m: M, t: EmitterState)
    requires m.state == t && (ItemState(t) || KeyState(t))
    ensures Entry(m.state) == t && forall indentless :: Entered(m, indentless) == m
  {
  }

  lemma MappingParts(n: Node, m: M, p: M, mapping: bool, s: Setting, rest: seq<Event>)
    requires Due(n, m, p, mapping, s, rest) && n.Mapping?
    ensures m.events[1..] == FlattenPairs(n.pairs) + ([MappingEnd] + rest) && |Flatten(n)| == |FlattenPairs(n.pairs)| + 2
    ensures p.events == m.events && m.events != [] && p.handled == m.handled && AllValid(FlattenPairs(n.pairs)) && p.states != []
    ensures WellFormed(n) && (!InFlowStyle(n, Place(p.indent, p.flowLevel), s) ==> p.flowLevel == 0)
    ensures Suits(p, s) && forall i | 0 <= i < |n.pairs| :: WellFormed(n.pairs[i].key) && WellFormed(n.pairs[i].value)
  {
    ValidParts([n.start] + FlattenPairs(n.pairs), [MappingEnd]);
    ValidParts([n.start], FlattenPairs(n.pairs));
    assert m.events == [n.start] + (FlattenPairs(n.pairs) + ([MappingEnd] + rest));
    hide Flatten, FlattenPairs, ValidEvent;
  }

  lemma {:induction false} MappingLaid(n: Node, m: M, p: M, mapping: bool, s: Setting, rest: seq<Event>) returns (q: M)
    requires Due(n, m, p, mapping, s, rest) && n.Mapping?
    ensures q == Left(p, rest, m.handled + |Flatten(n)|, q.mappingContext)
    ensures q.handled == m.handled + |Flatten(n)| && q.events == rest
    ensures Traces(m, s.o, Spots(n, p.states[|p.states| - 1], Place(p.indent, p.flowLevel), mapping, s, m.handled), q)
    decreases n, 0
  {
    hide *;
    MappingParts(n, m, p, mapping, s, rest);
    StartHandled(n, m, p, mapping, s, rest);
    var at := Place(p.indent, p.flowLevel);
    var flow := InFlowStyle(n, at, s);
    var m1 := Begun(p, MappingFirst(flow), mapping);
    var e := Entered(m1, false);
    BegunMapping(p, flow, mapping);
    EnteredPlace(p, MappingFirst(flow), mapping, flow, false, s);
    SpotsOfMapping(n, p.states[|p.states| - 1], at, mapping, s, m.handled);
    q := PairsLaid(n.pairs, m1, e, flow, s, rest);
    ClosedLeft(p, MappingFirst(flow), mapping, flow, false, rest, q.handled, q.mappingContext, q);
    TracesThen(m, s.o, [Spot(MappingFirst(flow), at)], m1,
               PairSpots(n.pairs, flow, Place(e.indent, e.flowLevel), s, m.handled + 1) + [Here(q)], q);
  }

  function KeyStateOf(flow: bool): EmitterState {
    if flow then FlowMappingKeyState else BlockMappingKeyState
  }

  /** The pairs of a mapping and its end. */
  lemma {:induction false} PairsLaid(pairs: seq<Pair>, m: M, e: M, flow: bool, s: Setting, rest: seq<Event>) returns (q: M)
    requires forall i | 0 <= i < |pairs| :: WellFormed(pairs[i].key) && WellFormed(pairs[i].value)
    requires AllValid(FlattenPairs(pairs)) && Suits(e, s) && e.states != [] && e.indents != [] && (flow <==> e.flowLevel > 0)
    requires m.events == FlattenPairs(pairs) + ([MappingEnd] + rest)
    requires Entry(m.state) == KeyStateOf(flow) && e == Entered(m, false)
    ensures q == Closed(e, flow, rest, m.handled + |FlattenPairs(pairs)| + 1, q.mappingContext)
    ensures q.handled == m.handled + |FlattenPairs(pairs)| + 1 && q.events == rest
    ensures Traces(m, s.o, PairSpots(pairs, flow, Place(e.indent, e.flowLevel), s, m.handled) + [Here(q)], q)
    decreases pairs, 2
  {
    hide *;
    var t := KeyStateOf(flow);
    StateOfKeys(flow);
    EnteredQueue(m, false);
    PairsFirst(pairs, rest);
    if pairs == [] {
      q := PairsEnd(m, e, flow, s, rest);
      NoPairSpots(flow, Place(e.indent, e.flowLevel), s, m.handled, Here(q));
    } else {
      PairsParts(pairs, m, rest);
      var at := Place(e.indent, e.flowLevel);
      var later := FlattenPairs(pairs[1..]) + ([MappingEnd] + rest);
      var q2 := PairLaid(pairs[0], m, e, flow, s, later);
      EnteredItem(q2, t);
      LaterSuits(e, q2, t, later, s);
      q := PairsLaid(pairs[1..], q2, q2, flow, s, rest);
      ClosedLater(e, q2, t, later, flow, rest, q.handled, q.mappingContext);
      PairSpotsFirst(pairs, flow, at, s, m.handled, Here(q));
      TracesThen(m, s.o, PairSpot(pairs[0], flow, at, s, m.handled), q2,
                 PairSpots(pairs[1..], flow, at, s, q2.handled) + [Here(q)], q);
    }
  }

  lemma StateOfKeys(flow: bool)
    ensures KeyState(KeyStateOf(flow)) && InFlow(KeyStateOf(flow)) == flow
  {
  }

  lemma PairsParts(pairs: seq<Pair>, m: M, rest: seq<Event>)
    requires pairs != [] && m.events == FlattenPairs(pairs) + ([MappingEnd] + rest) && AllValid(FlattenPairs(pairs))
    ensures m.events == FlattenPair(pairs[0]) + (FlattenPairs(pairs[1..]) + ([MappingEnd] + rest))
    ensures AllValid(FlattenPair(pairs[0])) && AllValid(FlattenPairs(pairs[1..]))
    ensures |FlattenPairs(pairs)| == |FlattenPair(pairs[0])| + |FlattenPairs(pairs[1..])|
  {
    ValidParts(FlattenPair(pairs[0]), FlattenPairs(pairs[1..]));
    hide FlattenPair, ValidEvent;
  }

  lemma PairParts(p: Pair, m: M, later: seq<Event>)
    requires WellFormed(p.key) && WellFormed(p.value) && m.events == FlattenPair(p) + later && AllValid(FlattenPair(p))
    ensures m.events == Flatten(p.key) + (Flatten(p.value) + later) && AllValid(Flatten(p.key)) && AllValid(Flatten(p.value))
    ensures m.events != [] && !m.events[0].MappingEnd? && ValidEvent(m.events[0])
    ensures Flatten(p.value) + later != [] && |FlattenPair(p)| == |Flatten(p.key)| + |Flatten(p.value)|
  {
    ValidParts(Flatten(p.key), Flatten(p.value));
    FlattenFirst(p.key);
    FlattenFirst(p.value);
    assert ValidEvent(Flatten(p.key)[0]);
    hide Flatten, ValidEvent;
  }

  lemma {:induction false} PairLaid(p: Pair, m: M, e: M, flow: bool, s: Setting, later: seq<Event>) returns (q: M)
    requires WellFormed(p.key) && WellFormed(p.value) && AllValid(FlattenPair(p)) && Suits(e, s) && (flow <==> e.flowLevel > 0)
    requires m.events == FlattenPair(p) + later && Entry(m.state) == KeyStateOf(flow) && e == Entered(m, false)
    ensures q == e.(state := KeyStateOf(flow), events := later, handled := m.handled + |FlattenPair(p)|, mappingContext := q.mappingContext)
    ensures q.handled == m.handled + |FlattenPair(p)|
    ensures Traces(m, s.o, PairSpot(p, flow, Place(e.indent, e.flowLevel), s, m.handled), q)
    decreases p, 0
  {
    hide *;
    PairParts(p, m, later);
    EnteredQueue(m, false);
    StateOfKeys(flow);
    var t := KeyStateOf(flow);
    var at := Place(e.indent, e.flowLevel);
    var more := Flatten(p.value) + later;
    var simple := Simple(p.key, at, s, m.handled);
    var u := AfterKey(t, simple);
    KeyDue(p.key, m, e, flow, s, more);
    AfterKeyStates(flow, simple);
    PushSuits(e, u, s);
    var q1 := NodeLaid(p.key, m, Push(e, u), true, s, more);
    LeftPushed(e, u, more, q1.handled, q1.mappingContext);
    LaterSuits(e, q1, u, more, s);
    ValuePasses(q1, flow, simple, s.o);
    PushSuits(q1, t, s);
    ValueDue(p.value, q1, Push(q1, t), s, later);
    q := NodeLaid(p.value, q1, Push(q1, t), true, s, later);
    LeftPushed(q1, t, later, q.handled, q.mappingContext);
    PairSpotParts(p, flow, at, s, m.handled);
    TracesThen(m, s.o, Spots(p.key, u, at, true, s, m.handled), q1, Spots(p.value, t, at, true, s, q1.handled), q);
  }

  lemma AfterKeyStates(flow: bool, simple: bool)
    ensures AfterKey(KeyStateOf(flow), simple)
         == if flow then if simple then FlowMappingSimpleValueState else FlowMappingValueState
            else if simple then BlockMappingSimpleValueState else BlockMappingValueState
    ensures KeyStateOf(flow) == if flow then FlowMappingKeyState else BlockMappingKeyState
  {
  }

  lemma PairSpotParts(p: Pair, flow: bool, at: Place, s: Setting, k: nat)
    requires WellFormed(p.key) && WellFormed(p.value)
    ensures PairSpot(p, flow, at, s, k)
         == Spots(p.key, AfterKey(KeyStateOf(flow), Simple(p.key, at, s, k)), at, true, s, k)
            + Spots(p.value, KeyStateOf(flow), at, true, s, k + |Flatten(p.key)|)
  {
    hide Spots, Flatten, Simple;
  }

  lemma ValueDue(n: Node, m: M, p: M, s: Setting, later: seq<Event>)
    requires WellFormed(n) && AllValid(Flatten(n)) && Suits(p, s) && m.events == Flatten(n) + later && Passes(m, p, true, s.o)
    ensures Due(n, m, p, true, s, later) && p.states != []
  {
    hide Flatten, AllValid, Suits;
  }

  lemma KeyDue(key: Node, m: M, e: M, flow: bool, s: Setting, more: seq<Event>)
    requires WellFormed(key) && AllValid(Flatten(key)) && Suits(e, s) && (flow <==> e.flowLevel > 0)
    requires m.events == Flatten(key) + more && Entry(m.state) == KeyStateOf(flow) && e == Entered(m, false)
    requires e.events == m.events && e.handled == m.handled && m.events != [] && !m.events[0].MappingEnd? && ValidEvent(m.events[0])
    ensures var u := AfterKey(KeyStateOf(flow), Simple(key, Place(e.indent, e.flowLevel), s, m.handled));
            Due(key, m, Push(e, u), true, s, more) && Push(e, u).states != []
  {
    StateOfKeys(flow);
    Analyzed(e, m.events[0]);
    FlattenFirst(key);
    var t := KeyStateOf(flow);
    hide Flatten, Analyze, EmitNode, Entered, AfterKey, Simple, SimpleKey, AllValid, ValidEvent, Passes, EmitterSpec.Step;
    var d := Analyze(e, m.events[0]).data;
    SimpleFound(key, e, s, d, more);
    KeyPasses(m, e, t, d, s.o);
    PushSuits(e, AfterKey(t, Simple(key, Place(e.indent, e.flowLevel), s, m.handled)), s);
  }

  // ---- Documents ----

  const OUTSIDE := Place(-1, 0)

  /** The setting in a document: its own directives come before the default ones. */
  function SettingOf(d: Document, best: int, canonical: bool, o: nat -> Choice): Setting
    requires d.start.DocumentStart?
  {
    var own := d.start.tagDirectives;
    Setting(best, canonical, own + R.DefaultsFor(own), o)
  }

  ghost function DocumentSpots(d: Document, best: int, canonical: bool, o: nat -> Choice, k: nat): seq<Spot>
    requires WellFormedDocument(d)
  {
    [Spot(DocumentContentState, OUTSIDE)]
    + Spots(d.root, DocumentEndState, OUTSIDE, false, SettingOf(d, best, canonical, o), k + 1)
    + [Spot(DocumentStartState, OUTSIDE)]
  }

  function DocumentEvents(d: Document): seq<Event> {
    [d.start] + Flatten(d.root) + [d.end]
  }

  ghost function AllSpots(ds: seq<Document>, best: int, canonical: bool, o: nat -> Choice, k: nat): seq<Spot>
    requires WellFormedStream(ds)
  {
    if ds == [] then []
    else
      assert WellFormedDocument(ds[0]);
      DocumentSpots(ds[0], best, canonical, o, k) + AllSpots(ds[1..], best, canonical, o, k + |DocumentEvents(ds[0])|)
  }

  /** The emitter after each event of a stream. An indentation that is not between 2 and 9 becomes 2. */
  ghost function StreamSpots(ds: seq<Document>, bestIndent: int, canonical: bool, o: nat -> Choice): seq<Spot>
    requires WellFormedStream(ds)
  {
    [Spot(FirstDocumentStartState, OUTSIDE)]
    + AllSpots(ds, if 2 <= bestIndent <= 9 then bestIndent else 2, canonical, o, 1)
    + [Spot(EndState, OUTSIDE)]
  }

  /** Between documents. */
  predicate Idle(m: M, best: int, canonical: bool) {
    && (m.state == FirstDocumentStartState || m.state == DocumentStartState)
    && m.states == [] && m.indents == [] && m.indent == -1 && m.flowLevel == 0 && m.tagDirectives == []
    && m.bestIndent == best && m.canonical == canonical
  }

  lemma DocumentStartLaid(d: Document, m: M, best: int, canonical: bool, o: nat -> Choice, rest: seq<Event>) returns (q: M)
    requires Idle(m, best, canonical) && WellFormedDocument(d) && ValidEvent(d.start) && m.events == [d.start] + rest
    ensures q == m.(state := DocumentContentState, tagDirectives := SettingOf(d, best, canonical, o).directives, events := rest,
                    handled := m.handled + 1)
    ensures Traces(m, o, [Spot(DocumentContentState, OUTSIDE)], q)
    ensures Suits(q, SettingOf(d, best, canonical, o))
  {
    var ds := d.start.tagDirectives;
    DocumentStartStep(m, d.start, o(m.handled));
    HandlesNamed(ds);
    assert m.events[1..] == rest;
    hide EmitterSpec.Step, R.DefaultsFor, ValidEvent, WellFormed;
    var r := m.(state := DocumentContentState, tagDirectives := ds + R.DefaultsFor(ds));
    q := Onward(m, r);
    TracesOne(m, o, r);
  }

  lemma DocumentStartStep(m: M, e: Event, c: Choice)
    requires m.state == FirstDocumentStartState || m.state == DocumentStartState
    requires m.events != [] && m.events[0] == e && e.DocumentStart? && ValidEvent(e) && m.tagDirectives == []
    ensures EmitterSpec.Step(m, c)
         == Ok(m.(state := DocumentContentState, tagDirectives := e.tagDirectives + R.DefaultsFor(e.tagDirectives)))
    ensures forall i | 0 <= i < |e.tagDirectives| :: ValidDirective(e.tagDirectives[i])
  {
    DirectivesAppended([], e.tagDirectives);
    R.OwnAndDefaults(e.tagDirectives, []);
    assert [] + e.tagDirectives == e.tagDirectives;
    hide AppendDirectives, P.WithDefaults, R.DefaultsFor, ValidDirective;
  }

  lemma HandlesNamed(ds: seq<TagDirective>)
    requires forall i | 0 <= i < |ds| :: ValidDirective(ds[i])
    ensures GoodDirectives(ds + R.DefaultsFor(ds))
  {
    assert |Ascii("!")| == 1 && |Ascii("!!")| == 2;
  }

  lemma RootPasses(m: M, n: Node, o: nat -> Choice)
    requires m.state == DocumentContentState && m.events != []
    ensures Passes(m, Push(m, DocumentEndState), false, o)
  {
    hide EmitNode, Analyze;
    AnalyzePushed(m, DocumentEndState, m.events[0]);
  }

  lemma RootDue(n: Node, m: M, s: Setting, rest: seq<Event>)
    requires WellFormed(n) && AllValid(Flatten(n)) && Suits(m, s) && m.events == Flatten(n) + rest && m.state == DocumentContentState
    ensures Due(n, m, Push(m, DocumentEndState), false, s, rest) && Push(m, DocumentEndState).states == m.states + [DocumentEndState]
    ensures m.states == [] ==> Left(Push(m, DocumentEndState), rest, m.handled + |Flatten(n)|, false)
                               == m.(state := DocumentEndState, events := rest, handled := m.handled + |Flatten(n)|, mappingContext := false)
  {
    FlattenFirst(n);
    RootPasses(m, n, s.o);
    PushSuits(m, DocumentEndState, s);
    hide Flatten, AllValid, Suits, Passes;
    assert ([] + [DocumentEndState])[..0] == [];
  }

  lemma DocumentEndLaid(m: M, e: Event, best: int, canonical: bool, o: nat -> Choice, rest: seq<Event>) returns (q: M)
    requires m.state == DocumentEndState && Idle(m.(state := DocumentStartState, tagDirectives := []), best, canonical)
    requires e.DocumentEnd? && m.events == [e] + rest
    ensures Idle(q, best, canonical) && q.events == rest && q.handled == m.handled + 1
    ensures Traces(m, o, [Spot(DocumentStartState, OUTSIDE)], q)
  {
    assert m.events[1..] == rest;
    var r := m.(state := DocumentStartState, tagDirectives := []);
    TracesOne(m, o, r);
    q := Onward(m, r);
  }

  lemma DocumentParts(d: Document, rest: seq<Event>)
    requires AllValid(DocumentEvents(d))
    ensures DocumentEvents(d) + rest == [d.start] + (Flatten(d.root) + ([d.end] + rest))
    ensures ValidEvent(d.start) && AllValid(Flatten(d.root)) && |DocumentEvents(d)| == |Flatten(d.root)| + 2
  {
    ValidParts([d.start] + Flatten(d.root), [d.end]);
    ValidParts([d.start], Flatten(d.root));
    assert [d.start][0] == d.start;
  }

  lemma DocumentLaid(d: Document, m: M, best: int, canonical: bool, o: nat -> Choice, rest: seq<Event>) returns (q: M)
    requires Idle(m, best, canonical) && WellFormedDocument(d) && AllValid(DocumentEvents(d)) && m.events == DocumentEvents(d) + rest
    ensures Idle(q, best, canonical) && q.events == rest && q.handled == m.handled + |DocumentEvents(d)|
    ensures Traces(m, o, DocumentSpots(d, best, canonical, o, m.handled), q)
  {
    hide *;
    DocumentParts(d, rest);
    DocumentIsWell(d);
    SettingChoices(d, best, canonical, o);
    var s := SettingOf(d, best, canonical, o);
    var more := [d.end] + rest;
    var m1 := DocumentStartLaid(d, m, best, canonical, o, Flatten(d.root) + more);
    IdleFields(m, best, canonical);
    RootDue(d.root, m1, s, more);
    var p := Push(m1, DocumentEndState);
    var m2 := NodeLaid(d.root, m1, p, false, s, more);
    RootLeft(m1, m2, more);
    IdleAgain(m, m2, best, canonical);
    q := DocumentEndLaid(m2, d.end, best, canonical, o, rest);
    var a, b, c := [Spot(DocumentContentState, OUTSIDE)], Spots(d.root, DocumentEndState, OUTSIDE, false, s, m.handled + 1),
                   [Spot(DocumentStartState, OUTSIDE)];
    TracesThen(m1, o, b, m2, c, q);
    TracesThen(m, o, a, m1, b + c, q);
    DocumentSpotsParts(d, best, canonical, o, m.handled);
    assert a + (b + c) == a + b + c;
  }

  lemma DocumentSpotsParts(d: Document, best: int, canonical: bool, o: nat -> Choice, k: nat)
    requires WellFormedDocument(d)
    ensures DocumentSpots(d, best, canonical, o, k)
         == [Spot(DocumentContentState, OUTSIDE)]
            + Spots(d.root, DocumentEndState, OUTSIDE, false, SettingOf(d, best, canonical, o), k + 1)
            + [Spot(DocumentStartState, OUTSIDE)]
  {
  }

  lemma DocumentIsWell(d: Document)
    requires WellFormedDocument(d)
    ensures d.start.DocumentStart? && WellFormed(d.root) && d.end.DocumentEnd?
  {
  }

  lemma IdleFields(m: M, best: int, canonical: bool)
    requires Idle(m, best, canonical)
    ensures m.states == [] && Place(m.indent, m.flowLevel) == OUTSIDE
  {
  }

  lemma IdleAgain(m: M, q: M, best: int, canonical: bool)
    requires Idle(m, best, canonical)
    requires q == m.(state := DocumentEndState, tagDirectives := q.tagDirectives, events := q.events, handled := q.handled,
                     mappingContext := q.mappingContext)
    ensures Idle(q.(state := DocumentStartState, tagDirectives := []), best, canonical)
  {
  }

  lemma SettingChoices(d: Document, best: int, canonical: bool, o: nat -> Choice)
    requires d.start.DocumentStart?
    ensures SettingOf(d, best, canonical, o).o == o
  {
  }

  lemma RootLeft(m: M, q: M, rest: seq<Event>)
    requires q == Left(Push(m, DocumentEndState), rest, q.handled, q.mappingContext) && m.states == []
    ensures q == m.(state := DocumentEndState, events := rest, handled := q.handled, mappingContext := q.mappingContext)
    ensures Push(m, DocumentEndState).states == [DocumentEndState]
    ensures Push(m, DocumentEndState).indent == m.indent && Push(m, DocumentEndState).flowLevel == m.flowLevel
  {
    assert ([] + [DocumentEndState])[..0] == [];
  }

  lemma {:induction false} DocumentsLaid(ds: seq<Document>, m: M, best: int, canonical: bool, o: nat -> Choice, rest: seq<Event>) returns (q: M)
    requires Idle(m, best, canonical) && WellFormedStream(ds) && AllValid(FlattenDocuments(ds)) && m.events == FlattenDocuments(ds) + rest
    ensures Idle(q, best, canonical) && q.events == rest
    ensures Traces(m, o, AllSpots(ds, best, canonical, o, m.handled), q)
    decreases |ds|
  {
    hide Flatten, AllValid, ValidEvent, WellFormedDocument, Idle, DocumentSpots;
    if ds == [] {
      assert m.events == rest;
      q := m;
    } else {
      assert FlattenDocuments(ds) == DocumentEvents(ds[0]) + FlattenDocuments(ds[1..]);
      ValidParts(DocumentEvents(ds[0]), FlattenDocuments(ds[1..]));
      assert m.events == DocumentEvents(ds[0]) + (FlattenDocuments(ds[1..]) + rest);
      hide Traces, DocumentEvents, FlattenDocuments;
      assert WellFormedDocument(ds[0]);
      var m1 := DocumentLaid(ds[0], m, best, canonical, o, FlattenDocuments(ds[1..]) + rest);
      q := DocumentsLaid(ds[1..], m1, best, canonical, o, rest);
      TracesThen(m, o, DocumentSpots(ds[0], best, canonical, o, m.handled), m1, AllSpots(ds[1..], best, canonical, o, m1.handled), q);
    }
  }

  lemma StreamStartLaid(bestIndent: int, canonical: bool, o: nat -> Choice, m: M, rest: seq<Event>) returns (q: M)
    requires m == Start(bestIndent, canonical).(events := [StreamStart] + rest)
    ensures Idle(q, if 2 <= bestIndent <= 9 then bestIndent else 2, canonical) && q.events == rest && q.handled == 1
    ensures Traces(m, o, [Spot(FirstDocumentStartState, OUTSIDE)], q)
  {
    assert m.events[1..] == rest;
    var r := m.(bestIndent := if 2 <= bestIndent <= 9 then bestIndent else 2, indent := -1, state := FirstDocumentStartState);
    TracesOne(m, o, r);
    q := Onward(m, r);
  }

  lemma StreamEndLaid(m: M, best: int, canonical: bool, o: nat -> Choice) returns (q: M)
    requires Idle(m, best, canonical) && m.events == [StreamEnd]
    ensures Traces(m, o, [Spot(EndState, OUTSIDE)], q) && q.events == []
  {
    TracesOne(m, o, m.(state := EndState));
    q := Onward(m, m.(state := EndState));
  }

  /** What a run goes through is what handling some of the events comes to. */
  lemma {:induction false} SpotHandled(m: M, o: nat -> Choice, spots: seq<Spot>, q: M, n: nat)
    requires Traces(m, o, spots, q) && 0 < n <= |spots|
    ensures n <= |m.events| && HandleSome(m, n, o).Ok? && Here(HandleSome(m, n, o).next) == spots[n - 1]
    decreases n
  {
    hide EmitterSpec.Step;
    var r := Onward(m, EmitterSpec.Step(m, o(m.handled)).next);
    if n > 1 {
      SpotHandled(r, o, spots[1..], q, n - 1);
    } else {
      assert HandleSome(r, 0, o) == Ok(r);
    }
  }

  lemma StreamLaid(ds: seq<Document>, bestIndent: int, canonical: bool, o: nat -> Choice) returns (q: M)
    requires WellFormedStream(ds) && AllValid(FlattenStream(ds))
    ensures Traces(Start(bestIndent, canonical).(events := FlattenStream(ds)), o, StreamSpots(ds, bestIndent, canonical, o), q)
    ensures q.events == []
  {
    var m := Start(bestIndent, canonical).(events := FlattenStream(ds));
    var best := if 2 <= bestIndent <= 9 then bestIndent else 2;
    var all := FlattenDocuments(ds) + [StreamEnd];
    assert FlattenStream(ds) == [StreamStart] + all;
    ValidParts([StreamStart], all);
    ValidParts(FlattenDocuments(ds), [StreamEnd]);
    hide Start, FlattenStream, FlattenDocuments, AllValid, WellFormedStream, Traces, AllSpots, Idle;
    var m1 := StreamStartLaid(bestIndent, canonical, o, m, all);
    var m2 := DocumentsLaid(ds, m1, best, canonical, o, [StreamEnd]);
    q := StreamEndLaid(m2, best, canonical, o);
    var a, b, c := [Spot(FirstDocumentStartState, OUTSIDE)], AllSpots(ds, best, canonical, o, 1), [Spot(EndState, OUTSIDE)];
    TracesThen(m1, o, b, m2, c, q);
    TracesThen(m, o, a, m1, b + c, q);
    assert a + (b + c) == a + b + c;
  }

  lemma {:induction false} TracesLength(m: M, o: nat -> Choice, spots: seq<Spot>, q: M)
    requires Traces(m, o, spots, q)
    ensures |m.events| == |spots| + |q.events|
    decreases |spots|
  {
    hide EmitterSpec.Step;
    if spots != [] {
      TracesLength(Onward(m, EmitterSpec.Step(m, o(m.handled)).next), o, spots[1..], q);
    }
  }

  /** The layout of a conforming stream: after any number of calls with its events, the emitter is
      where the trees of its documents prescribe for the last event that it has handled. */
  lemma LaidOut(ds: seq<Document>, bestIndent: int, canonical: bool, o: nat -> Choice, k: nat)
    requires WellFormedStream(ds) && AllValid(FlattenStream(ds)) && k <= |FlattenStream(ds)|
    ensures var r := EmitAll(Start(bestIndent, canonical), FlattenStream(ds)[..k], o);
            && r.Ok? && |r.next.events| <= k
            && var n := k - |r.next.events|;
               n > 0 ==> n <= |StreamSpots(ds, bestIndent, canonical, o)|
                         && Here(r.next) == StreamSpots(ds, bestIndent, canonical, o)[n - 1]
  {
    hide Traces, StreamSpots, FlattenStream, EmitAll, Run, Inv, Abs, ValidEvent, HandleSome, WellFormedStream;
    var es := FlattenStream(ds);
    var m := Start(bestIndent, canonical);
    var q := StreamLaid(ds, bestIndent, canonical, o);
    assert m.events == [] && es[..k] + es[k..] == es;
    AcceptsStream(ds);
    assert Run(Before, es) != Rejected;
    EmitsConforming(es[..k], bestIndent, canonical, o);
    PrefixRejected(es, k);
    EmitAllRefines(m, es[..k], es[k..], o);
    assert [] + es[..k] + es[k..] == es;
    TracesLength(m.(events := es), o, StreamSpots(ds, bestIndent, canonical, o), q);
    var r := EmitAll(m, es[..k], o);
    assert m.events + es[..k] == es[..k];
    var n := k - |r.next.events|;
    if n > 0 {
      SpotHandled(m.(events := es), o, StreamSpots(ds, bestIndent, canonical, o), q, n);
    }
  }
}
