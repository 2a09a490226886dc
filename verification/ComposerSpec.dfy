/** The node graph that decode.go composes from the events of a document. Nodes are numbered in the
    order in which they are made; numbers stand for pointers. */
module ComposerSpec {
  import opened EventGrammar

  /** A node with the fields that the code keeps. The children of a mapping are keys and values
      in turn. */
  datatype Rec =
    | ScalarRec(tag: Text, value: Text, implicit: bool)
    | AliasRec(name: Text, target: nat)
    | SequenceRec(children: seq<nat>)
    | MappingRec(children: seq<nat>)

  /** The nodes so far, and the latest node of each anchor. */
  datatype Store = Store(nodes: seq<Rec>, anchors: map<Text, nat>)

  datatype Built = Built(store: Store) | UnknownAnchor

  datatype BuiltAll = BuiltAll(store: Store, ids: seq<nat>) | UnknownAnchors

  const EMPTY := Store([], map[])

  function Register(anchors: map<Text, nat>, anchor: Text, id: nat): map<Text, nat> {
    if anchor == [] then anchors else anchors[anchor := id]
  }

  /** A new node without children, with its anchor known. */
  function Allocate(s: Store, r: Rec, anchor: Text): Store {
    Store(s.nodes + [r], Register(s.anchors, anchor, |s.nodes|))
  }

  /** Compose a node; its number is that of the next free place. */
  function Build(n: Node, s: Store): (r: Built)
    requires WellFormed(n)
    ensures r.Built? ==> |r.store.nodes| > |s.nodes|
    decreases n, 0
  {
    match n
    case Leaf(e) =>
      if e.Alias? then
        if e.anchor in s.anchors then Built(Allocate(s, AliasRec(e.anchor, s.anchors[e.anchor]), [])) else UnknownAnchor
      else Built(Allocate(s, ScalarRec(e.tag, e.value, e.implicit), e.anchor))
    case Sequence(e, items) =>
      (match BuildItems(items, Allocate(s, SequenceRec([]), e.anchor))
       case UnknownAnchors => UnknownAnchor
       case BuiltAll(t, ids) => Built(t.(nodes := t.nodes[|s.nodes| := SequenceRec(ids)])))
    case Mapping(e, pairs) =>
      (match BuildPairs(pairs, Allocate(s, MappingRec([]), e.anchor))
       case UnknownAnchors => UnknownAnchor
       case BuiltAll(t, ids) => Built(t.(nodes := t.nodes[|s.nodes| := MappingRec(ids)])))
  }

  function BuildItems(items: seq<Node>, s: Store): (r: BuiltAll)
    requires forall i | 0 <= i < |items| :: WellFormed(items[i])
    ensures r.BuiltAll? ==> |r.store.nodes| >= |s.nodes|
    decreases items, 0
  {
    if items == [] then BuiltAll(s, [])
    else
      match Build(items[0], s)
      case UnknownAnchor => UnknownAnchors
      case Built(t) =>
        (match BuildItems(items[1..], t)
         case UnknownAnchors => UnknownAnchors
         case BuiltAll(u, ids) => BuiltAll(u, [|s.nodes|] + ids))
  }

  function BuildPairs(pairs: seq<Pair>, s: Store): (r: BuiltAll)
    requires forall i | 0 <= i < |pairs| :: WellFormed(pairs[i].key) && WellFormed(pairs[i].value)
    ensures r.BuiltAll? ==> |r.store.nodes| >= |s.nodes|
    decreases pairs, 0
  {
    if pairs == [] then BuiltAll(s, [])
    else
      var p := pairs[0];
      match BuildPair(p, s)
      case UnknownAnchors => UnknownAnchors
      case BuiltAll(t, ids) =>
        (match BuildPairs(pairs[1..], t)
         case UnknownAnchors => UnknownAnchors
         case BuiltAll(u, more) => BuiltAll(u, ids + more))
  }

  function BuildPair(p: Pair, s: Store): (r: BuiltAll)
    requires WellFormed(p.key) && WellFormed(p.value)
    ensures r.BuiltAll? ==> |r.store.nodes| >= |s.nodes|
    decreases p, 0
  {
    match Build(p.key, s)
    case UnknownAnchor => UnknownAnchors
    case Built(t) =>
      (match Build(p.value, t)
       case UnknownAnchor => UnknownAnchors
       case Built(u) => BuiltAll(u, [|s.nodes|, |t.nodes|]))
  }

  // ---- Nodes in the order of their events ----

  /** The events that start the nodes of a tree. */
  function Starts(n: Node): seq<Event>
    decreases n, 0
  {
    match n
    case Leaf(e) => [e]
    case Sequence(e, items) => [e] + ItemStarts(items)
    case Mapping(e, pairs) => [e] + PairStarts(pairs)
  }

  function ItemStarts(items: seq<Node>): seq<Event>
    decreases items, 0
  {
    if items == [] then [] else Starts(items[0]) + ItemStarts(items[1..])
  }

  function PairStarts(pairs: seq<Pair>): seq<Event>
    decreases pairs, 0
  {
    if pairs == [] then [] else PairStart(pairs[0]) + PairStarts(pairs[1..])
  }

  function PairStart(p: Pair): seq<Event>
    decreases p, 0
  {
    Starts(p.key) + Starts(p.value)
  }

  /** The anchor that the event gives its node; empty for none. */
  function Defines(e: Event): Text {
    match e
    case Scalar(anchor, _, _, _, _, _) => anchor
    case SequenceStart(anchor, _, _, _) => anchor
    case MappingStart(anchor, _, _, _) => anchor
    case _ => []
  }

  /** How the node of one start event is made, but for its children. */
  function Made(e: Event, anchors: map<Text, nat>): Rec {
    match e
    case Alias(a) => AliasRec(a, if a in anchors then anchors[a] else 0)
    case Scalar(_, tag, value, implicit, _, _) => ScalarRec(tag, value, implicit)
    case SequenceStart(_, _, _, _) => SequenceRec([])
    case _ => MappingRec([])
  }

  /** The anchors after the nodes of the events, the first of which has the number `id`. */
  function AnchorsAfter(es: seq<Event>, anchors: map<Text, nat>, id: nat): map<Text, nat> {
    if es == [] then anchors else AnchorsAfter(es[1..], Register(anchors, Defines(es[0]), id), id + 1)
  }

  lemma {:induction false} AnchorsAfterConcat(a: seq<Event>, b: seq<Event>, anchors: map<Text, nat>, id: nat)
    ensures AnchorsAfter(a + b, anchors, id) == AnchorsAfter(b, AnchorsAfter(a, anchors, id), id + |a|)
    decreases |a|
  {
    if a == [] {
      assert a + b == b;
    } else {
      assert (a + b)[1..] == a[1..] + b;
      AnchorsAfterConcat(a[1..], b, Register(anchors, Defines(a[0]), id), id + 1);
    }
  }

  /** Every alias names an anchor that an earlier node has. */
  predicate Resolves(es: seq<Event>, anchors: map<Text, nat>, id: nat) {
    es != [] ==>
      && (es[0].Alias? ==> es[0].anchor in anchors)
      && Resolves(es[1..], Register(anchors, Defines(es[0]), id), id + 1)
  }

  lemma {:induction false} ResolvesConcat(a: seq<Event>, b: seq<Event>, anchors: map<Text, nat>, id: nat)
    ensures Resolves(a + b, anchors, id)
       <==> Resolves(a, anchors, id) && Resolves(b, AnchorsAfter(a, anchors, id), id + |a|)
    decreases |a|
  {
    if a == [] {
      assert a + b == b;
    } else {
      assert (a + b)[1..] == a[1..] + b;
      ResolvesConcat(a[1..], b, Register(anchors, Defines(a[0]), id), id + 1);
    }
  }

  // ---- What has been built ----

  /** The place `at` of the nodes holds the tree `n`, in the order of its events. */
  ghost predicate Represents(nodes: seq<Rec>, at: nat, n: Node)
    decreases n, 0
  {
    && at < |nodes|
    && match n
       case Leaf(e) =>
         if e.Alias? then nodes[at].AliasRec? && nodes[at].name == e.anchor
         else e.Scalar? && nodes[at] == ScalarRec(e.tag, e.value, e.implicit)
       case Sequence(_, items) => nodes[at].SequenceRec? && RepresentsItems(nodes, at + 1, nodes[at].children, items)
       case Mapping(_, pairs) => nodes[at].MappingRec? && RepresentsPairs(nodes, at + 1, nodes[at].children, pairs)
  }

  ghost predicate RepresentsItems(nodes: seq<Rec>, at: nat, ids: seq<nat>, items: seq<Node>)
    decreases items, 0
  {
    if items == [] then ids == []
    else
      && ids != [] && ids[0] == at && Represents(nodes, at, items[0])
      && RepresentsItems(nodes, at + |Starts(items[0])|, ids[1..], items[1..])
  }

  ghost predicate RepresentsPairs(nodes: seq<Rec>, at: nat, ids: seq<nat>, pairs: seq<Pair>)
    decreases pairs, 0
  {
    if pairs == [] then ids == []
    else
      && |ids| >= 2 && RepresentsPair(nodes, at, ids[0], ids[1], pairs[0])
      && RepresentsPairs(nodes, at + |PairStart(pairs[0])|, ids[2..], pairs[1..])
  }

  ghost predicate RepresentsPair(nodes: seq<Rec>, at: nat, k: nat, v: nat, p: Pair)
    decreases p, 0
  {
    && k == at && v == at + |Starts(p.key)|
    && Represents(nodes, k, p.key) && Represents(nodes, v, p.value)
  }

  lemma StartsNotEmpty(n: Node)
    ensures Starts(n) != []
  {
  }

  /** A tree depends only on its own places. */
  lemma {:induction false} SamePlaces(a: seq<Rec>, b: seq<Rec>, at: nat, n: Node)
    requires Represents(a, at, n) && at + |Starts(n)| <= |a| && at + |Starts(n)| <= |b|
    requires forall i | at <= i < at + |Starts(n)| :: a[i] == b[i]
    ensures Represents(b, at, n)
    decreases n, 0
  {
    StartsNotEmpty(n);
    match n
    case Leaf(e) =>
    case Sequence(e, items) => SameItems(a, b, at + 1, a[at].children, items);
    case Mapping(e, pairs) => SamePairs(a, b, at + 1, a[at].children, pairs);
  }

  lemma {:induction false} SameItems(a: seq<Rec>, b: seq<Rec>, at: nat, ids: seq<nat>, items: seq<Node>)
    requires RepresentsItems(a, at, ids, items) && at + |ItemStarts(items)| <= |a| && at + |ItemStarts(items)| <= |b|
    requires forall i | at <= i < at + |ItemStarts(items)| :: a[i] == b[i]
    ensures RepresentsItems(b, at, ids, items)
    decreases items, 0
  {
    if items != [] {
      SamePlaces(a, b, at, items[0]);
      SameItems(a, b, at + |Starts(items[0])|, ids[1..], items[1..]);
    }
  }

  lemma {:induction false} SamePairs(a: seq<Rec>, b: seq<Rec>, at: nat, ids: seq<nat>, pairs: seq<Pair>)
    requires RepresentsPairs(a, at, ids, pairs) && at + |PairStarts(pairs)| <= |a| && at + |PairStarts(pairs)| <= |b|
    requires forall i | at <= i < at + |PairStarts(pairs)| :: a[i] == b[i]
    ensures RepresentsPairs(b, at, ids, pairs)
    decreases pairs, 0
  {
    if pairs != [] {
      SamePair(a, b, at, ids[0], ids[1], pairs[0]);
      SamePairs(a, b, at + |PairStart(pairs[0])|, ids[2..], pairs[1..]);
    }
  }

  lemma {:induction false} SamePair(a: seq<Rec>, b: seq<Rec>, at: nat, k: nat, v: nat, p: Pair)
    requires RepresentsPair(a, at, k, v, p) && at + |PairStart(p)| <= |a| && at + |PairStart(p)| <= |b|
    requires forall i | at <= i < at + |PairStart(p)| :: a[i] == b[i]
    ensures RepresentsPair(b, at, k, v, p)
    decreases p, 0
  {
    SamePlaces(a, b, k, p.key);
    SamePlaces(a, b, v, p.value);
  }

  /** `t` is `s` with places for the nodes of the events added, and their anchors known. Aliases
      have the target that is known at their event. */
  ghost predicate Extends(s: Store, t: Store, es: seq<Event>) {
    && |t.nodes| == |s.nodes| + |es|
    && (forall i | 0 <= i < |s.nodes| :: t.nodes[i] == s.nodes[i])
    && t.anchors == AnchorsAfter(es, s.anchors, |s.nodes|)
    && forall i | 0 <= i < |es| :: SameKind(t.nodes[|s.nodes| + i], Made(es[i], AnchorsAfter(es[..i], s.anchors, |s.nodes|)))
  }

  /** The same node, but maybe with other children. */
  predicate SameKind(a: Rec, b: Rec) {
    match a
    case SequenceRec(_) => b.SequenceRec?
    case MappingRec(_) => b.MappingRec?
    case _ => a == b
  }

  lemma ExtendsThen(s: Store, t: Store, u: Store, a: seq<Event>, b: seq<Event>)
    requires Extends(s, t, a) && Extends(t, u, b)
    ensures Extends(s, u, a + b)
  {
    hide AnchorsAfter, SameKind, Made;
    AnchorsAfterConcat(a, b, s.anchors, |s.nodes|);
    forall i | 0 <= i < |a + b|
      ensures SameKind(u.nodes[|s.nodes| + i], Made((a + b)[i], AnchorsAfter((a + b)[..i], s.anchors, |s.nodes|)))
    {
      if i < |a| {
        assert (a + b)[..i] == a[..i];
      } else {
        assert (a + b)[..i] == a + b[..i - |a|];
        AnchorsAfterConcat(a, b[..i - |a|], s.anchors, |s.nodes|);
      }
    }
  }

  lemma ExtendsNothing(s: Store)
    ensures Extends(s, s, [])
  {
  }

  lemma AllocateExtends(s: Store, e: Event, r: Rec)
    requires SameKind(r, Made(e, s.anchors))
    ensures Extends(s, Allocate(s, r, Defines(e)), [e])
  {
    assert [e][1..] == [] && [e][..0] == [];
  }

  // ---- Composition is faithful ----

  lemma {:induction false} BuildFaithful(n: Node, s: Store)
    requires WellFormed(n)
    ensures Build(n, s).Built? <==> Resolves(Starts(n), s.anchors, |s.nodes|)
    ensures Build(n, s).Built? ==>
              Extends(s, Build(n, s).store, Starts(n)) && Represents(Build(n, s).store.nodes, |s.nodes|, n)
    decreases n, 1
  {
    hide Extends, AnchorsAfter, Build, Represents, WellFormed, Resolves, Starts, BuildItems, BuildPairs;
    match n
    case Leaf(e) => LeafBuilt(e, s);
    case Sequence(e, items) =>
      WellFormedParts(n);
      BuildItemsFaithful(items, Allocate(s, SequenceRec([]), e.anchor));
      SequenceBuilt(e, items, s);
    case Mapping(e, pairs) =>
      WellFormedParts(n);
      BuildPairsFaithful(pairs, Allocate(s, MappingRec([]), e.anchor));
      MappingBuilt(e, pairs, s);
  }

  lemma WellFormedParts(n: Node)
    requires WellFormed(n)
    ensures n.Sequence? ==> n.start.SequenceStart? && forall i | 0 <= i < |n.items| :: WellFormed(n.items[i])
    ensures n.Mapping? ==>
              n.start.MappingStart? && forall i | 0 <= i < |n.pairs| :: WellFormed(n.pairs[i].key) && WellFormed(n.pairs[i].value)
  {
  }

  lemma LeafBuilt(e: Event, s: Store)
    requires WellFormed(Leaf(e))
    ensures var n := Leaf(e);
            && (Build(n, s).Built? <==> Resolves(Starts(n), s.anchors, |s.nodes|))
            && (Build(n, s).Built? ==>
                  Extends(s, Build(n, s).store, Starts(n)) && Represents(Build(n, s).store.nodes, |s.nodes|, n))
  {
    hide Extends, AnchorsAfter;
    assert [e][1..] == [];
    if e.Scalar? {
      AllocateExtends(s, e, ScalarRec(e.tag, e.value, e.implicit));
    } else if e.anchor in s.anchors {
      AllocateExtends(s, e, AliasRec(e.anchor, s.anchors[e.anchor]));
    }
  }

  lemma SequenceBuilt(e: Event, items: seq<Node>, s: Store)
    requires e.SequenceStart? && forall i | 0 <= i < |items| :: WellFormed(items[i])
    requires var s1 := Allocate(s, SequenceRec([]), e.anchor);
             var r := BuildItems(items, s1);
             && (r.BuiltAll? <==> Resolves(ItemStarts(items), s1.anchors, |s1.nodes|))
             && (r.BuiltAll? ==>
                   Extends(s1, r.store, ItemStarts(items)) && RepresentsItems(r.store.nodes, |s1.nodes|, r.ids, items))
    ensures var n := Sequence(e, items);
            && (Build(n, s).Built? <==> Resolves(Starts(n), s.anchors, |s.nodes|))
            && (Build(n, s).Built? ==>
                  Extends(s, Build(n, s).store, Starts(n)) && Represents(Build(n, s).store.nodes, |s.nodes|, n))
  {
    hide Extends, AnchorsAfter, Resolves, BuildItems, RepresentsItems, ItemStarts;
    var s1 := Allocate(s, SequenceRec([]), e.anchor);
    AllocateExtends(s, e, SequenceRec([]));
    OneStart(e, ItemStarts(items), s);
    if BuildItems(items, s1).BuiltAll? {
      var t, ids := BuildItems(items, s1).store, BuildItems(items, s1).ids;
      ExtendsThen(s, s1, t, [e], ItemStarts(items));
      ChildrenSet(s, t, [e] + ItemStarts(items), SequenceRec(ids));
      ExtendsLength(s, t, [e] + ItemStarts(items));
      SameItems(t.nodes, t.nodes[|s.nodes| := SequenceRec(ids)], |s.nodes| + 1, ids, items);
    }
  }

  lemma MappingBuilt(e: Event, pairs: seq<Pair>, s: Store)
    requires e.MappingStart? && forall i | 0 <= i < |pairs| :: WellFormed(pairs[i].key) && WellFormed(pairs[i].value)
    requires var s1 := Allocate(s, MappingRec([]), e.anchor);
             var r := BuildPairs(pairs, s1);
             && (r.BuiltAll? <==> Resolves(PairStarts(pairs), s1.anchors, |s1.nodes|))
             && (r.BuiltAll? ==>
                   Extends(s1, r.store, PairStarts(pairs)) && RepresentsPairs(r.store.nodes, |s1.nodes|, r.ids, pairs))
    ensures var n := Mapping(e, pairs);
            && (Build(n, s).Built? <==> Resolves(Starts(n), s.anchors, |s.nodes|))
            && (Build(n, s).Built? ==>
                  Extends(s, Build(n, s).store, Starts(n)) && Represents(Build(n, s).store.nodes, |s.nodes|, n))
  {
    hide Extends, AnchorsAfter, Resolves, BuildPairs, RepresentsPairs, PairStarts;
    var s1 := Allocate(s, MappingRec([]), e.anchor);
    AllocateExtends(s, e, MappingRec([]));
    OneStart(e, PairStarts(pairs), s);
    if BuildPairs(pairs, s1).BuiltAll? {
      var t, ids := BuildPairs(pairs, s1).store, BuildPairs(pairs, s1).ids;
      ExtendsThen(s, s1, t, [e], PairStarts(pairs));
      ChildrenSet(s, t, [e] + PairStarts(pairs), MappingRec(ids));
      ExtendsLength(s, t, [e] + PairStarts(pairs));
      SamePairs(t.nodes, t.nodes[|s.nodes| := MappingRec(ids)], |s.nodes| + 1, ids, pairs);
    }
  }

  lemma ExtendsLength(s: Store, t: Store, es: seq<Event>)
    requires Extends(s, t, es)
    ensures |t.nodes| == |s.nodes| + |es|
  {
  }

  lemma OneStart(e: Event, rest: seq<Event>, s: Store)
    requires !e.Alias?
    ensures Resolves([e] + rest, s.anchors, |s.nodes|) <==> Resolves(rest, Register(s.anchors, Defines(e), |s.nodes|), |s.nodes| + 1)
  {
    assert ([e] + rest)[1..] == rest;
  }

  /** The children of a node are set after they have been built. */
  lemma ChildrenSet(s: Store, t: Store, es: seq<Event>, r: Rec)
    requires Extends(s, t, es) && es != [] && SameKind(r, Made(es[0], s.anchors)) && (r.SequenceRec? || r.MappingRec?)
    ensures Extends(s, t.(nodes := t.nodes[|s.nodes| := r]), es)
  {
    assert es[..0] == [];
    hide AnchorsAfter;
    assert AnchorsAfter(es[..0], s.anchors, |s.nodes|) == s.anchors by { NoAnchors(s.anchors, |s.nodes|); }
  }

  lemma NoAnchors(anchors: map<Text, nat>, id: nat)
    ensures AnchorsAfter([], anchors, id) == anchors
  {
  }

  lemma {:induction false} BuildItemsFaithful(items: seq<Node>, s: Store)
    requires forall i | 0 <= i < |items| :: WellFormed(items[i])
    ensures var r := BuildItems(items, s);
            && (r.BuiltAll? <==> Resolves(ItemStarts(items), s.anchors, |s.nodes|))
            && (r.BuiltAll? ==>
                  Extends(s, r.store, ItemStarts(items)) && RepresentsItems(r.store.nodes, |s.nodes|, r.ids, items))
    decreases items, 0
  {
    hide Extends, AnchorsAfter, Build, Represents;
    if items == [] {
      ExtendsNothing(s);
    } else {
      BuildFaithful(items[0], s);
      ResolvesConcat(Starts(items[0]), ItemStarts(items[1..]), s.anchors, |s.nodes|);
      if Build(items[0], s).Built? {
        var t := Build(items[0], s).store;
        BuildItemsFaithful(items[1..], t);
        ExtendsFacts(s, t, Starts(items[0]));
        if BuildItems(items[1..], t).BuiltAll? {
          var u := BuildItems(items[1..], t).store;
          ExtendsThen(s, t, u, Starts(items[0]), ItemStarts(items[1..]));
          ExtendsFacts(t, u, ItemStarts(items[1..]));
          SamePlaces(t.nodes, u.nodes, |s.nodes|, items[0]);
          assert ([|s.nodes|] + BuildItems(items[1..], t).ids)[1..] == BuildItems(items[1..], t).ids;
        }
      }
    }
  }

  lemma ExtendsFacts(s: Store, t: Store, es: seq<Event>)
    requires Extends(s, t, es)
    ensures |t.nodes| == |s.nodes| + |es| && t.anchors == AnchorsAfter(es, s.anchors, |s.nodes|)
    ensures forall i | 0 <= i < |s.nodes| :: t.nodes[i] == s.nodes[i]
  {
  }

  lemma {:induction false} BuildPairsFaithful(pairs: seq<Pair>, s: Store)
    requires forall i | 0 <= i < |pairs| :: WellFormed(pairs[i].key) && WellFormed(pairs[i].value)
    ensures var r := BuildPairs(pairs, s);
            && (r.BuiltAll? <==> Resolves(PairStarts(pairs), s.anchors, |s.nodes|))
            && (r.BuiltAll? ==>
                  Extends(s, r.store, PairStarts(pairs)) && RepresentsPairs(r.store.nodes, |s.nodes|, r.ids, pairs))
    decreases pairs, 0
  {
    hide Extends, AnchorsAfter, BuildPair, RepresentsPair, PairStart;
    if pairs == [] {
      ExtendsNothing(s);
    } else {
      var p := pairs[0];
      BuildPairFaithful(p, s);
      ResolvesConcat(PairStart(p), PairStarts(pairs[1..]), s.anchors, |s.nodes|);
      if BuildPair(p, s).BuiltAll? {
        var t, ids := BuildPair(p, s).store, BuildPair(p, s).ids;
        BuildPairsFaithful(pairs[1..], t);
        ExtendsFacts(s, t, PairStart(p));
        if BuildPairs(pairs[1..], t).BuiltAll? {
          var u, more := BuildPairs(pairs[1..], t).store, BuildPairs(pairs[1..], t).ids;
          ExtendsThen(s, t, u, PairStart(p), PairStarts(pairs[1..]));
          ExtendsFacts(t, u, PairStarts(pairs[1..]));
          SamePair(t.nodes, u.nodes, |s.nodes|, ids[0], ids[1], p);
          assert (ids + more)[2..] == more && (ids + more)[0] == ids[0] && (ids + more)[1] == ids[1];
        }
      }
    }
  }

  lemma {:induction false} BuildPairFaithful(p: Pair, s: Store)
    requires WellFormed(p.key) && WellFormed(p.value)
    ensures var r := BuildPair(p, s);
            && (r.BuiltAll? <==> Resolves(PairStart(p), s.anchors, |s.nodes|))
            && (r.BuiltAll? ==>
                  |r.ids| == 2 && Extends(s, r.store, PairStart(p)) && RepresentsPair(r.store.nodes, |s.nodes|, r.ids[0], r.ids[1], p))
    decreases p, 0
  {
    hide Extends, AnchorsAfter, Build, Represents;
    BuildFaithful(p.key, s);
    ResolvesConcat(Starts(p.key), Starts(p.value), s.anchors, |s.nodes|);
    if Build(p.key, s).Built? {
      var t := Build(p.key, s).store;
      BuildFaithful(p.value, t);
      ExtendsFacts(s, t, Starts(p.key));
      if Build(p.value, t).Built? {
        var u := Build(p.value, t).store;
        ExtendsThen(s, t, u, Starts(p.key), Starts(p.value));
        ExtendsFacts(t, u, Starts(p.value));
        SamePlaces(t.nodes, u.nodes, |s.nodes|, p.key);
      }
    }
  }

  // ---- The graph flattens back to the events ----

  /** An event with the fields that nodes keep. */
  function Keep(e: Event): Event {
    match e
    case Alias(_) => e
    case Scalar(_, tag, value, implicit, _, _) => Scalar([], tag, value, implicit, false, AnyStyle)
    case SequenceStart(_, _, _, _) => SequenceStart([], [], true, AnyCollection)
    case MappingStart(_, _, _, _) => MappingStart([], [], true, AnyCollection)
    case _ => e
  }

  function KeepAll(es: seq<Event>): seq<Event> {
    if es == [] then [] else [Keep(es[0])] + KeepAll(es[1..])
  }

  lemma {:induction false} KeepAllConcat(a: seq<Event>, b: seq<Event>)
    ensures KeepAll(a + b) == KeepAll(a) + KeepAll(b)
  {
    if a == [] {
      assert a + b == b;
    } else {
      assert (a + b)[1..] == a[1..] + b;
      KeepAllConcat(a[1..], b);
    }
  }

  /** The events of the node at a place; its children come later. */
  function Unmake(nodes: seq<Rec>, at: nat): seq<Event>
    decreases |nodes| - at, 0, 0
  {
    if at >= |nodes| then []
    else
      match nodes[at]
      case ScalarRec(tag, value, implicit) => [Scalar([], tag, value, implicit, false, AnyStyle)]
      case AliasRec(name, _) => [Alias(name)]
      case SequenceRec(ids) => [SequenceStart([], [], true, AnyCollection)] + UnmakeAll(nodes, ids, at) + [SequenceEnd]
      case MappingRec(ids) => [MappingStart([], [], true, AnyCollection)] + UnmakeAll(nodes, ids, at) + [MappingEnd]
  }

  function UnmakeAll(nodes: seq<Rec>, ids: seq<nat>, parent: nat): seq<Event>
    requires parent < |nodes|
    decreases |nodes| - parent - 1, 1, |ids|
  {
    if ids == [] then []
    else (if ids[0] > parent then Unmake(nodes, ids[0]) else []) + UnmakeAll(nodes, ids[1..], parent)
  }

  lemma {:induction false} UnmakesTree(nodes: seq<Rec>, at: nat, n: Node)
    requires WellFormed(n) && Represents(nodes, at, n)
    ensures Unmake(nodes, at) == KeepAll(Flatten(n))
    decreases n, 0
  {
    hide KeepAll;
    match n
    case Leaf(e) => KeepOne(e);
    case Sequence(e, items) =>
      UnmakesItems(nodes, at + 1, nodes[at].children, items, at);
      KeepOne(e);
      KeepOne(SequenceEnd);
      KeepAllConcat([e], FlattenItems(items));
      KeepAllConcat([e] + FlattenItems(items), [SequenceEnd]);
    case Mapping(e, pairs) =>
      UnmakesPairs(nodes, at + 1, nodes[at].children, pairs, at);
      KeepOne(e);
      KeepOne(MappingEnd);
      KeepAllConcat([e], FlattenPairs(pairs));
      KeepAllConcat([e] + FlattenPairs(pairs), [MappingEnd]);
  }

  lemma KeepOne(e: Event)
    ensures KeepAll([e]) == [Keep(e)]
  {
    assert [e][1..] == [];
  }

  lemma {:induction false} UnmakesItems(nodes: seq<Rec>, at: nat, ids: seq<nat>, items: seq<Node>, parent: nat)
    requires forall i | 0 <= i < |items| :: WellFormed(items[i])
    requires RepresentsItems(nodes, at, ids, items) && parent < at && parent < |nodes|
    ensures UnmakeAll(nodes, ids, parent) == KeepAll(FlattenItems(items))
    decreases items, 0
  {
    hide Unmake, Represents, Flatten;
    if items != [] {
      UnmakesTree(nodes, at, items[0]);
      UnmakesItems(nodes, at + |Starts(items[0])|, ids[1..], items[1..], parent);
      KeepAllConcat(Flatten(items[0]), FlattenItems(items[1..]));
    }
  }

  lemma {:induction false} UnmakesPairs(nodes: seq<Rec>, at: nat, ids: seq<nat>, pairs: seq<Pair>, parent: nat)
    requires forall i | 0 <= i < |pairs| :: WellFormed(pairs[i].key) && WellFormed(pairs[i].value)
    requires RepresentsPairs(nodes, at, ids, pairs) && parent < at && parent < |nodes|
    ensures UnmakeAll(nodes, ids, parent) == KeepAll(FlattenPairs(pairs))
    decreases pairs, 0
  {
    hide Unmake, Represents, Flatten;
    if pairs != [] {
      UnmakesPair(nodes, at, ids[0], ids[1], pairs[0]);
      UnmakesPairs(nodes, at + |PairStart(pairs[0])|, ids[2..], pairs[1..], parent);
      KeepAllConcat(FlattenPair(pairs[0]), FlattenPairs(pairs[1..]));
      assert ids[1..][1..] == ids[2..];
    }
  }

  lemma {:induction false} UnmakesPair(nodes: seq<Rec>, at: nat, k: nat, v: nat, p: Pair)
    requires WellFormed(p.key) && WellFormed(p.value) && RepresentsPair(nodes, at, k, v, p)
    ensures Unmake(nodes, k) + Unmake(nodes, v) == KeepAll(FlattenPair(p)) && v > k >= at
    decreases p, 0
  {
    hide Unmake, Represents, Flatten;
    UnmakesTree(nodes, k, p.key);
    UnmakesTree(nodes, v, p.value);
    KeepAllConcat(Flatten(p.key), Flatten(p.value));
    StartsNotEmpty(p.key);
  }

  // ---- Aliases ----

  /** The anchors known after the events are those of their nodes, each with the last one. */
  lemma {:induction false} AnchorsAreLatest(es: seq<Event>, a: Text)
    ensures var m := AnchorsAfter(es, map[], 0);
            && (a in m <==> a != [] && exists j | 0 <= j < |es| :: Defines(es[j]) == a)
            && (a in m ==>
                  m[a] < |es| && Defines(es[m[a]]) == a && forall j | m[a] < j < |es| :: Defines(es[j]) != a)
    decreases |es|
  {
    if es != [] {
      var n := |es| - 1;
      var init, last := es[..n], es[n];
      assert es == init + [last];
      AnchorsAreLatest(init, a);
      AnchorsAfterConcat(init, [last], map[], 0);
      assert [last][1..] == [];
      assert forall j | 0 <= j < n :: es[j] == init[j];
    }
  }

  /** The composition of a document: it fails exactly if an alias names no earlier anchor; the
      nodes flatten back to the document's events; and every alias points to the last node before
      it that has the anchor. */
  lemma ComposesFaithfully(root: Node)
    requires WellFormed(root)
    ensures var es := Starts(root);
            && (Build(root, EMPTY).Built? <==>
                  forall i | 0 <= i < |es| && es[i].Alias? ::
                    es[i].anchor != [] && exists j | 0 <= j < i :: Defines(es[j]) == es[i].anchor)
            && (Build(root, EMPTY).Built? ==>
                  var nodes := Build(root, EMPTY).store.nodes;
                  && |nodes| == |es| && Unmake(nodes, 0) == KeepAll(Flatten(root))
                  && forall i | 0 <= i < |nodes| && nodes[i].AliasRec? ::
                       var t := nodes[i].target;
                       && t < i && Defines(es[t]) == nodes[i].name && !nodes[t].AliasRec?
                       && forall j | t < j < i :: Defines(es[j]) != nodes[i].name)
  {
    hide Build, Represents, Unmake, KeepAll, Flatten, AnchorsAfter, Starts;
    var es := Starts(root);
    BuildFaithful(root, EMPTY);
    ResolvesEarlier(es, |es|);
    assert es[..|es|] == es;
    if Build(root, EMPTY).Built? {
      var t := Build(root, EMPTY).store;
      UnmakesTree(t.nodes, 0, root);
      forall i | 0 <= i < |t.nodes| && t.nodes[i].AliasRec?
        ensures var k := t.nodes[i].target;
                && k < i && Defines(es[k]) == t.nodes[i].name && !t.nodes[k].AliasRec?
                && forall j | k < j < i :: Defines(es[j]) != t.nodes[i].name
      {
        AliasTarget(es, t, i);
      }
    }
  }

  lemma AliasTarget(es: seq<Event>, t: Store, i: nat)
    requires Extends(EMPTY, t, es) && Resolves(es, map[], 0) && i < |es| && t.nodes[i].AliasRec?
    ensures var k := t.nodes[i].target;
            && k < i && Defines(es[k]) == t.nodes[i].name && !t.nodes[k].AliasRec?
            && forall j | k < j < i :: Defines(es[j]) != t.nodes[i].name
  {
    hide AnchorsAfter, Resolves, Extends;
    NodeMade(es, t, i);
    ResolvesAt(es, i);
    AnchorsAreLatest(es[..i], es[i].anchor);
    assert forall j | 0 <= j < i :: es[..i][j] == es[j];
    NodeMade(es, t, t.nodes[i].target);
  }

  /** The node of an event. */
  lemma NodeMade(es: seq<Event>, t: Store, i: nat)
    requires Extends(EMPTY, t, es) && i < |es|
    ensures i < |t.nodes| && (t.nodes[i].AliasRec? <==> es[i].Alias?) && (es[i].Alias? ==> Defines(es[i]) == [])
    ensures es[i].Alias? ==>
              var known := AnchorsAfter(es[..i], map[], 0);
              t.nodes[i].name == es[i].anchor && (es[i].anchor in known ==> t.nodes[i].target == known[es[i].anchor])
  {
    hide AnchorsAfter;
    assert SameKind(t.nodes[|EMPTY.nodes| + i], Made(es[i], AnchorsAfter(es[..i], map[], 0)));
  }

  lemma ResolvesAt(es: seq<Event>, i: nat)
    requires Resolves(es, map[], 0) && i < |es| && es[i].Alias?
    ensures es[i].anchor in AnchorsAfter(es[..i], map[], 0)
  {
    hide Resolves;
    assert es == es[..i] + es[i..];
    ResolvesConcat(es[..i], es[i..], map[], 0);
    ResolvesFirst(es[i..], AnchorsAfter(es[..i], map[], 0), i);
  }

  lemma ResolvesFirst(es: seq<Event>, anchors: map<Text, nat>, id: nat)
    requires Resolves(es, anchors, id) && es != [] && es[0].Alias?
    ensures es[0].anchor in anchors
  {
  }

  lemma {:induction false} ResolvesEarlier(es: seq<Event>, n: nat)
    requires n <= |es|
    ensures Resolves(es[..n], map[], 0) <==>
              forall i | 0 <= i < n && es[i].Alias? ::
                es[i].anchor != [] && exists j | 0 <= j < i :: Defines(es[j]) == es[i].anchor
    decreases n
  {
    if n > 0 {
      var init, last := es[..n - 1], es[n - 1];
      ResolvesEarlier(es, n - 1);
      assert es[..n] == init + [last];
      ResolvesConcat(init, [last], map[], 0);
      assert [last][1..] == [];
      AnchorsAreLatest(init, if last.Alias? then last.anchor else []);
      assert forall j | 0 <= j < n - 1 :: init[j] == es[j];
    }
  }

  // ---- The shape of the graph ----

  /** Children come after their parent and inside the nodes; a mapping has keys and values; an alias
      stands for another kind of node. */
  predicate ValidAt(nodes: seq<Rec>, i: nat)
    requires i < |nodes|
  {
    match nodes[i]
    case SequenceRec(ids) => forall k | 0 <= k < |ids| :: i < ids[k] < |nodes|
    case MappingRec(ids) => |ids| % 2 == 0 && forall k | 0 <= k < |ids| :: i < ids[k] < |nodes|
    case AliasRec(_, target) => target < |nodes| && !nodes[target].AliasRec?
    case ScalarRec(_, _, _) => true
  }

  lemma {:induction false} TreeValid(nodes: seq<Rec>, at: nat, n: Node)
    requires Represents(nodes, at, n) && at + |Starts(n)| <= |nodes|
    requires forall i | 0 <= i < |nodes| && nodes[i].AliasRec? :: nodes[i].target < i && !nodes[nodes[i].target].AliasRec?
    ensures forall i | at <= i < at + |Starts(n)| :: ValidAt(nodes, i)
    decreases n, 0
  {
    match n
    case Leaf(e) =>
    case Sequence(e, items) =>
      ItemsValid(nodes, at + 1, nodes[at].children, items);
    case Mapping(e, pairs) =>
      PairsValid(nodes, at + 1, nodes[at].children, pairs);
  }

  lemma {:induction false} ItemsValid(nodes: seq<Rec>, at: nat, ids: seq<nat>, items: seq<Node>)
    requires RepresentsItems(nodes, at, ids, items) && at + |ItemStarts(items)| <= |nodes|
    requires forall i | 0 <= i < |nodes| && nodes[i].AliasRec? :: nodes[i].target < i && !nodes[nodes[i].target].AliasRec?
    ensures forall i | at <= i < at + |ItemStarts(items)| :: ValidAt(nodes, i)
    ensures forall k | 0 <= k < |ids| :: at <= ids[k] < |nodes|
    decreases items, 0
  {
    if items != [] {
      TreeValid(nodes, at, items[0]);
      ItemsValid(nodes, at + |Starts(items[0])|, ids[1..], items[1..]);
      StartsNotEmpty(items[0]);
      assert forall k | 1 <= k < |ids| :: ids[k] == ids[1..][k - 1];
    }
  }

  lemma {:induction false} PairsValid(nodes: seq<Rec>, at: nat, ids: seq<nat>, pairs: seq<Pair>)
    requires RepresentsPairs(nodes, at, ids, pairs) && at + |PairStarts(pairs)| <= |nodes|
    requires forall i | 0 <= i < |nodes| && nodes[i].AliasRec? :: nodes[i].target < i && !nodes[nodes[i].target].AliasRec?
    ensures forall i | at <= i < at + |PairStarts(pairs)| :: ValidAt(nodes, i)
    ensures |ids| % 2 == 0 && forall k | 0 <= k < |ids| :: at <= ids[k] < |nodes|
    decreases pairs, 0
  {
    if pairs != [] {
      PairValid(nodes, at, ids[0], ids[1], pairs[0]);
      PairsValid(nodes, at + |PairStart(pairs[0])|, ids[2..], pairs[1..]);
      assert forall k | 2 <= k < |ids| :: ids[k] == ids[2..][k - 2];
    }
  }

  lemma {:induction false} PairValid(nodes: seq<Rec>, at: nat, k: nat, v: nat, p: Pair)
    requires RepresentsPair(nodes, at, k, v, p) && at + |PairStart(p)| <= |nodes|
    requires forall i | 0 <= i < |nodes| && nodes[i].AliasRec? :: nodes[i].target < i && !nodes[nodes[i].target].AliasRec?
    ensures forall i | at <= i < at + |PairStart(p)| :: ValidAt(nodes, i)
    ensures at <= k < |nodes| && at <= v < |nodes|
    decreases p, 0
  {
    TreeValid(nodes, k, p.key);
    TreeValid(nodes, v, p.value);
    StartsNotEmpty(p.value);
  }

  /** The graph of a document is one that the decoder can walk. */
  lemma ComposedIsValid(root: Node)
    requires WellFormed(root) && Build(root, EMPTY).Built?
    ensures var nodes := Build(root, EMPTY).store.nodes;
            nodes != [] && forall i | 0 <= i < |nodes| :: ValidAt(nodes, i)
  {
    hide Represents, Build, Starts, ValidAt;
    BuildFaithful(root, EMPTY);
    ComposesFaithfully(root);
    StartsNotEmpty(root);
    TreeValid(Build(root, EMPTY).store.nodes, 0, root);
  }
}
