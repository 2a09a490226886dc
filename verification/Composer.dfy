/** The composer as decode.go has it: recursive methods that take events one by one and add nodes
    to a graph. On the events of a well-bracketed stream it builds what ComposerSpec says and never
    comes to an event that it cannot handle. */
module Composer {
  import opened EventGrammar
  import opened ComposerSpec

  /** Children that have been built, in front of those to come. */
  function Prepend(ids: seq<nat>, r: BuiltAll): BuiltAll {
    match r
    case UnknownAnchors => UnknownAnchors
    case BuiltAll(s, more) => BuiltAll(s, ids + more)
  }

  lemma PrependNothing(r: BuiltAll)
    ensures Prepend([], r) == r
  {
    if r.BuiltAll? {
      assert [] + r.ids == r.ids;
    }
  }

  /** One more item, from the store `s` on. */
  lemma {:induction false} ItemsUnfold(items: seq<Node>, s: Store, ids: seq<nat>)
    requires items != [] && forall i | 0 <= i < |items| :: WellFormed(items[i])
    ensures Prepend(ids, BuildItems(items, s))
         == match Build(items[0], s)
            case UnknownAnchor => UnknownAnchors
            case Built(t) => Prepend(ids + [|s.nodes|], BuildItems(items[1..], t))
  {
    hide Build;
    if Build(items[0], s).Built? {
      var r := BuildItems(items[1..], Build(items[0], s).store);
      if r.BuiltAll? {
        assert ids + ([|s.nodes|] + r.ids) == ids + [|s.nodes|] + r.ids;
      }
    }
  }

  /** One more pair. */
  lemma {:induction false} PairsUnfold(pairs: seq<Pair>, s: Store, ids: seq<nat>)
    requires pairs != [] && forall i | 0 <= i < |pairs| :: WellFormed(pairs[i].key) && WellFormed(pairs[i].value)
    ensures Prepend(ids, BuildPairs(pairs, s))
         == match BuildPair(pairs[0], s)
            case UnknownAnchors => UnknownAnchors
            case BuiltAll(t, two) => Prepend(ids + two, BuildPairs(pairs[1..], t))
  {
    hide BuildPair;
    if BuildPair(pairs[0], s).BuiltAll? {
      var t, two := BuildPair(pairs[0], s).store, BuildPair(pairs[0], s).ids;
      var r := BuildPairs(pairs[1..], t);
      if r.BuiltAll? {
        assert ids + (two + r.ids) == ids + two + r.ids;
      }
    }
  }

  lemma {:induction false} ItemsSplit(items: seq<Node>, rest: seq<Event>)
    requires items != []
    ensures FlattenItems(items) + rest == Flatten(items[0]) + (FlattenItems(items[1..]) + rest)
  {
    hide Flatten;
  }

  lemma {:induction false} PairsSplit(pairs: seq<Pair>, rest: seq<Event>)
    requires pairs != []
    ensures FlattenPairs(pairs) + rest
         == Flatten(pairs[0].key) + (Flatten(pairs[0].value) + (FlattenPairs(pairs[1..]) + rest))
  {
    hide Flatten;
  }

  lemma {:induction false} NodeHead(n: Node, rest: seq<Event>)
    requires WellFormed(n)
    ensures Flatten(n) + rest != [] && StartsNode((Flatten(n) + rest)[0])
    ensures n.Leaf? ==> (Flatten(n) + rest)[0] == n.event && (Flatten(n) + rest)[1..] == rest
    ensures n.Sequence? ==> (Flatten(n) + rest)[0] == n.start && n.start.SequenceStart?
                            && (Flatten(n) + rest)[1..] == FlattenItems(n.items) + ([SequenceEnd] + rest)
    ensures n.Mapping? ==> (Flatten(n) + rest)[0] == n.start && n.start.MappingStart?
                           && (Flatten(n) + rest)[1..] == FlattenPairs(n.pairs) + ([MappingEnd] + rest)
  {
    hide FlattenItems, FlattenPairs;
    match n
    case Leaf(e) =>
    case Sequence(e, items) =>
      assert Flatten(n) + rest == [e] + (FlattenItems(items) + ([SequenceEnd] + rest));
    case Mapping(e, pairs) =>
      assert Flatten(n) + rest == [e] + (FlattenPairs(pairs) + ([MappingEnd] + rest));
  }

  class Parser {
    /** What the event parser delivers. */
    const events: seq<Event>
    var pos: nat
    /** The nodes of the document, and its anchors. */
    var nodes: seq<Rec>
    var anchors: map<Text, nat>

    constructor (events: seq<Event>)
      ensures this.events == events && Next(events) && View() == EMPTY
    {
      this.events := events;
      pos, nodes, anchors := 0, [], map[];
    }

    ghost function View(): Store
      reads this
    {
      Store(nodes, anchors)
    }

    /** The events still to come. */
    ghost predicate Next(es: seq<Event>)
      reads this
    {
      pos <= |events| && events[pos..] == es
    }

    method Peek(ghost es: seq<Event>) returns (e: Event)
      requires Next(es) && es != []
      ensures e == es[0]
    {
      e := events[pos];
    }

    /** Take an event of the kind that is expected. */
    method Expect(ghost es: seq<Event>)
      requires Next(es) && es != []
      modifies this`pos
      ensures Next(es[1..])
    {
      pos := pos + 1;
    }

    /** A new node with an anchor. */
    method Allocate(r: Rec, anchor: Text) returns (id: nat)
      modifies this`nodes, this`anchors
      ensures id == |old(nodes)| && View() == ComposerSpec.Allocate(old(View()), r, anchor)
    {
      id := |nodes|;
      nodes := nodes + [r];
      if anchor != [] {
        anchors := anchors[anchor := id];
      }
    }

    /** Compose the node whose events come next, and leave the others. It fails only for an alias
        without an anchor. */
    method Parse(ghost n: Node, ghost rest: seq<Event>) returns (ok: bool, id: nat)
      requires WellFormed(n) && Next(Flatten(n) + rest)
      modifies this
      ensures ok <==> Build(n, old(View())).Built?
      ensures ok ==> id == |old(nodes)| && View() == Build(n, old(View())).store && Next(rest)
      decreases n, 3
    {
      hide Build, Flatten;
      NodeHead(n, rest);
      var e := Peek(Flatten(n) + rest);
      match e
      case Scalar(_, _, _, _, _, _) => ok, id := ParseScalar(n, rest);
      case Alias(_) => ok, id := ParseAlias(n, rest);
      case MappingStart(_, _, _, _) => ok, id := ParseMapping(n, rest);
      case SequenceStart(_, _, _, _) => ok, id := ParseSequence(n, rest);
    }

    method ParseAlias(ghost n: Node, ghost rest: seq<Event>) returns (ok: bool, id: nat)
      requires WellFormed(n) && Next(Flatten(n) + rest) && n.Leaf? && n.event.Alias?
      modifies this
      ensures ok <==> Build(n, old(View())).Built?
      ensures ok ==> id == |old(nodes)| && View() == Build(n, old(View())).store && Next(rest)
      decreases n, 2
    {
      NodeHead(n, rest);
      var e := Peek(Flatten(n) + rest);
      if e.anchor !in anchors {
        return false, 0;
      }
      Expect(Flatten(n) + rest);
      id := Allocate(AliasRec(e.anchor, anchors[e.anchor]), []);
      ok := true;
    }

    method ParseScalar(ghost n: Node, ghost rest: seq<Event>) returns (ok: bool, id: nat)
      requires WellFormed(n) && Next(Flatten(n) + rest) && n.Leaf? && n.event.Scalar?
      modifies this
      ensures ok <==> Build(n, old(View())).Built?
      ensures ok ==> id == |old(nodes)| && View() == Build(n, old(View())).store && Next(rest)
      decreases n, 2
    {
      NodeHead(n, rest);
      var e := Peek(Flatten(n) + rest);
      id := Allocate(ScalarRec(e.tag, e.value, e.implicit), e.anchor);
      Expect(Flatten(n) + rest);
      ok := true;
    }

    method ParseSequence(ghost n: Node, ghost rest: seq<Event>) returns (ok: bool, id: nat)
      requires WellFormed(n) && Next(Flatten(n) + rest) && n.Sequence?
      modifies this
      ensures ok <==> Build(n, old(View())).Built?
      ensures ok ==> id == |old(nodes)| && View() == Build(n, old(View())).store && Next(rest)
      decreases n, 2
    {
      NodeHead(n, rest);
      var e := Peek(Flatten(n) + rest);
      id := Allocate(SequenceRec([]), e.anchor);
      Expect(Flatten(n) + rest);
      ghost var s := View();
      var children;
      ok, children := ParseItems(n.items, [SequenceEnd] + rest);
      if !ok { return; }
      Expect([SequenceEnd] + rest);
      assert ([SequenceEnd] + rest)[1..] == rest;
      nodes := nodes[id := SequenceRec(children)];
    }

    /** The items up to the end of the sequence. */
    method ParseItems(ghost items: seq<Node>, ghost rest: seq<Event>) returns (ok: bool, children: seq<nat>)
      requires forall i | 0 <= i < |items| :: WellFormed(items[i])
      requires Next(FlattenItems(items) + rest) && rest != [] && rest[0].SequenceEnd?
      modifies this
      ensures ok <==> BuildItems(items, old(View())).BuiltAll?
      ensures ok ==> BuildItems(items, old(View())) == BuiltAll(View(), children) && Next(rest)
      decreases items, 1
    {
      hide BuildItems, Build, FlattenItems, Flatten;
      ghost var todo := items;
      ghost var s := View();
      children := [];
      PrependNothing(BuildItems(items, s));
      ItemsHead(items, rest);
      var e := Peek(FlattenItems(items) + rest);
      while !e.SequenceEnd?
        invariant (forall i | 0 <= i < |todo| :: WellFormed(todo[i])) && |todo| <= |items|
        invariant todo == items[|items| - |todo|..]
        invariant Next(FlattenItems(todo) + rest) && (e.SequenceEnd? <==> todo == [])
        invariant BuildItems(items, s) == Prepend(children, BuildItems(todo, View()))
        decreases |todo|
      {
        ItemsSplit(todo, rest);
        ItemsUnfold(todo, View(), children);
        assert todo[0] == items[|items| - |todo|];
        var child;
        ok, child := Parse(todo[0], FlattenItems(todo[1..]) + rest);
        if !ok { return; }
        children := children + [child];
        todo := todo[1..];
        ItemsHead(todo, rest);
        e := Peek(FlattenItems(todo) + rest);
      }
      NoItems(View(), rest);
      assert children + [] == children;
      ok := true;
    }

    method ParseMapping(ghost n: Node, ghost rest: seq<Event>) returns (ok: bool, id: nat)
      requires WellFormed(n) && Next(Flatten(n) + rest) && n.Mapping?
      modifies this
      ensures ok <==> Build(n, old(View())).Built?
      ensures ok ==> id == |old(nodes)| && View() == Build(n, old(View())).store && Next(rest)
      decreases n, 2
    {
      NodeHead(n, rest);
      var e := Peek(Flatten(n) + rest);
      id := Allocate(MappingRec([]), e.anchor);
      Expect(Flatten(n) + rest);
      ghost var s := View();
      var children;
      ok, children := ParsePairs(n.pairs, [MappingEnd] + rest);
      if !ok { return; }
      Expect([MappingEnd] + rest);
      assert ([MappingEnd] + rest)[1..] == rest;
      nodes := nodes[id := MappingRec(children)];
    }

    method ParsePair(ghost p: Pair, ghost rest: seq<Event>) returns (ok: bool, k: nat, v: nat)
      requires WellFormed(p.key) && WellFormed(p.value) && Next(Flatten(p.key) + (Flatten(p.value) + rest))
      modifies this
      ensures ok <==> BuildPair(p, old(View())).BuiltAll?
      ensures ok ==> BuildPair(p, old(View())) == BuiltAll(View(), [k, v]) && Next(rest)
      decreases p, 0
    {
      hide Build, Flatten;
      v := 0;
      ok, k := Parse(p.key, Flatten(p.value) + rest);
      if !ok { return; }
      ok, v := Parse(p.value, rest);
    }

    /** Keys and values up to the end of the mapping. */
    method ParsePairs(ghost pairs: seq<Pair>, ghost rest: seq<Event>) returns (ok: bool, children: seq<nat>)
      requires forall i | 0 <= i < |pairs| :: WellFormed(pairs[i].key) && WellFormed(pairs[i].value)
      requires Next(FlattenPairs(pairs) + rest) && rest != [] && rest[0].MappingEnd?
      modifies this
      ensures ok <==> BuildPairs(pairs, old(View())).BuiltAll?
      ensures ok ==> BuildPairs(pairs, old(View())) == BuiltAll(View(), children) && Next(rest)
      decreases pairs, 1
    {
      hide BuildPairs, BuildPair, FlattenPairs, Flatten;
      ghost var todo := pairs;
      ghost var s := View();
      children := [];
      PrependNothing(BuildPairs(pairs, s));
      PairsHead(pairs, rest);
      var e := Peek(FlattenPairs(pairs) + rest);
      while !e.MappingEnd?
        invariant (forall i | 0 <= i < |todo| :: WellFormed(todo[i].key) && WellFormed(todo[i].value)) && |todo| <= |pairs|
        invariant todo == pairs[|pairs| - |todo|..]
        invariant Next(FlattenPairs(todo) + rest) && (e.MappingEnd? <==> todo == [])
        invariant BuildPairs(pairs, s) == Prepend(children, BuildPairs(todo, View()))
        decreases |todo|
      {
        PairsSplit(todo, rest);
        PairsUnfold(todo, View(), children);
        ghost var p := todo[0];
        assert p == pairs[|pairs| - |todo|];
        var k, v;
        ok, k, v := ParsePair(pairs[|pairs| - |todo|], FlattenPairs(todo[1..]) + rest);
        if !ok { return; }
        children := children + [k, v];
        todo := todo[1..];
        PairsHead(todo, rest);
        e := Peek(FlattenPairs(todo) + rest);
      }
      NoPairs(View(), rest);
      assert children + [] == children;
      ok := true;
    }

    /** The next document, or that there is none. */
    method ParseDocument(ghost ds: seq<Document>) returns (ok: bool, found: bool, root: nat)
      requires WellFormedStream(ds) && Next(FlattenDocuments(ds) + [StreamEnd])
      modifies this
      ensures found <==> ds != []
      ensures !found ==> ok
      ensures found ==> (ok <==> Build(ds[0].root, EMPTY).Built?)
      ensures found && ok ==>
                root == 0 && View() == Build(ds[0].root, EMPTY).store && Next(FlattenDocuments(ds[1..]) + [StreamEnd])
    {
      hide Build, Flatten;
      root := 0;
      DocumentsHead(ds);
      var e := Peek(FlattenDocuments(ds) + [StreamEnd]);
      if e.StreamEnd? {
        return true, false, 0;
      }
      found := true;
      assert WellFormedDocument(ds[0]);
      Expect(FlattenDocuments(ds) + [StreamEnd]);
      nodes, anchors := [], map[];
      ghost var rest := [ds[0].end] + (FlattenDocuments(ds[1..]) + [StreamEnd]);
      ok, root := Parse(ds[0].root, rest);
      if !ok { return; }
      assert rest[1..] == FlattenDocuments(ds[1..]) + [StreamEnd];
      Expect(rest);
    }
  }

  lemma {:induction false} ItemsHead(items: seq<Node>, rest: seq<Event>)
    requires (forall i | 0 <= i < |items| :: WellFormed(items[i])) && rest != [] && rest[0].SequenceEnd?
    ensures var es := FlattenItems(items) + rest; es != [] && (es[0].SequenceEnd? <==> items == [])
  {
    if items == [] {
      assert FlattenItems(items) + rest == rest;
    } else {
      ItemsSplit(items, rest);
      NodeHead(items[0], FlattenItems(items[1..]) + rest);
    }
    hide Flatten;
  }

  lemma {:induction false} PairsHead(pairs: seq<Pair>, rest: seq<Event>)
    requires forall i | 0 <= i < |pairs| :: WellFormed(pairs[i].key) && WellFormed(pairs[i].value)
    requires rest != [] && rest[0].MappingEnd?
    ensures var es := FlattenPairs(pairs) + rest; es != [] && (es[0].MappingEnd? <==> pairs == [])
  {
    if pairs == [] {
      assert FlattenPairs(pairs) + rest == rest;
    } else {
      PairsSplit(pairs, rest);
      NodeHead(pairs[0].key, Flatten(pairs[0].value) + (FlattenPairs(pairs[1..]) + rest));
    }
    hide Flatten;
  }

  lemma NoItems(s: Store, rest: seq<Event>)
    ensures BuildItems([], s) == BuiltAll(s, []) && FlattenItems([]) + rest == rest
  {
  }

  lemma NoPairs(s: Store, rest: seq<Event>)
    ensures BuildPairs([], s) == BuiltAll(s, []) && FlattenPairs([]) + rest == rest
  {
  }

  lemma {:induction false} DocumentsHead(ds: seq<Document>)
    requires WellFormedStream(ds)
    ensures var es := FlattenDocuments(ds) + [StreamEnd];
            && es != [] && (es[0].StreamEnd? <==> ds == [])
            && (ds != [] ==>
                  es[1..] == Flatten(ds[0].root) + ([ds[0].end] + (FlattenDocuments(ds[1..]) + [StreamEnd])))
  {
    hide Flatten;
    if ds != [] {
      var d := ds[0];
      assert WellFormedDocument(d);
      assert FlattenDocuments(ds) + [StreamEnd]
          == [d.start] + (Flatten(d.root) + ([d.end] + (FlattenDocuments(ds[1..]) + [StreamEnd])));
    }
  }
}
