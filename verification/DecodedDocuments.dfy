/** Documents composed and then decoded: when the graph of a document can be decoded, told from its
    events. */
module DecodedDocuments {
  import opened EventGrammar
  import opened ComposerSpec
  import opened DecoderSpec

  type Resolver = (Text, Text, bool) -> nat

  /** The graph that the composer makes of a document. */
  function GraphOf(root: Node, resolve: Resolver): Graph
    requires WellFormed(root) && Build(root, EMPTY).Built?
  {
    var s := Build(root, EMPTY).store;
    Graph(s.nodes, s.anchors, resolve)
  }

  /** No anchor is given to a second node after an alias has used it. */
  predicate KeepsAnchors(es: seq<Event>) {
    forall i, j | 0 <= i < j < |es| && es[i].Alias? :: Defines(es[j]) != es[i].anchor
  }

  /** The graph of a document is one that the decoder can walk. */
  lemma ComposedGraphIsValid(root: Node, resolve: Resolver)
    requires WellFormed(root) && Build(root, EMPTY).Built?
    ensures ValidGraph(GraphOf(root, resolve)) && GraphOf(root, resolve).nodes != []
  {
    hide Build, Starts, ValidAt, AnchorsAfter, Represents;
    ComposedIsValid(root);
    BuildFaithful(root, EMPTY);
    var es := Starts(root);
    var g := GraphOf(root, resolve);
    forall a | a in g.anchors
      ensures g.anchors[a] < |g.nodes|
    {
      AnchorsAreLatest(es, a);
    }
  }

  lemma NodeOfEvent(root: Node, i: nat)
    requires WellFormed(root) && Build(root, EMPTY).Built? && i < |Starts(root)|
    ensures var t, es := Build(root, EMPTY).store, Starts(root);
            && |t.nodes| == |es| && t.anchors == AnchorsAfter(es, map[], 0)
            && (t.nodes[i].AliasRec? <==> es[i].Alias?) && (es[i].Alias? ==> t.nodes[i].name == es[i].anchor)
  {
    hide Build, Starts, AnchorsAfter, Represents;
    BuildFaithful(root, EMPTY);
    var t, es := Build(root, EMPTY).store, Starts(root);
    assert SameKind(t.nodes[|EMPTY.nodes| + i], Made(es[i], AnchorsAfter(es[..i], map[], 0)));
  }

  /** At an alias the latest node with its anchor and the last one of the document are the same
      exactly if no later node has the anchor. */
  lemma AliasKept(root: Node, resolve: Resolver, i: nat)
    requires WellFormed(root) && Build(root, EMPTY).Built? && i < |Starts(root)| && Starts(root)[i].Alias?
    ensures var g, es := GraphOf(root, resolve), Starts(root);
            && i < |g.nodes| && g.nodes[i].AliasRec?
            && (g.nodes[i].name in g.anchors && g.anchors[g.nodes[i].name] == g.nodes[i].target
                <==> forall j | i < j < |es| :: Defines(es[j]) != es[i].anchor)
  {
    hide Build, Starts, AnchorsAfter, Represents, Resolves, Extends;
    NodeOfEvent(root, i);
    BuildFaithful(root, EMPTY);
    var g, es := GraphOf(root, resolve), Starts(root);
    AliasTarget(es, Build(root, EMPTY).store, i);
    ResolvesAt(es, i);
    AnchorsAreLatest(es[..i], es[i].anchor);
    AnchorsAreLatest(es, es[i].anchor);
    assert Defines(es[g.nodes[i].target]) == es[i].anchor;
    LatestBefore(es, es[i].anchor, i, g.nodes[i].target, g.anchors[es[i].anchor]);
  }

  lemma LatestBefore(es: seq<Event>, a: Text, i: nat, k: nat, last: nat)
    requires k < i < |es| && es[i].Alias? && a != [] && Defines(es[k]) == a && forall j | k < j < i :: Defines(es[j]) != a
    requires last < |es| && Defines(es[last]) == a && forall j | last < j < |es| :: Defines(es[j]) != a
    ensures last == k <==> forall j | i < j < |es| :: Defines(es[j]) != a
  {
    hide Defines;
    AliasDefinesNothing(es[i]);
  }

  lemma AliasDefinesNothing(e: Event)
    ensures e.Alias? ==> Defines(e) == []
  {
  }

  /** Every alias still has the target of its name at the end of the document exactly if the
      document keeps its anchors. */
  lemma UnambiguousIfAnchorsKept(root: Node, resolve: Resolver)
    requires WellFormed(root) && Build(root, EMPTY).Built?
    ensures Unambiguous(GraphOf(root, resolve)) <==> KeepsAnchors(Starts(root))
  {
    hide Build, Starts, AnchorsAfter, Represents;
    var g, es := GraphOf(root, resolve), Starts(root);
    StartsNotEmpty(root);
    NodeOfEvent(root, 0);
    forall i: nat | i < |es|
      ensures g.nodes[i].AliasRec? <==> es[i].Alias?
      ensures es[i].Alias? ==>
                (g.nodes[i].name in g.anchors && g.anchors[g.nodes[i].name] == g.nodes[i].target
                 <==> forall j | i < j < |es| :: Defines(es[j]) != es[i].anchor)
    {
      NodeOfEvent(root, i);
      if es[i].Alias? {
        AliasKept(root, resolve, i);
      }
    }
  }

  /** A document that keeps its anchors is decoded exactly if no alias that is reached reaches itself,
      keys are scalars, and only mappings are merged. */
  lemma DocumentDecodes(root: Node, resolve: Resolver)
    requires WellFormed(root) && Build(root, EMPTY).Built? && KeepsAnchors(Starts(root))
    ensures var g := GraphOf(root, resolve);
            && ValidGraph(g) && g.nodes != []
            && (Unmarshal(g, 0, {}).Ok? <==> !Cyclic(g, 0) && GoodKeys(g, 0) && GoodMerges(g, 0))
  {
    hide GraphOf, Unmarshal, Cyclic, GoodKeys, GoodMerges, KeepsAnchors, ValidGraph, Unambiguous;
    ComposedGraphIsValid(root, resolve);
    UnambiguousIfAnchorsKept(root, resolve);
    UnambiguousDecodes(GraphOf(root, resolve), 0);
  }

  // ---- A document that does not keep its anchors ----

  const A: Text := [0x61]

  function Plainly(anchor: Text, value: Text): Node {
    Leaf(Scalar(anchor, [], value, true, false, Plain))
  }

  /** [&a {}, {<<: *a}, &a 1] */
  const REDEFINED: Node :=
    Sequence(SequenceStart([], [], true, Flow),
             [Mapping(MappingStart(A, [], true, Flow), []),
              Mapping(MappingStart([], [], true, Flow), [Pair(Plainly([], MERGE_KEY), Leaf(Alias(A)))]),
              Plainly(A, [0x31])])

  const REDEFINED_NODES: seq<Rec> :=
    [SequenceRec([1, 2, 5]), MappingRec([]), MappingRec([3, 4]), ScalarRec([], MERGE_KEY, true),
     AliasRec(A, 1), ScalarRec([], [0x31], true)]

  const OPENED := Store([SequenceRec([])], map[])

  const ANCHORED := Store([SequenceRec([]), MappingRec([])], map[A := 1])

  const MERGED :=
    Store([SequenceRec([]), MappingRec([]), MappingRec([3, 4]), ScalarRec([], MERGE_KEY, true), AliasRec(A, 1)], map[A := 1])

  const REDONE :=
    Store([SequenceRec([]), MappingRec([]), MappingRec([3, 4]), ScalarRec([], MERGE_KEY, true), AliasRec(A, 1),
           ScalarRec([], [0x31], true)], map[A := 5])

  lemma RedefinedBuilt()
    ensures WellFormed(REDEFINED) && Build(REDEFINED, EMPTY) == Built(Store(REDEFINED_NODES, map[A := 5]))
  {
    FirstBuilt();
    MergeBuilt();
    LastBuilt();
    var items := REDEFINED.items;
    ThreeBuilt(items[0], items[1], items[2], OPENED, ANCHORED, MERGED, REDONE);
    assert items == [items[0], items[1], items[2]];
    hide BuildItems;
    assert Allocate(EMPTY, SequenceRec([]), []) == OPENED;
    assert REDONE.nodes[0 := SequenceRec([1, 2, 5])] == REDEFINED_NODES;
  }

  lemma ThreeBuilt(a: Node, b: Node, c: Node, s0: Store, s1: Store, s2: Store, s3: Store)
    requires WellFormed(a) && WellFormed(b) && WellFormed(c)
    requires Build(a, s0) == Built(s1) && Build(b, s1) == Built(s2) && Build(c, s2) == Built(s3)
    ensures BuildItems([a, b, c], s0) == BuiltAll(s3, [|s0.nodes|, |s1.nodes|, |s2.nodes|])
  {
    hide Build;
    assert [a, b, c][1..] == [b, c] && [b, c][1..] == [c] && [c][1..] == [];
    assert BuildItems([], s3) == BuiltAll(s3, []);
    assert BuildItems([c], s2) == BuiltAll(s3, [|s2.nodes|]);
    assert BuildItems([b, c], s1) == BuiltAll(s3, [|s1.nodes|, |s2.nodes|]);
  }

  lemma FirstBuilt()
    ensures WellFormed(REDEFINED.items[0]) && Build(REDEFINED.items[0], OPENED) == Built(ANCHORED)
  {
    var s := Allocate(OPENED, MappingRec([]), A);
    assert s == ANCHORED;
    assert BuildPairs([], s) == BuiltAll(s, []);
    assert s.nodes[1 := MappingRec([])] == s.nodes;
  }

  lemma LastBuilt()
    ensures WellFormed(REDEFINED.items[2]) && Build(REDEFINED.items[2], MERGED) == Built(REDONE)
  {
    assert map[A := 1][A := 5] == map[A := 5];
    assert Allocate(MERGED, ScalarRec([], [0x31], true), A) == REDONE;
  }

  lemma MergeBuilt()
    ensures WellFormed(REDEFINED.items[1]) && Build(REDEFINED.items[1], ANCHORED) == Built(MERGED)
  {
    var p := REDEFINED.items[1].pairs[0];
    var t0 := Allocate(ANCHORED, MappingRec([]), []);
    var t1 := Allocate(t0, ScalarRec([], MERGE_KEY, true), []);
    var t2 := Allocate(t1, AliasRec(A, 1), []);
    assert Build(p.key, t0) == Built(t1);
    assert Build(p.value, t1) == Built(t2);
    assert BuildPair(p, t0) == BuiltAll(t2, [3, 4]);
    assert [p][1..] == [];
    assert BuildPairs([], t2) == BuiltAll(t2, []);
    assert BuildPairs([p], t0) == BuiltAll(t2, [3, 4]);
    assert t2.nodes[2 := MappingRec([3, 4])] == MERGED.nodes;
  }

  /** Keeping the anchors is needed. The code looks up the name of a merged alias at the end of the
      document, so it refuses this document, although the alias stands for a mapping and nothing
      else is wrong. */
  lemma RedefinedAnchorStopsMerge(resolve: Resolver)
    ensures WellFormed(REDEFINED) && Build(REDEFINED, EMPTY).Built? && !KeepsAnchors(Starts(REDEFINED))
    ensures var g := GraphOf(REDEFINED, resolve);
            && ValidGraph(g) && g.nodes != [] && Unmarshal(g, 0, {}) == Fail(WantMap)
            && !Cyclic(g, 0) && GoodKeys(g, 0) && GoodMerges(g, 0) && !NamesStand(g, 0)
  {
    RedefinedBuilt();
    var g := GraphOf(REDEFINED, resolve);
    hide Build;
    ComposedGraphIsValid(REDEFINED, resolve);
    RedefinedRefused(g);
    RedefinedGood(g);
    UnambiguousIfAnchorsKept(REDEFINED, resolve);
    assert g.nodes[4].AliasRec?;
    DecodesExactly(g, 0);
  }

  lemma RedefinedRefused(g: Graph)
    requires ValidGraph(g) && g.nodes == REDEFINED_NODES && g.anchors == map[A := 5]
    ensures Unmarshal(g, 0, {}) == Fail(WantMap)
  {
    assert MergeInto(g, 4, map[], {}) == Fail(WantMap);
    assert SetPair(g, 3, 4, 2, map[], {}) == Fail(WantMap);
    assert MappingInto(g, [3, 4], 2, map[], {}) == Fail(WantMap);
    assert Unmarshal(g, 2, {}) == Fail(WantMap);
    assert MappingInto(g, [], 1, map[], {}) == Ok(map[], true);
    assert Unmarshal(g, 1, {}) == Ok(Dict(map[]), true);
    assert [1, 2, 5][1..] == [2, 5];
    assert UnmarshalItems(g, [2, 5], 0, {}) == Fail(WantMap);
    assert UnmarshalItems(g, [1, 2, 5], 0, {}) == Fail(WantMap);
  }

  lemma RedefinedGood(g: Graph)
    requires ValidGraph(g) && g.nodes == REDEFINED_NODES && g.anchors == map[A := 5]
    ensures !Cyclic(g, 0) && GoodKeys(g, 0) && GoodMerges(g, 0)
  {
    hide Reached;
    if Cyclic(g, 0) {
      var a: nat :| Reached(g, 0, a) && g.nodes[a].AliasRec? && Reaches(g, a, a);
      AliasLeadsNowhere(g);
    }
  }

  /** The alias leads to an empty mapping. */
  lemma AliasLeadsNowhere(g: Graph)
    requires ValidGraph(g) && g.nodes == REDEFINED_NODES
    ensures !Reaches(g, 4, 4)
  {
    forall p | |p| >= 2 && p[0] == 4 && p[|p| - 1] == 4
      ensures !Path(g, p)
    {
      NoWayBack(g, p);
    }
  }

  lemma NoWayBack(g: Graph, p: seq<nat>)
    requires ValidGraph(g) && g.nodes == REDEFINED_NODES && |p| >= 2 && p[0] == 4 && p[|p| - 1] == 4
    ensures !Path(g, p)
  {
    if p[1] != 1 {
      assert !Edge(g, p[0], p[1]);
    } else {
      assert !Edge(g, p[1], p[2]);
    }
  }
}
