/** Decoding the node graph into generic values, as decode.go does it: mappings into maps, with
    merge keys; aliases by decoding their target again. */
module DecoderSpec {
  import opened EventGrammar
  import opened ComposerSpec

  /** A document's nodes and anchors, and what the scalars resolve to; zero is nil. */
  datatype Graph = Graph(nodes: seq<Rec>, anchors: map<Text, nat>, resolve: (Text, Text, bool) -> nat)

  ghost predicate ValidGraph(g: Graph) {
    && (forall i | 0 <= i < |g.nodes| :: ValidAt(g.nodes, i))
    && (forall a | a in g.anchors :: g.anchors[a] < |g.nodes|)
  }

  /** Keys of maps are scalars. */
  datatype Value = Atom(code: nat) | List(items: seq<Value>) | Dict(entries: map<nat, Value>)

  /** What decode.go panics with; and NotAMap, which it only notes down before it goes on, and does
      not even note down for nil. */
  datatype Error = ContainsItself | InvalidMapKey | WantMap | NotAMap

  /** A value; it is clean unless a merge that was not refused has come upon something that is not
      a mapping. The code then leaves the map alone and records a type error, but for nil, which
      empties the map. */
  datatype Outcome<T> = Ok(value: T, clean: bool) | Fail(error: Error)

  function AliasIds(g: Graph): set<nat> {
    set i | 0 <= i < |g.nodes| && g.nodes[i].AliasRec?
  }

  /** The alias nodes that are not being decoded. */
  function Free(g: Graph, active: set<nat>): nat {
    |AliasIds(g) - active|
  }

  lemma LessFree(g: Graph, active: set<nat>, id: nat)
    requires id < |g.nodes| && g.nodes[id].AliasRec? && id !in active
    ensures Free(g, active + {id}) < Free(g, active)
  {
    var a := AliasIds(g) - active;
    assert id in a;
    assert AliasIds(g) - (active + {id}) == a - {id};
  }

  const MERGE_KEY: Text := [0x3C, 0x3C]

  const MERGE_TAG: Text :=
    [0x74, 0x61, 0x67, 0x3A, 0x79, 0x61, 0x6D, 0x6C, 0x2E, 0x6F, 0x72, 0x67, 0x2C, 0x32, 0x30, 0x30, 0x32, 0x3A, 0x6D, 0x65, 0x72, 0x67, 0x65]

  /** isMerge. */
  predicate IsMerge(r: Rec) {
    r.ScalarRec? && r.value == MERGE_KEY && (r.implicit || r.tag == MERGE_TAG)
  }

  predicate Below(g: Graph, ids: seq<nat>, parent: nat) {
    forall k | 0 <= k < |ids| :: parent < ids[k] < |g.nodes|
  }

  function Resolve(g: Graph, r: Rec): nat
    requires r.ScalarRec?
  {
    g.resolve(r.tag, r.value, r.implicit)
  }

  /** Decode a node into a new generic value. */
  function Unmarshal(g: Graph, id: nat, active: set<nat>): Outcome<Value>
    requires ValidGraph(g) && id < |g.nodes|
    decreases Free(g, active), |g.nodes| - id, 0, 0
  {
    assert ValidAt(g.nodes, id);
    var r := g.nodes[id];
    match r
    case ScalarRec(_, _, _) => Ok(Atom(Resolve(g, r)), true)
    case AliasRec(_, target) =>
      if id in active then Fail(ContainsItself)
      else
        LessFree(g, active, id);
        Unmarshal(g, target, active + {id})
    case SequenceRec(ids) =>
      (match UnmarshalItems(g, ids, id, active)
       case Fail(e) => Fail(e)
       case Ok(items, clean) => Ok(List(items), clean))
    case MappingRec(ids) =>
      (match MappingInto(g, ids, id, map[], active)
       case Fail(e) => Fail(e)
       case Ok(m, clean) => Ok(Dict(m), clean))
  }

  function UnmarshalItems(g: Graph, ids: seq<nat>, parent: nat, active: set<nat>): Outcome<seq<Value>>
    requires ValidGraph(g) && parent < |g.nodes| && Below(g, ids, parent)
    decreases Free(g, active), |g.nodes| - parent - 1, 2, |ids|
  {
    if ids == [] then Ok([], true)
    else
      match Unmarshal(g, ids[0], active)
      case Fail(e) => Fail(e)
      case Ok(v, c) =>
        (match UnmarshalItems(g, ids[1..], parent, active)
         case Fail(e) => Fail(e)
         case Ok(vs, c') => Ok([v] + vs, c && c'))
  }

  /** The keys and values of a mapping, set one after the other in a map. */
  function MappingInto(g: Graph, ids: seq<nat>, parent: nat, m: map<nat, Value>, active: set<nat>): Outcome<map<nat, Value>>
    requires ValidGraph(g) && parent < |g.nodes| && Below(g, ids, parent) && |ids| % 2 == 0
    decreases Free(g, active), |g.nodes| - parent - 1, 3, |ids|
  {
    if ids == [] then Ok(m, true)
    else
      match SetPair(g, ids[0], ids[1], parent, m, active)
      case Fail(e) => Fail(e)
      case Ok(m', c) =>
        (match MappingInto(g, ids[2..], parent, m', active)
         case Fail(e) => Fail(e)
         case Ok(r, c') => Ok(r, c && c'))
  }

  function SetPair(g: Graph, k: nat, v: nat, parent: nat, m: map<nat, Value>, active: set<nat>): Outcome<map<nat, Value>>
    requires ValidGraph(g) && parent < k < |g.nodes| && parent < v < |g.nodes|
    decreases Free(g, active), |g.nodes| - parent - 1, 2, 0
  {
    if IsMerge(g.nodes[k]) then MergeInto(g, v, m, active)
    else
      match Unmarshal(g, k, active)
      case Fail(e) => Fail(e)
      case Ok(key, c) =>
        if !key.Atom? then Fail(InvalidMapKey)
        else
          match Unmarshal(g, v, active)
          case Fail(e) => Fail(e)
          case Ok(value, c') => Ok(m[key.code := value], c && c')
  }

  /** Decode a node into an existing map. What is not a mapping leaves the map alone, but for nil,
      which empties it. */
  function UnmarshalInto(g: Graph, id: nat, m: map<nat, Value>, active: set<nat>): Outcome<map<nat, Value>>
    requires ValidGraph(g) && id < |g.nodes|
    decreases Free(g, active), |g.nodes| - id, 0, 0
  {
    assert ValidAt(g.nodes, id);
    var r := g.nodes[id];
    match r
    case ScalarRec(_, _, _) => Ok(if Resolve(g, r) == 0 then map[] else m, false)
    case AliasRec(_, target) =>
      if id in active then Fail(ContainsItself)
      else
        LessFree(g, active, id);
        UnmarshalInto(g, target, m, active + {id})
    case SequenceRec(_) => Ok(m, false)
    case MappingRec(ids) => MappingInto(g, ids, id, m, active)
  }

  /** The node that the anchor of an alias has at the end of the document is a mapping, if any. */
  predicate NamesMap(g: Graph, name: Text)
    requires forall a | a in g.anchors :: g.anchors[a] < |g.nodes|
  {
    name in g.anchors ==> g.nodes[g.anchors[name]].MappingRec?
  }

  /** The value of a merge key. */
  function MergeInto(g: Graph, id: nat, m: map<nat, Value>, active: set<nat>): Outcome<map<nat, Value>>
    requires ValidGraph(g) && id < |g.nodes|
    decreases Free(g, active), |g.nodes| - id, 1, 0
  {
    assert ValidAt(g.nodes, id);
    match g.nodes[id]
    case MappingRec(_) => UnmarshalInto(g, id, m, active)
    case AliasRec(name, _) => if NamesMap(g, name) then UnmarshalInto(g, id, m, active) else Fail(WantMap)
    case SequenceRec(ids) => MergeList(g, ids, id, m, active)
    case ScalarRec(_, _, _) => Fail(WantMap)
  }

  predicate CanMerge(g: Graph, r: Rec)
    requires forall a | a in g.anchors :: g.anchors[a] < |g.nodes|
  {
    if r.AliasRec? then NamesMap(g, r.name) else r.MappingRec?
  }

  /** A list of mappings, from its end. */
  function MergeList(g: Graph, ids: seq<nat>, parent: nat, m: map<nat, Value>, active: set<nat>): Outcome<map<nat, Value>>
    requires ValidGraph(g) && parent < |g.nodes| && Below(g, ids, parent)
    decreases Free(g, active), |g.nodes| - parent - 1, 2, |ids|
  {
    if ids == [] then Ok(m, true)
    else
      var n := |ids| - 1;
      if !CanMerge(g, g.nodes[ids[n]]) then Fail(WantMap)
      else
        match UnmarshalInto(g, ids[n], m, active)
        case Fail(e) => Fail(e)
        case Ok(m', c) =>
          (match MergeList(g, ids[..n], parent, m', active)
           case Fail(e) => Fail(e)
           case Ok(r, c') => Ok(r, c && c'))
  }

  // ---- Merging is overriding ----

  /** Decoding into a map is decoding into an empty map and putting the result over the first. */
  ghost predicate Overrides(into: Outcome<map<nat, Value>>, alone: Outcome<map<nat, Value>>, m: map<nat, Value>) {
    match alone
    case Fail(e) => into == Fail(e)
    case Ok(d, c) => into.Ok? && into.clean == c && (c ==> into.value == m + d)
  }

  lemma {:induction false} IntoOverrides(g: Graph, id: nat, m: map<nat, Value>, active: set<nat>)
    requires ValidGraph(g) && id < |g.nodes|
    ensures Overrides(UnmarshalInto(g, id, m, active), UnmarshalInto(g, id, map[], active), m)
    decreases Free(g, active), |g.nodes| - id, 0, 0
  {
    assert ValidAt(g.nodes, id);
    match g.nodes[id]
    case ScalarRec(_, _, _) =>
    case AliasRec(_, target) =>
      if id !in active {
        LessFree(g, active, id);
        IntoOverrides(g, target, m, active + {id});
      }
    case SequenceRec(_) =>
    case MappingRec(ids) => MappingOverrides(g, ids, id, m, active);
  }

  lemma OverTwice(m: map<nat, Value>, a: map<nat, Value>, b: map<nat, Value>)
    ensures (m + a) + b == m + (a + b)
  {
  }

  lemma {:induction false} MappingOverrides(g: Graph, ids: seq<nat>, parent: nat, m: map<nat, Value>, active: set<nat>)
    requires ValidGraph(g) && parent < |g.nodes| && Below(g, ids, parent) && |ids| % 2 == 0
    ensures Overrides(MappingInto(g, ids, parent, m, active), MappingInto(g, ids, parent, map[], active), m)
    decreases Free(g, active), |g.nodes| - parent - 1, 3, |ids|
  {
    hide SetPair;
    if ids == [] {
      assert m + map[] == m;
    } else {
      PairOverrides(g, ids[0], ids[1], parent, m, active);
      var a := SetPair(g, ids[0], ids[1], parent, map[], active);
      var b := SetPair(g, ids[0], ids[1], parent, m, active);
      if a.Ok? {
        MappingOverrides(g, ids[2..], parent, a.value, active);
        MappingOverrides(g, ids[2..], parent, b.value, active);
        var alone := MappingInto(g, ids[2..], parent, map[], active);
        if alone.Ok? {
          OverTwice(m, a.value, alone.value);
        }
      }
    }
  }

  lemma {:induction false} PairOverrides(g: Graph, k: nat, v: nat, parent: nat, m: map<nat, Value>, active: set<nat>)
    requires ValidGraph(g) && parent < k < |g.nodes| && parent < v < |g.nodes|
    ensures Overrides(SetPair(g, k, v, parent, m, active), SetPair(g, k, v, parent, map[], active), m)
    decreases Free(g, active), |g.nodes| - parent - 1, 2, 0
  {
    hide Unmarshal, MergeInto;
    if IsMerge(g.nodes[k]) {
      MergeOverrides(g, v, m, active);
    }
  }

  lemma {:induction false} MergeOverrides(g: Graph, id: nat, m: map<nat, Value>, active: set<nat>)
    requires ValidGraph(g) && id < |g.nodes|
    ensures Overrides(MergeInto(g, id, m, active), MergeInto(g, id, map[], active), m)
    decreases Free(g, active), |g.nodes| - id, 1, 0
  {
    hide UnmarshalInto;
    assert ValidAt(g.nodes, id);
    match g.nodes[id]
    case MappingRec(_) => IntoOverrides(g, id, m, active);
    case AliasRec(_, _) => IntoOverrides(g, id, m, active);
    case SequenceRec(ids) => ListOverrides(g, ids, id, m, active);
    case ScalarRec(_, _, _) =>
  }

  lemma {:induction false} ListOverrides(g: Graph, ids: seq<nat>, parent: nat, m: map<nat, Value>, active: set<nat>)
    requires ValidGraph(g) && parent < |g.nodes| && Below(g, ids, parent)
    ensures Overrides(MergeList(g, ids, parent, m, active), MergeList(g, ids, parent, map[], active), m)
    decreases Free(g, active), |g.nodes| - parent - 1, 2, |ids|
  {
    hide UnmarshalInto;
    if ids == [] {
      assert m + map[] == m;
    } else {
      var n := |ids| - 1;
      IntoOverrides(g, ids[n], m, active);
      var a := UnmarshalInto(g, ids[n], map[], active);
      var b := UnmarshalInto(g, ids[n], m, active);
      if a.Ok? {
        ListOverrides(g, ids[..n], parent, a.value, active);
        ListOverrides(g, ids[..n], parent, b.value, active);
        var alone := MergeList(g, ids[..n], parent, map[], active);
        if alone.Ok? {
          OverTwice(m, a.value, alone.value);
        }
      }
    }
  }

  /** What one pair contributes by itself: the mappings that it merges, or the value of its second
      node for what the scalar at or behind its first node resolves to. */
  function Contribution(g: Graph, k: nat, v: nat, active: set<nat>): map<nat, Value>
    requires ValidGraph(g) && k < |g.nodes| && v < |g.nodes|
  {
    var key := g.nodes[Behind(g, k)];
    if IsMerge(g.nodes[k]) then
      match MergeInto(g, v, map[], active)
      case Ok(d, _) => d
      case Fail(_) => map[]
    else if !key.ScalarRec? then map[]
    else
      match Unmarshal(g, v, active)
      case Ok(value, _) => map[Resolve(g, key) := value]
      case Fail(_) => map[]
  }

  lemma PairContributes(g: Graph, k: nat, v: nat, parent: nat, active: set<nat>)
    requires ValidGraph(g) && parent < k < |g.nodes| && parent < v < |g.nodes|
    requires SetPair(g, k, v, parent, map[], active).Ok?
    ensures SetPair(g, k, v, parent, map[], active).value == Contribution(g, k, v, active)
  {
    hide Unmarshal, MergeInto;
    if !IsMerge(g.nodes[k]) {
      ScalarIsAtom(g, k, active);
    }
  }

  /** Later contributions over earlier ones. */
  function Fold(g: Graph, ids: seq<nat>, parent: nat, active: set<nat>): map<nat, Value>
    requires ValidGraph(g) && parent < |g.nodes| && Below(g, ids, parent) && |ids| % 2 == 0
  {
    if ids == [] then map[]
    else
      Contribution(g, ids[0], ids[1], active) + Fold(g, ids[2..], parent, active)
  }

  /** A mapping is the fold of what its pairs contribute, from left to right: keys written after a
      merge key go over merged ones, and keys written before it under them. */
  lemma {:induction false} MappingIsFold(g: Graph, ids: seq<nat>, parent: nat, m: map<nat, Value>, active: set<nat>)
    requires ValidGraph(g) && parent < |g.nodes| && Below(g, ids, parent) && |ids| % 2 == 0
    ensures var r := MappingInto(g, ids, parent, m, active);
            r.Ok? && r.clean ==> r.value == m + Fold(g, ids, parent, active)
    decreases |ids|
  {
    hide SetPair, Contribution;
    if ids == [] {
      assert m + map[] == m;
    } else {
      PairOverrides(g, ids[0], ids[1], parent, m, active);
      var a := SetPair(g, ids[0], ids[1], parent, map[], active);
      var b := SetPair(g, ids[0], ids[1], parent, m, active);
      if b.Ok? {
        PairContributes(g, ids[0], ids[1], parent, active);
        MappingIsFold(g, ids[2..], parent, b.value, active);
        OverTwice(m, a.value, Fold(g, ids[2..], parent, active));
      }
    }
  }

  /** The map of one mapping of a merge list. */
  function Merged(g: Graph, id: nat, active: set<nat>): map<nat, Value>
    requires ValidGraph(g) && id < |g.nodes|
  {
    match UnmarshalInto(g, id, map[], active)
    case Ok(d, _) => d
    case Fail(_) => map[]
  }

  /** In a list of mappings to merge, the first one that has a key gives its value; a key that
      none has is as it was. */
  lemma {:induction false} EarliestWins(g: Graph, ids: seq<nat>, parent: nat, m: map<nat, Value>, active: set<nat>, key: nat)
    requires ValidGraph(g) && parent < |g.nodes| && Below(g, ids, parent)
    requires var r := MergeList(g, ids, parent, m, active); r.Ok? && r.clean
    ensures var r := MergeList(g, ids, parent, m, active).value;
            && (forall i | 0 <= i < |ids| && key in Merged(g, ids[i], active)
                  && (forall j | 0 <= j < i :: key !in Merged(g, ids[j], active)) ::
                  key in r && r[key] == Merged(g, ids[i], active)[key])
            && ((forall i | 0 <= i < |ids| :: key !in Merged(g, ids[i], active)) ==>
                  (key in r <==> key in m) && (key in r ==> r[key] == m[key]))
    decreases |ids|
  {
    hide UnmarshalInto;
    if ids != [] {
      var n := |ids| - 1;
      IntoOverrides(g, ids[n], m, active);
      var m' := UnmarshalInto(g, ids[n], m, active).value;
      EarliestWins(g, ids[..n], parent, m', active, key);
      assert forall i | 0 <= i < n :: ids[..n][i] == ids[i];
    }
  }

  // ---- Cycles ----

  /** Nodes that decoding goes to from a node. */
  predicate Edge(g: Graph, x: nat, y: nat) {
    && x < |g.nodes| && y < |g.nodes|
    && match g.nodes[x]
       case AliasRec(_, target) => y == target
       case SequenceRec(ids) => y in ids
       case MappingRec(ids) => y in ids
       case ScalarRec(_, _, _) => false
  }

  /** A way along the edges, of at least one. */
  ghost predicate Path(g: Graph, p: seq<nat>) {
    |p| >= 2 && forall i | 0 <= i < |p| - 1 :: Edge(g, p[i], p[i + 1])
  }

  ghost predicate Reaches(g: Graph, x: nat, y: nat) {
    exists p :: Path(g, p) && p[0] == x && p[|p| - 1] == y
  }

  lemma EdgeReaches(g: Graph, x: nat, y: nat)
    requires Edge(g, x, y)
    ensures Reaches(g, x, y)
  {
    var p := [x, y];
    assert Path(g, p) && p[0] == x && p[|p| - 1] == y;
  }

  lemma ReachesOn(g: Graph, x: nat, y: nat, z: nat)
    requires Reaches(g, x, y) && Edge(g, y, z)
    ensures Reaches(g, x, z)
  {
    var p :| Path(g, p) && p[0] == x && p[|p| - 1] == y;
    var q := p + [z];
    assert Path(g, q) && q[0] == x && q[|q| - 1] == z;
  }

  lemma ReachesFrom(g: Graph, x: nat, y: nat, z: nat)
    requires Edge(g, x, y) && Reaches(g, y, z)
    ensures Reaches(g, x, z)
  {
    var p :| Path(g, p) && p[0] == y && p[|p| - 1] == z;
    var q := [x] + p;
    assert forall i | 0 < i < |q| - 1 :: q[i] == p[i - 1] && q[i + 1] == p[i];
    assert Path(g, q) && q[0] == x && q[|q| - 1] == z;
  }

  ghost predicate Reached(g: Graph, id: nat, x: nat): (r: bool)
    ensures r ==> x < |g.nodes|
  {
    x < |g.nodes| && (x == id || Reaches(g, id, x))
  }

  lemma ReachedFrom(g: Graph, x: nat, y: nat, z: nat)
    requires Edge(g, x, y) && Reached(g, y, z)
    ensures Reached(g, x, z)
  {
    hide Reaches;
    if z == y {
      EdgeReaches(g, x, y);
    } else {
      ReachesFrom(g, x, y, z);
    }
  }

  // ---- What decoding stumbles over ----

  /** Node `k` is a key of the mapping `x` and node `v` its value. */
  predicate IsPair(g: Graph, x: nat, k: nat, v: nat): (r: bool)
    ensures r ==> x < |g.nodes| && g.nodes[x].MappingRec? && k < |g.nodes| && v < |g.nodes|
  {
    && x < |g.nodes| && g.nodes[x].MappingRec? && k < |g.nodes| && v < |g.nodes|
    && exists j | 0 <= j < |g.nodes[x].children| - 1 && j % 2 == 0 ::
         g.nodes[x].children[j] == k && g.nodes[x].children[j + 1] == v
  }

  /** The node, or what it is an alias of. */
  function Behind(g: Graph, id: nat): (r: nat)
    requires (forall i | 0 <= i < |g.nodes| :: ValidAt(g.nodes, i)) && id < |g.nodes|
    ensures r < |g.nodes| && !g.nodes[r].AliasRec?
  {
    assert ValidAt(g.nodes, id);
    if g.nodes[id].AliasRec? then g.nodes[id].target else id
  }

  /** A mapping, or an alias of one. */
  predicate IsMapping(g: Graph, id: nat)
    requires (forall i | 0 <= i < |g.nodes| :: ValidAt(g.nodes, i)) && id < |g.nodes|
  {
    g.nodes[Behind(g, id)].MappingRec?
  }

  /** What the value of a merge key has to be merged: the value itself, or the items of a list. */
  function MergeItems(g: Graph, v: nat): (ids: seq<nat>)
    requires (forall i | 0 <= i < |g.nodes| :: ValidAt(g.nodes, i)) && v < |g.nodes|
    ensures forall y | y in ids :: y < |g.nodes|
  {
    assert ValidAt(g.nodes, v);
    if g.nodes[v].SequenceRec? then g.nodes[v].children else [v]
  }

  /** What is wrong with one pair of a mapping. */
  ghost predicate PairFlaw(g: Graph, e: Error, k: nat, v: nat)
    requires ValidGraph(g) && k < |g.nodes| && v < |g.nodes|
  {
    match e
    case ContainsItself => false
    case InvalidMapKey => !IsMerge(g.nodes[k]) && !g.nodes[Behind(g, k)].ScalarRec?
    case WantMap => IsMerge(g.nodes[k]) && exists y :: y in MergeItems(g, v) && !CanMerge(g, g.nodes[y])
    case NotAMap =>
      IsMerge(g.nodes[k]) && exists y :: y in MergeItems(g, v) && CanMerge(g, g.nodes[y]) && !IsMapping(g, y)
  }

  ghost predicate FlawAt(g: Graph, e: Error, x: nat)
    requires ValidGraph(g) && x < |g.nodes|
  {
    if e.ContainsItself? then g.nodes[x].AliasRec? && Reaches(g, x, x)
    else exists k: nat, v: nat :: IsPair(g, x, k, v) && PairFlaw(g, e, k, v)
  }

  /** Some node with the flaw is at the node or reached from it. */
  ghost predicate Flawed(g: Graph, e: Error, id: nat)
    requires ValidGraph(g)
  {
    exists x: nat :: Reached(g, id, x) && FlawAt(g, e, x)
  }

  lemma FlawedHere(g: Graph, e: Error, id: nat, k: nat, v: nat)
    requires ValidGraph(g) && IsPair(g, id, k, v) && PairFlaw(g, e, k, v)
    ensures Flawed(g, e, id)
  {
    assert Reached(g, id, id);
    assert FlawAt(g, e, id);
  }

  lemma FlawedFrom(g: Graph, e: Error, x: nat, y: nat)
    requires ValidGraph(g) && Edge(g, x, y)
    ensures Flawed(g, e, y) ==> Flawed(g, e, x)
  {
    hide Reached, FlawAt;
    if Flawed(g, e, y) {
      var z: nat :| Reached(g, y, z) && FlawAt(g, e, z);
      ReachedFrom(g, x, y, z);
    }
  }

  /** Some alias that reaches itself is at the node or reached from it. */
  ghost predicate Cyclic(g: Graph, id: nat) {
    exists a: nat :: Reached(g, id, a) && g.nodes[a].AliasRec? && Reaches(g, a, a)
  }

  /** Every key that is reached, other than a merge key, is a scalar or an alias of one. */
  ghost predicate GoodKeys(g: Graph, id: nat)
    requires ValidGraph(g)
  {
    forall x: nat, k: nat, v: nat | Reached(g, id, x) && IsPair(g, x, k, v) && !IsMerge(g.nodes[k]) :: g.nodes[Behind(g, k)].ScalarRec?
  }

  /** Whatever is to be merged is a mapping or an alias of one. */
  ghost predicate GoodMerges(g: Graph, id: nat)
    requires ValidGraph(g)
  {
    forall x: nat, k: nat, v: nat, y | Reached(g, id, x) && IsPair(g, x, k, v) && IsMerge(g.nodes[k]) && y in MergeItems(g, v) :: IsMapping(g, y)
  }

  /** The names of merged aliases stand for mappings still at the end of the document. */
  ghost predicate NamesStand(g: Graph, id: nat)
    requires ValidGraph(g)
  {
    forall x: nat, k: nat, v: nat, y | Reached(g, id, x) && IsPair(g, x, k, v) && IsMerge(g.nodes[k]) && y in MergeItems(g, v)
                        && g.nodes[y].AliasRec? && g.nodes[y].name in g.anchors ::
      g.nodes[g.anchors[g.nodes[y].name]].MappingRec?
  }

  /** What is good is what has no flaw. */
  lemma GoodHasNoFlaw(g: Graph, id: nat)
    requires ValidGraph(g)
    ensures Cyclic(g, id) <==> Flawed(g, ContainsItself, id)
    ensures GoodKeys(g, id) <==> !Flawed(g, InvalidMapKey, id)
    ensures GoodMerges(g, id) && NamesStand(g, id) <==> !Flawed(g, WantMap, id) && !Flawed(g, NotAMap, id)
  {
    hide Reached, Reaches, IsPair, IsMerge, Behind, MergeItems;
    KeysHaveNoFlaw(g, id);
    MergesHaveNoFlaw(g, id);
    if Cyclic(g, id) {
      var a: nat :| Reached(g, id, a) && g.nodes[a].AliasRec? && Reaches(g, a, a);
      assert FlawAt(g, ContainsItself, a);
    }
    if Flawed(g, ContainsItself, id) {
      var a: nat :| Reached(g, id, a) && FlawAt(g, ContainsItself, a);
    }
  }

  lemma KeysHaveNoFlaw(g: Graph, id: nat)
    requires ValidGraph(g)
    ensures GoodKeys(g, id) <==> !Flawed(g, InvalidMapKey, id)
  {
    hide Reached, IsPair, IsMerge, Behind;
    if Flawed(g, InvalidMapKey, id) {
      var x: nat :| Reached(g, id, x) && FlawAt(g, InvalidMapKey, x);
      var k: nat, v: nat :| IsPair(g, x, k, v) && PairFlaw(g, InvalidMapKey, k, v);
      assert !GoodKeys(g, id);
    } else {
      forall x: nat, k: nat, v: nat | Reached(g, id, x) && IsPair(g, x, k, v) && !IsMerge(g.nodes[k])
        ensures g.nodes[Behind(g, k)].ScalarRec?
      {
        if !g.nodes[Behind(g, k)].ScalarRec? {
          KeyFlawed(g, id, x, k, v);
        }
      }
    }
  }

  lemma KeyFlawed(g: Graph, id: nat, x: nat, k: nat, v: nat)
    requires ValidGraph(g) && Reached(g, id, x) && IsPair(g, x, k, v) && !IsMerge(g.nodes[k])
    requires !g.nodes[Behind(g, k)].ScalarRec?
    ensures Flawed(g, InvalidMapKey, id)
  {
    hide Reached, IsPair, IsMerge, Behind;
    assert PairFlaw(g, InvalidMapKey, k, v);
    assert FlawAt(g, InvalidMapKey, x);
  }

  lemma MergesHaveNoFlaw(g: Graph, id: nat)
    requires ValidGraph(g)
    ensures GoodMerges(g, id) && NamesStand(g, id) <==> !Flawed(g, WantMap, id) && !Flawed(g, NotAMap, id)
  {
    hide Reached, IsPair, IsMerge, MergeItems;
    if Flawed(g, WantMap, id) || Flawed(g, NotAMap, id) {
      var e := if Flawed(g, WantMap, id) then WantMap else NotAMap;
      var x: nat :| Reached(g, id, x) && FlawAt(g, e, x);
      var k: nat, v: nat :| IsPair(g, x, k, v) && PairFlaw(g, e, k, v);
      var y :| y in MergeItems(g, v) && (!CanMerge(g, g.nodes[y]) || !IsMapping(g, y));
      MergeFlaw(g, id, x, k, v, y);
    } else {
      forall x: nat, k: nat, v: nat, y | Reached(g, id, x) && IsPair(g, x, k, v) && IsMerge(g.nodes[k]) && y in MergeItems(g, v)
        ensures IsMapping(g, y) && (g.nodes[y].AliasRec? ==> NamesMap(g, g.nodes[y].name))
      {
        if !CanMerge(g, g.nodes[y]) || !IsMapping(g, y) {
          MergeFlawed(g, id, x, k, v, y);
        }
      }
    }
  }

  lemma MergeFlaw(g: Graph, id: nat, x: nat, k: nat, v: nat, y: nat)
    requires ValidGraph(g) && Reached(g, id, x) && IsPair(g, x, k, v) && IsMerge(g.nodes[k]) && y in MergeItems(g, v)
    requires !CanMerge(g, g.nodes[y]) || !IsMapping(g, y)
    ensures !GoodMerges(g, id) || !NamesStand(g, id)
  {
    hide Reached, IsPair, IsMerge, MergeItems;
  }

  lemma MergeFlawed(g: Graph, id: nat, x: nat, k: nat, v: nat, y: nat)
    requires ValidGraph(g) && Reached(g, id, x) && IsPair(g, x, k, v) && IsMerge(g.nodes[k]) && y in MergeItems(g, v)
    requires !CanMerge(g, g.nodes[y]) || !IsMapping(g, y)
    ensures Flawed(g, WantMap, id) || Flawed(g, NotAMap, id)
  {
    hide Reached, IsPair, IsMerge, MergeItems, NamesMap;
    if !CanMerge(g, g.nodes[y]) {
      assert PairFlaw(g, WantMap, k, v);
      assert FlawAt(g, WantMap, x);
    } else {
      assert PairFlaw(g, NotAMap, k, v);
      assert FlawAt(g, NotAMap, x);
    }
  }

  /** The aliases that are being decoded all lead to the node. */
  ghost predicate Chain(g: Graph, active: set<nat>, id: nat) {
    forall a | a in active :: a < |g.nodes| && g.nodes[a].AliasRec? && Reaches(g, a, id)
  }

  lemma ChainOn(g: Graph, active: set<nat>, x: nat, y: nat)
    requires Chain(g, active, x) && Edge(g, x, y)
    ensures Chain(g, active, y)
    ensures g.nodes[x].AliasRec? ==> Chain(g, active + {x}, y)
  {
    hide Reaches;
    forall a | a in active
      ensures Reaches(g, a, y)
    {
      ReachesOn(g, a, x, y);
    }
    EdgeReaches(g, x, y);
  }

  /** The children are among those of the parent. */
  predicate Children(g: Graph, ids: seq<nat>, parent: nat) {
    forall k | 0 <= k < |ids| :: Edge(g, parent, ids[k])
  }

  /** They are keys and values of the parent. */
  predicate Pairs(g: Graph, ids: seq<nat>, parent: nat) {
    forall j | 0 <= j < |ids| - 1 && j % 2 == 0 :: IsPair(g, parent, ids[j], ids[j + 1])
  }

  lemma PairsOn(g: Graph, ids: seq<nat>, parent: nat)
    requires Pairs(g, ids, parent) && |ids| >= 2
    ensures IsPair(g, parent, ids[0], ids[1]) && Pairs(g, ids[2..], parent)
  {
    hide IsPair;
    var rest := ids[2..];
    forall j | 0 <= j < |rest| - 1 && j % 2 == 0
      ensures IsPair(g, parent, rest[j], rest[j + 1])
    {
      assert rest[j] == ids[j + 2] && rest[j + 1] == ids[j + 3];
    }
  }

  lemma PairEdges(g: Graph, x: nat, k: nat, v: nat)
    requires IsPair(g, x, k, v)
    ensures Edge(g, x, k) && Edge(g, x, v)
  {
  }

  lemma AllPairs(g: Graph, x: nat)
    requires ValidGraph(g) && x < |g.nodes| && g.nodes[x].MappingRec?
    ensures Pairs(g, g.nodes[x].children, x)
  {
    assert ValidAt(g.nodes, x);
  }

  /** An outcome that is not a clean value has a reason that can be reached. */
  ghost predicate Rightly<T>(g: Graph, id: nat, r: Outcome<T>)
    requires ValidGraph(g)
  {
    (r.Fail? ==> Flawed(g, r.error, id)) && (r.Ok? && !r.clean ==> Flawed(g, NotAMap, id))
  }

  lemma RightlyFrom<T>(g: Graph, x: nat, y: nat, r: Outcome<T>)
    requires ValidGraph(g) && Edge(g, x, y) && Rightly(g, y, r)
    ensures Rightly(g, x, r)
  {
    hide Flawed;
    if r.Fail? { FlawedFrom(g, r.error, x, y); }
    FlawedFrom(g, NotAMap, x, y);
  }

  lemma {:induction false} UnmarshalRightly(g: Graph, id: nat, active: set<nat>)
    requires ValidGraph(g) && id < |g.nodes| && Chain(g, active, id)
    ensures Rightly(g, id, Unmarshal(g, id, active))
    decreases Free(g, active), |g.nodes| - id, 0, 0
  {
    hide Reaches, Flawed, Chain, Free, Pairs;
    assert ValidAt(g.nodes, id);
    match g.nodes[id]
    case ScalarRec(_, _, _) =>
    case AliasRec(_, target) =>
      if id in active {
        ActiveCycle(g, active, id);
      } else {
        LessFree(g, active, id);
        ChainOn(g, active, id, target);
        UnmarshalRightly(g, target, active + {id});
        RightlyFrom(g, id, target, Unmarshal(g, target, active + {id}));
      }
    case SequenceRec(ids) => ItemsRightly(g, ids, id, active);
    case MappingRec(ids) =>
      AllPairs(g, id);
      MappingRightly(g, ids, id, map[], active);
  }

  lemma ActiveCycle(g: Graph, active: set<nat>, id: nat)
    requires ValidGraph(g) && Chain(g, active, id) && id in active
    ensures Flawed(g, ContainsItself, id)
  {
    hide Reaches;
    assert Reached(g, id, id);
    assert FlawAt(g, ContainsItself, id);
  }

  lemma {:induction false} ItemsRightly(g: Graph, ids: seq<nat>, parent: nat, active: set<nat>)
    requires ValidGraph(g) && parent < |g.nodes| && Below(g, ids, parent) && Children(g, ids, parent) && Chain(g, active, parent)
    ensures Rightly(g, parent, UnmarshalItems(g, ids, parent, active))
    decreases Free(g, active), |g.nodes| - parent - 1, 2, |ids|
  {
    hide Reaches, Flawed, Chain, Free, Edge, Unmarshal;
    if ids != [] {
      ChainOn(g, active, parent, ids[0]);
      UnmarshalRightly(g, ids[0], active);
      RightlyFrom(g, parent, ids[0], Unmarshal(g, ids[0], active));
      ItemsRightly(g, ids[1..], parent, active);
    }
  }

  lemma {:induction false} MappingRightly(g: Graph, ids: seq<nat>, parent: nat, m: map<nat, Value>, active: set<nat>)
    requires ValidGraph(g) && parent < |g.nodes| && Below(g, ids, parent) && |ids| % 2 == 0
    requires Pairs(g, ids, parent) && Chain(g, active, parent)
    ensures Rightly(g, parent, MappingInto(g, ids, parent, m, active))
    decreases Free(g, active), |g.nodes| - parent - 1, 3, |ids|
  {
    hide Flawed, Chain, Free, Pairs, SetPair;
    if ids != [] {
      PairsOn(g, ids, parent);
      PairRightly(g, ids[0], ids[1], parent, m, active);
      if SetPair(g, ids[0], ids[1], parent, m, active).Ok? {
        MappingRightly(g, ids[2..], parent, SetPair(g, ids[0], ids[1], parent, m, active).value, active);
      }
    }
  }

  lemma {:induction false} PairRightly(g: Graph, k: nat, v: nat, parent: nat, m: map<nat, Value>, active: set<nat>)
    requires ValidGraph(g) && parent < k < |g.nodes| && parent < v < |g.nodes|
    requires IsPair(g, parent, k, v) && Chain(g, active, parent)
    ensures Rightly(g, parent, SetPair(g, k, v, parent, m, active))
    decreases Free(g, active), |g.nodes| - parent - 1, 2, 0
  {
    PairEdges(g, parent, k, v);
    hide Flawed, Chain, Free, Edge, Unmarshal, MergeInto, IsPair;
    ChainOn(g, active, parent, k);
    ChainOn(g, active, parent, v);
    if IsMerge(g.nodes[k]) {
      MergeRightly(g, k, v, parent, m, active);
    } else {
      UnmarshalRightly(g, k, active);
      UnmarshalRightly(g, v, active);
      RightlyFrom(g, parent, k, Unmarshal(g, k, active));
      RightlyFrom(g, parent, v, Unmarshal(g, v, active));
      if !g.nodes[Behind(g, k)].ScalarRec? {
        FlawedHere(g, InvalidMapKey, parent, k, v);
      } else {
        ScalarIsAtom(g, k, active);
      }
    }
  }

  /** What is a scalar, maybe behind an alias, and only that, decodes to a scalar. */
  lemma ScalarIsAtom(g: Graph, id: nat, active: set<nat>)
    requires ValidGraph(g) && id < |g.nodes|
    ensures var r := Unmarshal(g, id, active);
            && (r.Ok? ==> (r.value.Atom? <==> g.nodes[Behind(g, id)].ScalarRec?))
            && (r.Ok? && g.nodes[Behind(g, id)].ScalarRec? ==> r.value == Atom(Resolve(g, g.nodes[Behind(g, id)])))
  {
    assert ValidAt(g.nodes, id);
    if g.nodes[id].AliasRec? {
      var target := g.nodes[id].target;
      assert ValidAt(g.nodes, target);
      if id !in active {
        LessFree(g, active, id);
        assert Unmarshal(g, id, active) == Unmarshal(g, target, active + {id});
      }
    }
  }

  /** Decoding into a map is right about its failures, and with a mapping it is right about all. */
  ghost predicate RightlyInto(g: Graph, id: nat, r: Outcome<map<nat, Value>>)
    requires ValidGraph(g) && id < |g.nodes|
  {
    (r.Fail? ==> Flawed(g, r.error, id)) && (r.Ok? && !r.clean && IsMapping(g, id) ==> Flawed(g, NotAMap, id))
  }

  lemma {:induction false} IntoRightly(g: Graph, id: nat, m: map<nat, Value>, active: set<nat>)
    requires ValidGraph(g) && id < |g.nodes| && Chain(g, active, id)
    ensures RightlyInto(g, id, UnmarshalInto(g, id, m, active))
    decreases Free(g, active), |g.nodes| - id, 0, 0
  {
    hide Reaches, Flawed, Chain, Free, Pairs;
    assert ValidAt(g.nodes, id);
    match g.nodes[id]
    case ScalarRec(_, _, _) =>
    case AliasRec(_, target) =>
      if id in active {
        ActiveCycle(g, active, id);
      } else {
        LessFree(g, active, id);
        ChainOn(g, active, id, target);
        IntoRightly(g, target, m, active + {id});
        var r := UnmarshalInto(g, target, m, active + {id});
        if r.Fail? { FlawedFrom(g, r.error, id, target); }
        FlawedFrom(g, NotAMap, id, target);
      }
    case SequenceRec(_) =>
    case MappingRec(ids) =>
      AllPairs(g, id);
      MappingRightly(g, ids, id, m, active);
  }

  lemma {:induction false} MergeRightly(g: Graph, k: nat, id: nat, parent: nat, m: map<nat, Value>, active: set<nat>)
    requires ValidGraph(g) && parent < k < |g.nodes| && parent < id < |g.nodes|
    requires IsPair(g, parent, k, id) && IsMerge(g.nodes[k]) && Chain(g, active, id)
    ensures Rightly(g, parent, MergeInto(g, id, m, active))
    decreases Free(g, active), |g.nodes| - id, 1, 0
  {
    PairEdges(g, parent, k, id);
    hide Reaches, Flawed, Chain, Free, UnmarshalInto, IsPair, IsMerge, NamesMap;
    assert ValidAt(g.nodes, id);
    match g.nodes[id]
    case MappingRec(_) => MergedRightly(g, k, id, parent, id, m, active);
    case AliasRec(name, _) => MergedRightly(g, k, id, parent, id, m, active);
    case SequenceRec(ids) => ListRightly(g, k, id, parent, ids, m, active);
    case ScalarRec(_, _, _) => FlawedHere(g, WantMap, parent, k, id);
  }

  /** One mapping that is merged, or refused. */
  lemma {:induction false} MergedRightly(g: Graph, k: nat, v: nat, parent: nat, y: nat, m: map<nat, Value>, active: set<nat>)
    requires ValidGraph(g) && IsPair(g, parent, k, v) && IsMerge(g.nodes[k]) && y in MergeItems(g, v)
    requires (y == v || Edge(g, v, y)) && y < |g.nodes| && Chain(g, active, y)
    ensures !CanMerge(g, g.nodes[y]) ==> Flawed(g, WantMap, parent)
    ensures CanMerge(g, g.nodes[y]) ==> Rightly(g, parent, UnmarshalInto(g, y, m, active))
    decreases Free(g, active), |g.nodes| - y, 0, 1
  {
    PairEdges(g, parent, k, v);
    hide Flawed, Chain, Free, UnmarshalInto, IsPair, IsMerge, NamesMap, MergeItems;
    if !CanMerge(g, g.nodes[y]) {
      assert PairFlaw(g, WantMap, k, v);
      FlawedHere(g, WantMap, parent, k, v);
    } else {
      IntoRightly(g, y, m, active);
      var r := UnmarshalInto(g, y, m, active);
      if r.Fail? { FlawedVia(g, r.error, parent, v, y); }
      FlawedVia(g, NotAMap, parent, v, y);
      if !IsMapping(g, y) {
        assert PairFlaw(g, NotAMap, k, v);
        FlawedHere(g, NotAMap, parent, k, v);
      }
    }
  }

  lemma FlawedVia(g: Graph, e: Error, x: nat, v: nat, y: nat)
    requires ValidGraph(g) && Edge(g, x, v) && (y == v || Edge(g, v, y))
    ensures Flawed(g, e, y) ==> Flawed(g, e, x)
  {
    hide Flawed, Edge;
    FlawedFrom(g, e, x, v);
    if y != v { FlawedFrom(g, e, v, y); }
  }

  lemma {:induction false} ListRightly(g: Graph, k: nat, v: nat, parent: nat, ids: seq<nat>, m: map<nat, Value>, active: set<nat>)
    requires ValidGraph(g) && IsPair(g, parent, k, v) && IsMerge(g.nodes[k]) && g.nodes[v].SequenceRec?
    requires Below(g, ids, v) && Children(g, ids, v) && Chain(g, active, v) && forall y | y in ids :: y in MergeItems(g, v)
    ensures Rightly(g, parent, MergeList(g, ids, v, m, active))
    decreases Free(g, active), |g.nodes| - v - 1, 2, |ids|
  {
    hide Flawed, Chain, Free, Edge, UnmarshalInto, IsPair, IsMerge, MergeItems, CanMerge;
    if ids != [] {
      var n := |ids| - 1;
      ChainOn(g, active, v, ids[n]);
      MergedRightly(g, k, v, parent, ids[n], m, active);
      if CanMerge(g, g.nodes[ids[n]]) && UnmarshalInto(g, ids[n], m, active).Ok? {
        ListRightly(g, k, v, parent, ids[..n], UnmarshalInto(g, ids[n], m, active).value, active);
      }
    }
  }

  // ---- A value that has been decoded does not contain itself ----

  /** Decoding has come to the node while the aliases were active, and has gone through all of it. */
  ghost predicate Visited(g: Graph, id: nat, active: set<nat>)
    requires ValidGraph(g) && id < |g.nodes|
  {
    || g.nodes[id].ScalarRec?
    || (Unmarshal(g, id, active).Ok? && Unmarshal(g, id, active).clean)
    || (exists m :: VisitedInto(g, id, m, active))
    || (exists m :: VisitedMerge(g, id, m, active))
  }

  ghost predicate VisitedInto(g: Graph, id: nat, m: map<nat, Value>, active: set<nat>)
    requires ValidGraph(g) && id < |g.nodes|
  {
    UnmarshalInto(g, id, m, active).Ok? && UnmarshalInto(g, id, m, active).clean
  }

  ghost predicate VisitedMerge(g: Graph, id: nat, m: map<nat, Value>, active: set<nat>)
    requires ValidGraph(g) && id < |g.nodes|
  {
    MergeInto(g, id, m, active).Ok? && MergeInto(g, id, m, active).clean
  }

  lemma {:induction false} ItemVisited(g: Graph, ids: seq<nat>, parent: nat, active: set<nat>, y: nat)
    requires ValidGraph(g) && parent < |g.nodes| && Below(g, ids, parent) && y in ids
    requires UnmarshalItems(g, ids, parent, active).Ok? && UnmarshalItems(g, ids, parent, active).clean
    ensures Visited(g, y, active)
    decreases |ids|
  {
    hide Unmarshal;
    if y != ids[0] {
      ItemVisited(g, ids[1..], parent, active, y);
    }
  }

  lemma {:induction false} EntryVisited(g: Graph, ids: seq<nat>, parent: nat, m: map<nat, Value>, active: set<nat>, y: nat)
    requires ValidGraph(g) && parent < |g.nodes| && Below(g, ids, parent) && |ids| % 2 == 0 && y in ids
    requires MappingInto(g, ids, parent, m, active).Ok? && MappingInto(g, ids, parent, m, active).clean
    ensures Visited(g, y, active)
    decreases |ids|
  {
    hide SetPair, Visited;
    if y == ids[0] || y == ids[1] {
      PairVisited(g, ids[0], ids[1], parent, m, active);
    } else {
      EntryVisited(g, ids[2..], parent, SetPair(g, ids[0], ids[1], parent, m, active).value, active, y);
    }
  }

  lemma PairVisited(g: Graph, k: nat, v: nat, parent: nat, m: map<nat, Value>, active: set<nat>)
    requires ValidGraph(g) && parent < k < |g.nodes| && parent < v < |g.nodes|
    requires SetPair(g, k, v, parent, m, active).Ok? && SetPair(g, k, v, parent, m, active).clean
    ensures Visited(g, k, active) && Visited(g, v, active)
  {
    hide Unmarshal, MergeInto;
    if IsMerge(g.nodes[k]) {
      assert VisitedMerge(g, v, m, active);
    }
  }

  lemma {:induction false} MergedVisited(g: Graph, ids: seq<nat>, parent: nat, m: map<nat, Value>, active: set<nat>, y: nat)
    requires ValidGraph(g) && parent < |g.nodes| && Below(g, ids, parent) && y in ids
    requires MergeList(g, ids, parent, m, active).Ok? && MergeList(g, ids, parent, m, active).clean
    ensures Visited(g, y, active)
    decreases |ids|
  {
    hide UnmarshalInto;
    var n := |ids| - 1;
    if y == ids[n] {
      assert VisitedInto(g, y, m, active);
    } else {
      assert y in ids[..n];
      MergedVisited(g, ids[..n], parent, UnmarshalInto(g, ids[n], m, active).value, active, y);
    }
  }

  /** From a visited node every edge leads to a visited node, and visiting an alias makes it active. */
  lemma VisitedOn(g: Graph, x: nat, y: nat, active: set<nat>)
    requires ValidGraph(g) && x < |g.nodes| && Visited(g, x, active) && Edge(g, x, y)
    ensures g.nodes[x].AliasRec? ==> x !in active && Visited(g, y, active + {x})
    ensures !g.nodes[x].AliasRec? ==> Visited(g, y, active)
  {
    assert ValidAt(g.nodes, x);
    if Unmarshal(g, x, active).Ok? && Unmarshal(g, x, active).clean {
      UnmarshalVisits(g, x, y, active);
    } else if exists m :: VisitedInto(g, x, m, active) {
      var m :| VisitedInto(g, x, m, active);
      IntoVisits(g, x, y, m, active);
    } else {
      var m :| VisitedMerge(g, x, m, active);
      MergeVisits(g, x, y, m, active);
    }
  }

  lemma UnmarshalVisits(g: Graph, x: nat, y: nat, active: set<nat>)
    requires ValidGraph(g) && x < |g.nodes| && Edge(g, x, y)
    requires Unmarshal(g, x, active).Ok? && Unmarshal(g, x, active).clean
    ensures if g.nodes[x].AliasRec? then x !in active && Visited(g, y, active + {x}) else Visited(g, y, active)
  {
    assert ValidAt(g.nodes, x);
    match g.nodes[x]
    case SequenceRec(ids) => ItemVisited(g, ids, x, active, y);
    case MappingRec(ids) => EntryVisited(g, ids, x, map[], active, y);
    case _ =>
  }

  lemma IntoVisits(g: Graph, x: nat, y: nat, m: map<nat, Value>, active: set<nat>)
    requires ValidGraph(g) && x < |g.nodes| && Edge(g, x, y) && VisitedInto(g, x, m, active)
    ensures if g.nodes[x].AliasRec? then x !in active && Visited(g, y, active + {x}) else Visited(g, y, active)
  {
    assert ValidAt(g.nodes, x);
    match g.nodes[x]
    case AliasRec(_, target) => assert VisitedInto(g, target, m, active + {x});
    case MappingRec(ids) => EntryVisited(g, ids, x, m, active, y);
    case _ =>
  }

  lemma MergeVisits(g: Graph, x: nat, y: nat, m: map<nat, Value>, active: set<nat>)
    requires ValidGraph(g) && x < |g.nodes| && Edge(g, x, y) && VisitedMerge(g, x, m, active)
    ensures if g.nodes[x].AliasRec? then x !in active && Visited(g, y, active + {x}) else Visited(g, y, active)
  {
    assert ValidAt(g.nodes, x);
    match g.nodes[x]
    case SequenceRec(ids) => MergedVisited(g, ids, x, m, active, y);
    case ScalarRec(_, _, _) =>
    case _ =>
      assert VisitedInto(g, x, m, active);
      IntoVisits(g, x, y, m, active);
  }

  /** Along a path the aliases on the way become active, and none of them was before. */
  lemma {:induction false} PathVisited(g: Graph, p: seq<nat>, active: set<nat>) returns (later: set<nat>)
    requires ValidGraph(g) && Path(g, p) && p[0] < |g.nodes| && Visited(g, p[0], active)
    ensures p[|p| - 1] < |g.nodes| && active <= later && Visited(g, p[|p| - 1], later)
    ensures forall i | 0 <= i < |p| - 1 && p[i] < |g.nodes| && g.nodes[p[i]].AliasRec? :: p[i] in later
    decreases |p|
  {
    hide Visited, Edge;
    EdgeInside(g, p[0], p[1]);
    VisitedOn(g, p[0], p[1], active);
    var next := if g.nodes[p[0]].AliasRec? then active + {p[0]} else active;
    if |p| == 2 {
      later := next;
    } else {
      var q := p[1..];
      PathTail(g, p);
      later := PathVisited(g, q, next);
      assert forall i | 0 < i < |p| - 1 :: p[i] == q[i - 1];
    }
  }

  lemma PathTail(g: Graph, p: seq<nat>)
    requires Path(g, p) && |p| > 2
    ensures Path(g, p[1..])
  {
    var q := p[1..];
    forall i | 0 <= i < |q| - 1
      ensures Edge(g, q[i], q[i + 1])
    {
      var k := i + 1;
      assert Edge(g, p[k], p[k + 1]);
    }
  }

  lemma EdgeInside(g: Graph, x: nat, y: nat)
    requires Edge(g, x, y)
    ensures x < |g.nodes| && y < |g.nodes|
  {
  }

  /** An alias that is visited is not active. */
  lemma VisitedIsFree(g: Graph, a: nat, active: set<nat>)
    requires ValidGraph(g) && a < |g.nodes| && g.nodes[a].AliasRec? && Visited(g, a, active)
    ensures a !in active
  {
    assert ValidAt(g.nodes, a);
    VisitedOn(g, a, g.nodes[a].target, active);
  }

  /** What is no mapping, but is merged because of its name, leaves the map alone, or empties it if
      it is nil; and the outcome is not clean. */
  lemma NoMappingMerged(g: Graph, id: nat, m: map<nat, Value>, active: set<nat>)
    requires ValidGraph(g) && id < |g.nodes| && g.nodes[id].AliasRec? && !IsMapping(g, id)
    requires MergeInto(g, id, m, active).Ok?
    ensures var target := g.nodes[Behind(g, id)];
            MergeInto(g, id, m, active) == Ok(if target.ScalarRec? && Resolve(g, target) == 0 then map[] else m, false)
  {
    assert ValidAt(g.nodes, id);
    var target := g.nodes[id].target;
    assert ValidAt(g.nodes, target);
    LessFree(g, active, id);
    assert UnmarshalInto(g, id, m, active) == UnmarshalInto(g, target, m, active + {id});
  }

  // ---- What a clean value says about the graph ----

  /** A pair of a visited mapping has been set. */
  lemma {:induction false} PairSet(g: Graph, ids: seq<nat>, parent: nat, m: map<nat, Value>, active: set<nat>, j: nat)
    returns (m': map<nat, Value>)
    requires ValidGraph(g) && parent < |g.nodes| && Below(g, ids, parent) && |ids| % 2 == 0
    requires j % 2 == 0 && j + 1 < |ids|
    requires MappingInto(g, ids, parent, m, active).Ok? && MappingInto(g, ids, parent, m, active).clean
    ensures var r := SetPair(g, ids[j], ids[j + 1], parent, m', active); r.Ok? && r.clean
    decreases |ids|
  {
    hide SetPair;
    if j == 0 {
      m' := m;
    } else {
      m' := PairSet(g, ids[2..], parent, SetPair(g, ids[0], ids[1], parent, m, active).value, active, j - 2);
    }
  }

  lemma MappingVisited(g: Graph, x: nat, active: set<nat>) returns (m: map<nat, Value>)
    requires ValidGraph(g) && x < |g.nodes| && g.nodes[x].MappingRec? && Visited(g, x, active)
    ensures var ids := g.nodes[x].children;
            && Below(g, ids, x) && |ids| % 2 == 0
            && MappingInto(g, ids, x, m, active).Ok? && MappingInto(g, ids, x, m, active).clean
  {
    assert ValidAt(g.nodes, x);
    if Unmarshal(g, x, active).Ok? && Unmarshal(g, x, active).clean {
      m := map[];
    } else if exists m :: VisitedInto(g, x, m, active) {
      m :| VisitedInto(g, x, m, active);
    } else {
      m :| VisitedMerge(g, x, m, active);
      assert MergeInto(g, x, m, active) == UnmarshalInto(g, x, m, active);
    }
  }

  /** A pair that has been set has no flaw. */
  lemma SetHasNoFlaw(g: Graph, k: nat, v: nat, parent: nat, m: map<nat, Value>, active: set<nat>, e: Error)
    requires ValidGraph(g) && parent < k < |g.nodes| && parent < v < |g.nodes|
    requires SetPair(g, k, v, parent, m, active).Ok? && SetPair(g, k, v, parent, m, active).clean
    ensures !PairFlaw(g, e, k, v)
  {
    hide Unmarshal, MergeInto;
    if IsMerge(g.nodes[k]) {
      forall y | y in MergeItems(g, v)
        ensures CanMerge(g, g.nodes[y]) && IsMapping(g, y)
      {
        MergedIsMapping(g, v, m, active, y);
      }
    } else {
      ScalarIsAtom(g, k, active);
    }
  }

  lemma MergedIsMapping(g: Graph, v: nat, m: map<nat, Value>, active: set<nat>, y: nat)
    requires ValidGraph(g) && v < |g.nodes| && y in MergeItems(g, v)
    requires MergeInto(g, v, m, active).Ok? && MergeInto(g, v, m, active).clean
    ensures CanMerge(g, g.nodes[y]) && IsMapping(g, y)
  {
    hide UnmarshalInto;
    assert ValidAt(g.nodes, v);
    if g.nodes[v].SequenceRec? {
      ListIsMappings(g, g.nodes[v].children, v, m, active, y);
    } else {
      IntoIsMapping(g, v, m, active);
    }
  }

  lemma IntoIsMapping(g: Graph, y: nat, m: map<nat, Value>, active: set<nat>)
    requires ValidGraph(g) && y < |g.nodes| && UnmarshalInto(g, y, m, active).Ok? && UnmarshalInto(g, y, m, active).clean
    ensures IsMapping(g, y)
  {
    assert ValidAt(g.nodes, y);
    if g.nodes[y].AliasRec? {
      var target := g.nodes[y].target;
      assert ValidAt(g.nodes, target);
      LessFree(g, active, y);
      assert UnmarshalInto(g, y, m, active) == UnmarshalInto(g, target, m, active + {y});
    }
  }

  lemma {:induction false} ListIsMappings(g: Graph, ids: seq<nat>, parent: nat, m: map<nat, Value>, active: set<nat>, y: nat)
    requires ValidGraph(g) && parent < |g.nodes| && Below(g, ids, parent) && y in ids
    requires MergeList(g, ids, parent, m, active).Ok? && MergeList(g, ids, parent, m, active).clean
    ensures CanMerge(g, g.nodes[y]) && IsMapping(g, y)
    decreases |ids|
  {
    hide UnmarshalInto, CanMerge, IsMapping;
    var n := |ids| - 1;
    if y == ids[n] {
      IntoIsMapping(g, y, m, active);
    } else {
      assert y in ids[..n];
      ListIsMappings(g, ids[..n], parent, UnmarshalInto(g, ids[n], m, active).value, active, y);
    }
  }

  /** A visited node reaches no flaw. */
  lemma VisitedIsFlawless(g: Graph, id: nat, active: set<nat>, e: Error)
    requires ValidGraph(g) && id < |g.nodes| && Visited(g, id, active)
    ensures !Flawed(g, e, id)
  {
    hide Visited, FlawAt;
    if Flawed(g, e, id) {
      var x: nat :| Reached(g, id, x) && FlawAt(g, e, x);
      var here := active;
      if x != id {
        var p :| Path(g, p) && p[0] == id && p[|p| - 1] == x;
        here := PathVisited(g, p, active);
      }
      VisitedHasNoFlaw(g, x, here, e);
    }
  }

  lemma VisitedHasNoFlaw(g: Graph, x: nat, here: set<nat>, e: Error)
    requires ValidGraph(g) && x < |g.nodes| && Visited(g, x, here)
    ensures !FlawAt(g, e, x)
  {
    hide Visited, PairFlaw;
    if FlawAt(g, e, x) {
      if e.ContainsItself? {
        var q :| Path(g, q) && q[0] == x && q[|q| - 1] == x;
        var later := PathVisited(g, q, here);
        VisitedIsFree(g, x, later);
      } else {
        var k: nat, v: nat :| IsPair(g, x, k, v) && PairFlaw(g, e, k, v);
        var ids := g.nodes[x].children;
        var j :| 0 <= j < |ids| - 1 && j % 2 == 0 && ids[j] == k && ids[j + 1] == v;
        var m := MappingVisited(g, x, here);
        var m' := PairSet(g, ids, x, m, here, j);
        SetHasNoFlaw(g, k, v, x, m', here, e);
      }
    }
  }

  // ---- Exactly when decoding succeeds ----

  /** Decoding from a root always ends. Whatever it is refused for can be reached from the root; and
      it gives a clean value exactly if no alias that is reached reaches itself, keys are scalars,
      only mappings are merged, and the names of merged aliases have kept standing for mappings. */
  lemma DecodesExactly(g: Graph, root: nat)
    requires ValidGraph(g) && root < |g.nodes|
    ensures var r := Unmarshal(g, root, {});
            && (r.Ok? && r.clean <==>
                  !Cyclic(g, root) && GoodKeys(g, root) && GoodMerges(g, root) && NamesStand(g, root))
            && (r.Fail? ==> Flawed(g, r.error, root))
            && (r.Ok? && !r.clean ==> Flawed(g, NotAMap, root))
  {
    hide Unmarshal, Cyclic, GoodKeys, GoodMerges, NamesStand, Flawed;
    GoodHasNoFlaw(g, root);
    UnmarshalRightly(g, root, {});
    var r := Unmarshal(g, root, {});
    if r.Ok? && r.clean {
      assert Visited(g, root, {});
      VisitedIsFlawless(g, root, {}, ContainsItself);
      VisitedIsFlawless(g, root, {}, InvalidMapKey);
      VisitedIsFlawless(g, root, {}, WantMap);
      VisitedIsFlawless(g, root, {}, NotAMap);
    } else if r.Fail? {
      match r.error
      case ContainsItself =>
      case InvalidMapKey =>
      case WantMap =>
      case NotAMap =>
    }
  }

  /** "Value contains itself" is reported only if an alias that is reached reaches itself; and if one
      does, no clean value is given. */
  lemma ContainsItselfRightly(g: Graph, root: nat)
    requires ValidGraph(g) && root < |g.nodes|
    ensures var r := Unmarshal(g, root, {});
            && (r == Fail(ContainsItself) ==> Cyclic(g, root))
            && (r.Ok? && r.clean ==> !Cyclic(g, root))
  {
    hide Unmarshal, Cyclic, GoodKeys, GoodMerges, NamesStand, Flawed;
    DecodesExactly(g, root);
    GoodHasNoFlaw(g, root);
  }

  // ---- Anchors that are given twice ----

  /** Every alias has the target that its name has at the end of the document. */
  ghost predicate Unambiguous(g: Graph) {
    forall i | 0 <= i < |g.nodes| && g.nodes[i].AliasRec? ::
      g.nodes[i].name in g.anchors && g.anchors[g.nodes[i].name] == g.nodes[i].target
  }

  lemma UnambiguousNames(g: Graph, root: nat)
    requires ValidGraph(g) && Unambiguous(g) && root < |g.nodes|
    ensures GoodMerges(g, root) ==> NamesStand(g, root)
    ensures !Flawed(g, NotAMap, root)
  {
    hide Reached, IsPair, IsMerge, MergeItems;
  }

  /** If every alias still has the target of its name at the end of the document, decoding succeeds
      exactly if no alias that is reached reaches itself, keys are scalars and only mappings are
      merged; and a mapping is then the fold of its pairs. */
  lemma UnambiguousDecodes(g: Graph, root: nat)
    requires ValidGraph(g) && Unambiguous(g) && root < |g.nodes|
    ensures Unmarshal(g, root, {}).Ok? <==> !Cyclic(g, root) && GoodKeys(g, root) && GoodMerges(g, root)
    ensures g.nodes[root].MappingRec? && Unmarshal(g, root, {}).Ok? ==>
              var ids := g.nodes[root].children;
              && Below(g, ids, root) && |ids| % 2 == 0
              && Unmarshal(g, root, {}).value == Dict(Fold(g, ids, root, {}))
  {
    hide Cyclic, GoodKeys, GoodMerges, NamesStand, Flawed, MappingInto, Fold, Unambiguous;
    assert ValidAt(g.nodes, root);
    DecodesExactly(g, root);
    UnambiguousNames(g, root);
    if g.nodes[root].MappingRec? && Unmarshal(g, root, {}).Ok? {
      MappingIsFold(g, g.nodes[root].children, root, map[], {});
    }
  }
}
