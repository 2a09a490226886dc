/** What a decoded node is, said without the decoder: one value for every node, which fits the values
    of the nodes below it. The decoder's values fit, and no others do. */
module DecodedValues {
  import opened Utf8
  import opened EventGrammar
  import opened ComposerSpec
  import opened DecoderSpec

  /** A value for every node. */
  type Valuation = nat -> Value

  /** A plain "<<", or one with the tag for merging. */
  predicate MergeKey(r: Rec) {
    r.ScalarRec? && r.value == Ascii("<<") && (r.implicit || r.tag == Ascii("tag:yaml.org,2002:merge"))
  }

  lemma MergeKeys(r: Rec)
    ensures IsMerge(r) <==> MergeKey(r)
  {
    MergeTexts();
  }

  lemma MergeTexts()
    ensures Ascii("<<") == MERGE_KEY && Ascii("tag:yaml.org,2002:merge") == MERGE_TAG
  {
  }

  // ---- Fitting values ----

  predicate HasKey(v: Value, c: nat) {
    v.Dict? && c in v.entries
  }

  /** Merging the node sets the key: the node has it, or some item of a list. */
  predicate Merges(g: Graph, val: Valuation, x: nat, c: nat)
    requires x < |g.nodes|
  {
    if g.nodes[x].SequenceRec?
    then exists i | 0 <= i < |g.nodes[x].children| :: HasKey(val(g.nodes[x].children[i]), c)
    else HasKey(val(x), c)
  }

  /** It sets the key to the value that the node has for it, or the first item of a list that has it. */
  ghost predicate MergesTo(g: Graph, val: Valuation, x: nat, c: nat, w: Value)
    requires x < |g.nodes|
  {
    if g.nodes[x].SequenceRec? then
      var ids := g.nodes[x].children;
      exists i | 0 <= i < |ids| ::
        && HasKey(val(ids[i]), c) && val(ids[i]).entries[c] == w
        && forall j | 0 <= j < i :: !HasKey(val(ids[j]), c)
    else HasKey(val(x), c) && val(x).entries[c] == w
  }

  /** The j-th pair of a mapping sets the key. */
  predicate Sets(g: Graph, val: Valuation, ids: seq<nat>, j: nat, c: nat)
    requires 2 * j + 1 < |ids| && forall i | 0 <= i < |ids| :: ids[i] < |g.nodes|
  {
    if MergeKey(g.nodes[ids[2 * j]]) then Merges(g, val, ids[2 * j + 1], c) else val(ids[2 * j]) == Atom(c)
  }

  /** It sets the key to the value. */
  ghost predicate SetsTo(g: Graph, val: Valuation, ids: seq<nat>, j: nat, c: nat, w: Value)
    requires 2 * j + 1 < |ids| && forall i | 0 <= i < |ids| :: ids[i] < |g.nodes|
  {
    if MergeKey(g.nodes[ids[2 * j]]) then MergesTo(g, val, ids[2 * j + 1], c, w)
    else val(ids[2 * j]) == Atom(c) && val(ids[2 * j + 1]) == w
  }

  /** Each key has the value that the last pair to set it has set it to; a key that no pair sets has
      the value that it has in `m`, if any. */
  ghost predicate LastSet(g: Graph, val: Valuation, ids: seq<nat>, m: map<nat, Value>, c: nat, d: map<nat, Value>)
    requires |ids| % 2 == 0 && forall i | 0 <= i < |ids| :: ids[i] < |g.nodes|
  {
    if exists j: nat | j < |ids| / 2 :: Sets(g, val, ids, j, c) then
      && c in d
      && exists j: nat | j < |ids| / 2 ::
           SetsTo(g, val, ids, j, c, d[c]) && forall i: nat | j < i < |ids| / 2 :: !Sets(g, val, ids, i, c)
    else (c in d <==> c in m) && (c in d ==> d[c] == m[c])
  }

  /** The value of a node fits those of the nodes below it: a scalar is what it resolves to, an alias
      is its target, a sequence the list of its items, and a mapping has what its pairs set last. */
  ghost predicate Fits(g: Graph, val: Valuation, x: nat)
    requires ValidGraph(g) && x < |g.nodes|
  {
    assert ValidAt(g.nodes, x);
    match g.nodes[x]
    case ScalarRec(tag, value, implicit) => val(x) == Atom(g.resolve(tag, value, implicit))
    case AliasRec(_, target) => val(x) == val(target)
    case SequenceRec(ids) =>
      && val(x).List? && |val(x).items| == |ids|
      && forall i | 0 <= i < |ids| :: val(x).items[i] == val(ids[i])
    case MappingRec(ids) =>
      && val(x).Dict?
      && forall c: nat :: LastSet(g, val, ids, map[], c, val(x).entries)
  }

  /** Values fit at every node that is reached. */
  ghost predicate FitsFrom(g: Graph, val: Valuation, root: nat)
    requires ValidGraph(g)
  {
    forall x: nat | Reached(g, root, x) :: Fits(g, val, x)
  }

  // ---- Values as the decoder gives them ----

  /** If the node is decoded cleanly, it is decoded to what the valuation says. */
  ghost predicate Agrees(g: Graph, val: Valuation, x: nat, active: set<nat>)
    requires ValidGraph(g) && x < |g.nodes|
  {
    var r := Unmarshal(g, x, active);
    r.Ok? && r.clean ==> r.value == val(x)
  }

  /** It agrees on the nodes and, for those that are sequences, on their items. */
  ghost predicate AgreesBelow(g: Graph, val: Valuation, ids: seq<nat>, active: set<nat>)
    requires ValidGraph(g) && forall i | 0 <= i < |ids| :: ids[i] < |g.nodes|
  {
    && (forall i | 0 <= i < |ids| :: Agrees(g, val, ids[i], active))
    && (forall i | 0 <= i < |ids| && g.nodes[ids[i]].SequenceRec? :: AgreesOnItems(g, val, ids[i], active))
  }

  ghost predicate AgreesOnItems(g: Graph, val: Valuation, x: nat, active: set<nat>)
    requires ValidGraph(g) && x < |g.nodes| && g.nodes[x].SequenceRec?
  {
    assert ValidAt(g.nodes, x);
    forall y | y in g.nodes[x].children :: Agrees(g, val, y, active)
  }

  /** A mapping that is decoded into an empty map is decoded to that map. */
  lemma IntoIsUnmarshal(g: Graph, id: nat, active: set<nat>)
    requires ValidGraph(g) && id < |g.nodes|
    requires UnmarshalInto(g, id, map[], active).Ok? && UnmarshalInto(g, id, map[], active).clean
    ensures Unmarshal(g, id, active) == Ok(Dict(UnmarshalInto(g, id, map[], active).value), true)
  {
    hide MappingInto;
    assert ValidAt(g.nodes, id);
    if g.nodes[id].AliasRec? {
      var target := g.nodes[id].target;
      assert ValidAt(g.nodes, target);
      LessFree(g, active, id);
      assert UnmarshalInto(g, id, map[], active) == UnmarshalInto(g, target, map[], active + {id});
    }
  }

  /** Decoding a node into a map puts its entries over those of the map. */
  lemma IntoPutsOver(g: Graph, val: Valuation, id: nat, m: map<nat, Value>, active: set<nat>)
    requires ValidGraph(g) && id < |g.nodes| && Agrees(g, val, id, active)
    requires UnmarshalInto(g, id, m, active).Ok? && UnmarshalInto(g, id, m, active).clean
    ensures val(id).Dict? && UnmarshalInto(g, id, m, active).value == m + val(id).entries
  {
    hide Unmarshal, UnmarshalInto;
    IntoOverrides(g, id, m, active);
    IntoIsUnmarshal(g, id, active);
  }

  /** What a merged list sets. */
  ghost predicate ListSet(val: Valuation, ids: seq<nat>, m: map<nat, Value>, c: nat, d: map<nat, Value>) {
    if exists i | 0 <= i < |ids| :: HasKey(val(ids[i]), c) then
      && c in d
      && exists i | 0 <= i < |ids| ::
           && HasKey(val(ids[i]), c) && val(ids[i]).entries[c] == d[c]
           && forall j | 0 <= j < i :: !HasKey(val(ids[j]), c)
    else (c in d <==> c in m) && (c in d ==> d[c] == m[c])
  }

  lemma {:induction false} MergeListSets(g: Graph, val: Valuation, ids: seq<nat>, parent: nat, m: map<nat, Value>, active: set<nat>, c: nat)
    requires ValidGraph(g) && parent < |g.nodes| && Below(g, ids, parent)
    requires forall y | y in ids :: Agrees(g, val, y, active)
    requires MergeList(g, ids, parent, m, active).Ok? && MergeList(g, ids, parent, m, active).clean
    ensures ListSet(val, ids, m, c, MergeList(g, ids, parent, m, active).value)
    decreases |ids|
  {
    hide UnmarshalInto, Agrees, CanMerge;
    if ids != [] {
      var n := |ids| - 1;
      IntoPutsOver(g, val, ids[n], m, active);
      var m' := UnmarshalInto(g, ids[n], m, active).value;
      MergeListSets(g, val, ids[..n], parent, m', active, c);
      ListSetOneMore(val, ids, m, m', c, MergeList(g, ids, parent, m, active).value);
    }
  }

  lemma ListSetOneMore(val: Valuation, ids: seq<nat>, m: map<nat, Value>, m': map<nat, Value>, c: nat, d: map<nat, Value>)
    requires ids != [] && val(ids[|ids| - 1]).Dict? && m' == m + val(ids[|ids| - 1]).entries
    requires ListSet(val, ids[..|ids| - 1], m', c, d)
    ensures ListSet(val, ids, m, c, d)
  {
    var n := |ids| - 1;
    var early := ids[..n];
    assert forall i | 0 <= i < n :: early[i] == ids[i];
    if exists i | 0 <= i < n :: HasKey(val(early[i]), c) {
      var i :| 0 <= i < n && HasKey(val(early[i]), c) && val(early[i]).entries[c] == d[c]
               && forall j | 0 <= j < i :: !HasKey(val(early[j]), c);
      assert HasKey(val(ids[i]), c);
    } else if HasKey(val(ids[n]), c) {
      assert HasKey(val(ids[n]), c) && val(ids[n]).entries[c] == d[c];
    }
  }

  /** What one pair does to a map. */
  lemma PairSets(g: Graph, val: Valuation, ids: seq<nat>, parent: nat, m: map<nat, Value>, active: set<nat>, c: nat)
    requires ValidGraph(g) && parent < |g.nodes| && Below(g, ids, parent) && |ids| >= 2
    requires AgreesBelow(g, val, ids, active)
    requires SetPair(g, ids[0], ids[1], parent, m, active).Ok? && SetPair(g, ids[0], ids[1], parent, m, active).clean
    ensures var d := SetPair(g, ids[0], ids[1], parent, m, active).value;
            if Sets(g, val, ids, 0, c) then c in d && SetsTo(g, val, ids, 0, c, d[c])
            else (c in d <==> c in m) && (c in d ==> d[c] == m[c])
  {
    hide Unmarshal, UnmarshalInto, MergeList;
    var k, v := ids[0], ids[1];
    MergeKeys(g.nodes[k]);
    if IsMerge(g.nodes[k]) {
      assert ValidAt(g.nodes, v);
      if g.nodes[v].SequenceRec? {
        assert AgreesOnItems(g, val, v, active);
        MergeListSets(g, val, g.nodes[v].children, v, m, active, c);
      } else {
        IntoPutsOver(g, val, v, m, active);
      }
    } else {
      assert Agrees(g, val, k, active) && Agrees(g, val, v, active);
    }
  }

  /** A mapping that is decoded cleanly has what its pairs set last. */
  lemma {:induction false} MappingSets(g: Graph, val: Valuation, ids: seq<nat>, parent: nat, m: map<nat, Value>, active: set<nat>, c: nat)
    requires ValidGraph(g) && parent < |g.nodes| && Below(g, ids, parent) && |ids| % 2 == 0
    requires AgreesBelow(g, val, ids, active)
    requires MappingInto(g, ids, parent, m, active).Ok? && MappingInto(g, ids, parent, m, active).clean
    ensures LastSet(g, val, ids, m, c, MappingInto(g, ids, parent, m, active).value)
    decreases |ids|
  {
    hide SetPair, Sets, SetsTo, Agrees, AgreesOnItems;
    if ids != [] {
      PairSets(g, val, ids, parent, m, active, c);
      var m' := SetPair(g, ids[0], ids[1], parent, m, active).value;
      assert forall i | 0 <= i < |ids[2..]| :: ids[2..][i] == ids[i + 2];
      MappingSets(g, val, ids[2..], parent, m', active, c);
      LastSetOneMore(g, val, ids, m, m', c, MappingInto(g, ids, parent, m, active).value);
    }
  }

  lemma LaterPair(g: Graph, val: Valuation, ids: seq<nat>, j: nat, c: nat)
    requires 2 * j + 3 < |ids| && forall i | 0 <= i < |ids| :: ids[i] < |g.nodes|
    ensures Sets(g, val, ids, j + 1, c) == Sets(g, val, ids[2..], j, c)
    ensures forall w :: SetsTo(g, val, ids, j + 1, c, w) == SetsTo(g, val, ids[2..], j, c, w)
  {
    hide MergeKey, Merges, MergesTo;
    assert ids[2..][2 * j] == ids[2 * (j + 1)] && ids[2..][2 * j + 1] == ids[2 * (j + 1) + 1];
  }

  lemma LastSetOneMore(g: Graph, val: Valuation, ids: seq<nat>, m: map<nat, Value>, m': map<nat, Value>, c: nat, d: map<nat, Value>)
    requires |ids| % 2 == 0 && |ids| >= 2 && forall i | 0 <= i < |ids| :: ids[i] < |g.nodes|
    requires if Sets(g, val, ids, 0, c) then c in m' && SetsTo(g, val, ids, 0, c, m'[c])
             else (c in m' <==> c in m) && (c in m' ==> m'[c] == m[c])
    requires LastSet(g, val, ids[2..], m', c, d)
    ensures LastSet(g, val, ids, m, c, d)
  {
    hide Sets, SetsTo;
    var rest := ids[2..];
    forall j: nat | j < |rest| / 2
      ensures Sets(g, val, ids, j + 1, c) == Sets(g, val, rest, j, c)
    {
      LaterPair(g, val, ids, j, c);
    }
    if exists j: nat | j < |rest| / 2 :: Sets(g, val, rest, j, c) {
      var j: nat :| j < |rest| / 2 && SetsTo(g, val, rest, j, c, d[c])
                    && forall i: nat | j < i < |rest| / 2 :: !Sets(g, val, rest, i, c);
      var one: nat :| one < |rest| / 2 && Sets(g, val, rest, one, c);
      assert Sets(g, val, ids, one + 1, c);
      LaterPair(g, val, ids, j, c);
      assert SetsTo(g, val, ids, j + 1, c, d[c]);
      forall i: nat | j + 1 < i < |ids| / 2
        ensures !Sets(g, val, ids, i, c)
      {
        var i': nat := i - 1;
        assert Sets(g, val, ids, i' + 1, c) == Sets(g, val, rest, i', c);
      }
    } else {
      forall i: nat | 0 < i < |ids| / 2
        ensures !Sets(g, val, ids, i, c)
      {
        var i': nat := i - 1;
        assert Sets(g, val, ids, i' + 1, c) == Sets(g, val, rest, i', c);
      }
      if Sets(g, val, ids, 0, c) {
        assert SetsTo(g, val, ids, 0, c, d[c]);
      }
    }
  }

  // ---- The decoder's values fit ----

  /** What the decoder gives for a node. */
  ghost function Decoded(g: Graph, x: nat): Value
    requires ValidGraph(g)
  {
    if x < |g.nodes| && Unmarshal(g, x, {}).Ok? then Unmarshal(g, x, {}).value else Atom(0)
  }

  ghost function Decoding(g: Graph): (val: Valuation)
    requires ValidGraph(g)
    ensures forall x: nat :: val(x) == Decoded(g, x)
  {
    (x: nat) => Decoded(g, x)
  }

  /** With fewer aliases active, what can be decoded gives the same. */
  ghost predicate Same<T>(r: Outcome<T>, fewer: Outcome<T>) {
    r.Ok? ==> fewer == r
  }

  lemma {:induction false} FewerActive(g: Graph, id: nat, active: set<nat>, fewer: set<nat>)
    requires ValidGraph(g) && id < |g.nodes| && fewer <= active
    ensures Same(Unmarshal(g, id, active), Unmarshal(g, id, fewer))
    decreases Free(g, active), |g.nodes| - id, 0, 0
  {
    hide Free, UnmarshalItems, MappingInto;
    assert ValidAt(g.nodes, id);
    match g.nodes[id]
    case ScalarRec(_, _, _) =>
    case AliasRec(_, target) =>
      if id !in active {
        LessFree(g, active, id);
        FewerActive(g, target, active + {id}, fewer + {id});
      }
    case SequenceRec(ids) => FewerInItems(g, ids, id, active, fewer);
    case MappingRec(ids) => FewerInMapping(g, ids, id, map[], active, fewer);
  }

  lemma {:induction false} FewerInItems(g: Graph, ids: seq<nat>, parent: nat, active: set<nat>, fewer: set<nat>)
    requires ValidGraph(g) && parent < |g.nodes| && Below(g, ids, parent) && fewer <= active
    ensures Same(UnmarshalItems(g, ids, parent, active), UnmarshalItems(g, ids, parent, fewer))
    decreases Free(g, active), |g.nodes| - parent - 1, 2, |ids|
  {
    hide Free, Unmarshal;
    if ids != [] {
      FewerActive(g, ids[0], active, fewer);
      FewerInItems(g, ids[1..], parent, active, fewer);
    }
  }

  lemma {:induction false} FewerInMapping(g: Graph, ids: seq<nat>, parent: nat, m: map<nat, Value>, active: set<nat>, fewer: set<nat>)
    requires ValidGraph(g) && parent < |g.nodes| && Below(g, ids, parent) && |ids| % 2 == 0 && fewer <= active
    ensures Same(MappingInto(g, ids, parent, m, active), MappingInto(g, ids, parent, m, fewer))
    decreases Free(g, active), |g.nodes| - parent - 1, 3, |ids|
  {
    hide Free, SetPair;
    if ids != [] {
      FewerInPair(g, ids[0], ids[1], parent, m, active, fewer);
      if SetPair(g, ids[0], ids[1], parent, m, active).Ok? {
        FewerInMapping(g, ids[2..], parent, SetPair(g, ids[0], ids[1], parent, m, active).value, active, fewer);
      }
    }
  }

  lemma {:induction false} FewerInPair(g: Graph, k: nat, v: nat, parent: nat, m: map<nat, Value>, active: set<nat>, fewer: set<nat>)
    requires ValidGraph(g) && parent < k < |g.nodes| && parent < v < |g.nodes| && fewer <= active
    ensures Same(SetPair(g, k, v, parent, m, active), SetPair(g, k, v, parent, m, fewer))
    decreases Free(g, active), |g.nodes| - parent - 1, 2, 0
  {
    hide Free, Unmarshal, MergeInto;
    if IsMerge(g.nodes[k]) {
      FewerInMerge(g, v, m, active, fewer);
    } else {
      FewerActive(g, k, active, fewer);
      FewerActive(g, v, active, fewer);
    }
  }

  lemma {:induction false} FewerInto(g: Graph, id: nat, m: map<nat, Value>, active: set<nat>, fewer: set<nat>)
    requires ValidGraph(g) && id < |g.nodes| && fewer <= active
    ensures Same(UnmarshalInto(g, id, m, active), UnmarshalInto(g, id, m, fewer))
    decreases Free(g, active), |g.nodes| - id, 0, 0
  {
    hide Free, MappingInto;
    assert ValidAt(g.nodes, id);
    match g.nodes[id]
    case AliasRec(_, target) =>
      if id !in active {
        LessFree(g, active, id);
        FewerInto(g, target, m, active + {id}, fewer + {id});
      }
    case MappingRec(ids) => FewerInMapping(g, ids, id, m, active, fewer);
    case _ =>
  }

  lemma {:induction false} FewerInMerge(g: Graph, id: nat, m: map<nat, Value>, active: set<nat>, fewer: set<nat>)
    requires ValidGraph(g) && id < |g.nodes| && fewer <= active
    ensures Same(MergeInto(g, id, m, active), MergeInto(g, id, m, fewer))
    decreases Free(g, active), |g.nodes| - id, 1, 0
  {
    hide Free, UnmarshalInto, MergeList;
    assert ValidAt(g.nodes, id);
    match g.nodes[id]
    case ScalarRec(_, _, _) =>
    case SequenceRec(ids) => FewerInList(g, ids, id, m, active, fewer);
    case _ => FewerInto(g, id, m, active, fewer);
  }

  lemma {:induction false} FewerInList(g: Graph, ids: seq<nat>, parent: nat, m: map<nat, Value>, active: set<nat>, fewer: set<nat>)
    requires ValidGraph(g) && parent < |g.nodes| && Below(g, ids, parent) && fewer <= active
    ensures Same(MergeList(g, ids, parent, m, active), MergeList(g, ids, parent, m, fewer))
    decreases Free(g, active), |g.nodes| - parent - 1, 2, |ids|
  {
    hide Free, UnmarshalInto;
    if ids != [] {
      var n := |ids| - 1;
      FewerInto(g, ids[n], m, active, fewer);
      if UnmarshalInto(g, ids[n], m, active).Ok? {
        FewerInList(g, ids[..n], parent, UnmarshalInto(g, ids[n], m, active).value, active, fewer);
      }
    }
  }

  lemma {:induction false} ItemsDecoded(g: Graph, ids: seq<nat>, parent: nat, active: set<nat>, i: nat)
    requires ValidGraph(g) && parent < |g.nodes| && Below(g, ids, parent) && i < |ids|
    requires UnmarshalItems(g, ids, parent, active).Ok? && UnmarshalItems(g, ids, parent, active).clean
    ensures var vs := UnmarshalItems(g, ids, parent, active).value;
            |vs| == |ids| && Unmarshal(g, ids[i], active) == Ok(vs[i], true)
    decreases |ids|
  {
    hide Unmarshal;
    if i > 0 {
      ItemsDecoded(g, ids[1..], parent, active, i - 1);
    } else if |ids| > 1 {
      ItemsDecoded(g, ids[1..], parent, active, 0);
    }
  }

  lemma DecodingAgrees(g: Graph, ids: seq<nat>)
    requires ValidGraph(g) && forall i | 0 <= i < |ids| :: ids[i] < |g.nodes|
    ensures AgreesBelow(g, Decoding(g), ids, {})
  {
    hide Unmarshal, Decoding;
    forall i | 0 <= i < |ids| && g.nodes[ids[i]].SequenceRec?
      ensures AgreesOnItems(g, Decoding(g), ids[i], {})
    {
      assert ValidAt(g.nodes, ids[i]);
    }
  }

  /** A key has the decoded value of its own pair, if the key is no merge key and no later pair sets it. */
  lemma PairIsDecoded(g: Graph, ids: seq<nat>, parent: nat, m: map<nat, Value>, j: nat, c: nat)
    requires ValidGraph(g) && parent < |g.nodes| && Below(g, ids, parent) && |ids| % 2 == 0 && 2 * j + 1 < |ids|
    requires MappingInto(g, ids, parent, m, {}).Ok? && MappingInto(g, ids, parent, m, {}).clean
    requires !MergeKey(g.nodes[ids[2 * j]]) && Decoded(g, ids[2 * j]) == Atom(c)
    requires forall i: nat | j < i < |ids| / 2 :: !Sets(g, Decoding(g), ids, i, c)
    ensures var d := MappingInto(g, ids, parent, m, {}).value;
            c in d && d[c] == Decoded(g, ids[2 * j + 1])
  {
    hide MappingInto, Unmarshal, Decoded, MergeKey;
    DecodingAgrees(g, ids);
    MappingSets(g, Decoding(g), ids, parent, m, {}, c);
    assert Sets(g, Decoding(g), ids, j, c);
    SetsToIsSet(g, Decoding(g), ids, m, c, MappingInto(g, ids, parent, m, {}).value, j);
  }

  lemma SetsToIsSet(g: Graph, val: Valuation, ids: seq<nat>, m: map<nat, Value>, c: nat, d: map<nat, Value>, j: nat)
    requires 2 * j + 1 < |ids| && |ids| % 2 == 0 && forall i | 0 <= i < |ids| :: ids[i] < |g.nodes|
    requires Sets(g, val, ids, j, c) && forall i: nat | j < i < |ids| / 2 :: !Sets(g, val, ids, i, c)
    requires LastSet(g, val, ids, m, c, d)
    ensures c in d && SetsTo(g, val, ids, j, c, d[c])
  {
    hide MergeKey;
    var k: nat :| k < |ids| / 2 && SetsTo(g, val, ids, k, c, d[c]) && forall i: nat | k < i < |ids| / 2 :: !Sets(g, val, ids, i, c);
    SetsToSets(g, val, ids, k, c, d[c]);
    assert k == j;
  }

  lemma NoItems(g: Graph, parent: nat, active: set<nat>)
    requires ValidGraph(g) && parent < |g.nodes|
    ensures UnmarshalItems(g, [], parent, active) == Ok([], true)
  {
  }

  /** The value of a node that is decoded cleanly fits those of the nodes below it. */
  lemma DecodedFits(g: Graph, x: nat)
    requires ValidGraph(g) && x < |g.nodes| && Unmarshal(g, x, {}).Ok? && Unmarshal(g, x, {}).clean
    ensures Fits(g, Decoding(g), x)
  {
    hide UnmarshalItems, MappingInto, LastSet, Decoding;
    var val := Decoding(g);
    assert ValidAt(g.nodes, x);
    match g.nodes[x]
    case ScalarRec(_, _, _) =>
    case AliasRec(_, target) =>
      assert {} + {x} == {x};
      FewerActive(g, target, {x}, {});
    case SequenceRec(ids) =>
      if ids == [] {
        NoItems(g, x, {});
      } else {
        ItemsDecoded(g, ids, x, {}, 0);
      }
      forall i | 0 <= i < |ids|
        ensures val(x).items[i] == val(ids[i])
      {
        ItemsDecoded(g, ids, x, {}, i);
      }
    case MappingRec(ids) =>
      DecodingAgrees(g, ids);
      forall c: nat
        ensures LastSet(g, val, ids, map[], c, val(x).entries)
      {
        MappingSets(g, val, ids, x, map[], {}, c);
      }
  }

  /** Whatever is reached from a node that is decoded cleanly is decoded cleanly. */
  lemma ReachedIsClean(g: Graph, root: nat, x: nat)
    requires ValidGraph(g) && root < |g.nodes| && Reached(g, root, x)
    requires Unmarshal(g, root, {}).Ok? && Unmarshal(g, root, {}).clean
    ensures Unmarshal(g, x, {}).Ok? && Unmarshal(g, x, {}).clean
  {
    hide Unmarshal, Reached, Flawed;
    DecodesExactly(g, root);
    GoodHasNoFlaw(g, root);
    DecodesExactly(g, x);
    GoodHasNoFlaw(g, x);
    FlawedBeyond(g, root, x, ContainsItself);
    FlawedBeyond(g, root, x, InvalidMapKey);
    FlawedBeyond(g, root, x, WantMap);
    FlawedBeyond(g, root, x, NotAMap);
  }

  lemma FlawedBeyond(g: Graph, x: nat, y: nat, e: Error)
    requires ValidGraph(g) && x < |g.nodes| && Reached(g, x, y)
    ensures Flawed(g, e, y) ==> Flawed(g, e, x)
  {
    hide FlawAt, Reaches;
    if Flawed(g, e, y) {
      var z: nat :| Reached(g, y, z) && FlawAt(g, e, z);
      ReachedThrough(g, x, y, z);
    }
  }

  lemma ReachedThrough(g: Graph, x: nat, y: nat, z: nat)
    requires Reached(g, x, y) && Reached(g, y, z)
    ensures Reached(g, x, z)
  {
    if x != y && y != z {
      var p :| Path(g, p) && p[0] == x && p[|p| - 1] == y;
      var q :| Path(g, q) && q[0] == y && q[|q| - 1] == z;
      var r := p + q[1..];
      forall i | 0 <= i < |r| - 1
        ensures Edge(g, r[i], r[i + 1])
      {
        if i >= |p| - 1 {
          assert Edge(g, q[i - |p| + 1], q[i - |p| + 2]);
        }
      }
      assert Path(g, r) && r[0] == x && r[|r| - 1] == z;
    }
  }

  // ---- No other values fit ----

  /** If values fit at every node that is reached, the decoder gives them. */
  lemma {:induction false} FittingIsDecoded(g: Graph, val: Valuation, id: nat, active: set<nat>)
    requires ValidGraph(g) && id < |g.nodes| && FitsFrom(g, val, id)
    ensures Agrees(g, val, id, active)
    decreases Free(g, active), |g.nodes| - id
  {
    hide Free, Reached, UnmarshalItems, MappingInto, LastSet;
    assert ValidAt(g.nodes, id);
    ReachedItself(g, id);
    match g.nodes[id]
    case ScalarRec(_, _, _) =>
    case AliasRec(_, target) =>
      if id !in active {
        LessFree(g, active, id);
        FitsBelow(g, val, id, target);
        FittingIsDecoded(g, val, target, active + {id});
      }
    case SequenceRec(ids) =>
      FittingBelow(g, val, id, ids, active);
      ItemsAgree(g, val, id, ids, active);
    case MappingRec(ids) =>
      FittingBelow(g, val, id, ids, active);
      MappingAgrees(g, val, id, ids, active);
  }

  lemma ReachedItself(g: Graph, id: nat)
    requires id < |g.nodes|
    ensures Reached(g, id, id)
  {
  }

  lemma FitsBelow(g: Graph, val: Valuation, x: nat, y: nat)
    requires ValidGraph(g) && Edge(g, x, y) && FitsFrom(g, val, x)
    ensures FitsFrom(g, val, y)
  {
    hide Reached, Fits;
    forall z: nat | Reached(g, y, z)
      ensures Fits(g, val, z)
    {
      ReachedFrom(g, x, y, z);
    }
  }

  lemma {:induction false} FittingBelow(g: Graph, val: Valuation, id: nat, ids: seq<nat>, active: set<nat>)
    requires ValidGraph(g) && id < |g.nodes| && FitsFrom(g, val, id)
    requires Below(g, ids, id) && Children(g, ids, id)
    ensures AgreesBelow(g, val, ids, active)
    decreases Free(g, active), |g.nodes| - id, 0
  {
    hide Free, Reached, Fits, Agrees, Edge;
    forall i | 0 <= i < |ids|
      ensures Agrees(g, val, ids[i], active)
      ensures g.nodes[ids[i]].SequenceRec? ==> AgreesOnItems(g, val, ids[i], active)
    {
      FitsBelow(g, val, id, ids[i]);
      FittingIsDecoded(g, val, ids[i], active);
      if g.nodes[ids[i]].SequenceRec? {
        FittingItems(g, val, ids[i], active);
      }
    }
  }

  lemma {:induction false} FittingItems(g: Graph, val: Valuation, x: nat, active: set<nat>)
    requires ValidGraph(g) && x < |g.nodes| && g.nodes[x].SequenceRec? && FitsFrom(g, val, x)
    ensures AgreesOnItems(g, val, x, active)
    decreases Free(g, active), |g.nodes| - x, 0
  {
    hide Free, Reached, Fits, Agrees;
    assert ValidAt(g.nodes, x);
    forall y | y in g.nodes[x].children
      ensures Agrees(g, val, y, active)
    {
      FitsBelow(g, val, x, y);
      FittingIsDecoded(g, val, y, active);
    }
  }

  lemma ItemsAgree(g: Graph, val: Valuation, id: nat, ids: seq<nat>, active: set<nat>)
    requires ValidGraph(g) && id < |g.nodes| && g.nodes[id] == SequenceRec(ids) && Below(g, ids, id)
    requires Fits(g, val, id) && AgreesBelow(g, val, ids, active)
    ensures Agrees(g, val, id, active)
  {
    hide UnmarshalItems;
    assert ValidAt(g.nodes, id);
    var r := UnmarshalItems(g, ids, id, active);
    if r.Ok? && r.clean {
      if ids == [] {
        NoItems(g, id, active);
      } else {
        ItemsDecoded(g, ids, id, active, 0);
      }
      forall i | 0 <= i < |ids|
        ensures r.value[i] == val(id).items[i]
      {
        ItemsDecoded(g, ids, id, active, i);
        assert Agrees(g, val, ids[i], active);
      }
      assert r.value == val(id).items;
    }
  }

  lemma MappingAgrees(g: Graph, val: Valuation, id: nat, ids: seq<nat>, active: set<nat>)
    requires ValidGraph(g) && id < |g.nodes| && g.nodes[id] == MappingRec(ids) && Below(g, ids, id)
    requires Fits(g, val, id) && AgreesBelow(g, val, ids, active)
    ensures Agrees(g, val, id, active)
  {
    hide MappingInto, LastSet, AgreesBelow;
    assert ValidAt(g.nodes, id);
    var r := MappingInto(g, ids, id, map[], active);
    if r.Ok? && r.clean {
      forall c: nat
        ensures c in r.value <==> c in val(id).entries
        ensures c in r.value ==> r.value[c] == val(id).entries[c]
      {
        MappingSets(g, val, ids, id, map[], active, c);
        assert LastSet(g, val, ids, map[], c, val(id).entries);
        LastSetOnce(g, val, ids, c, r.value, val(id).entries);
      }
      assert r.value == val(id).entries;
    }
  }

  /** What is set last is set to one value. */
  lemma LastSetOnce(g: Graph, val: Valuation, ids: seq<nat>, c: nat, d: map<nat, Value>, d': map<nat, Value>)
    requires |ids| % 2 == 0 && forall i | 0 <= i < |ids| :: ids[i] < |g.nodes|
    requires LastSet(g, val, ids, map[], c, d) && LastSet(g, val, ids, map[], c, d')
    ensures (c in d <==> c in d') && (c in d ==> d[c] == d'[c])
  {
    hide Sets, SetsTo;
    if exists j: nat | j < |ids| / 2 :: Sets(g, val, ids, j, c) {
      var j: nat :| j < |ids| / 2 && SetsTo(g, val, ids, j, c, d[c])
                    && forall i: nat | j < i < |ids| / 2 :: !Sets(g, val, ids, i, c);
      var k: nat :| k < |ids| / 2 && SetsTo(g, val, ids, k, c, d'[c])
                    && forall i: nat | k < i < |ids| / 2 :: !Sets(g, val, ids, i, c);
      SetsToSets(g, val, ids, j, c, d[c]);
      SetsToSets(g, val, ids, k, c, d'[c]);
      assert j == k;
      SetsToOnce(g, val, ids, j, c, d[c], d'[c]);
    }
  }

  lemma SetsToSets(g: Graph, val: Valuation, ids: seq<nat>, j: nat, c: nat, w: Value)
    requires 2 * j + 1 < |ids| && forall i | 0 <= i < |ids| :: ids[i] < |g.nodes|
    requires SetsTo(g, val, ids, j, c, w)
    ensures Sets(g, val, ids, j, c)
  {
    hide MergeKey, HasKey;
  }

  lemma SetsToOnce(g: Graph, val: Valuation, ids: seq<nat>, j: nat, c: nat, w: Value, w': Value)
    requires 2 * j + 1 < |ids| && forall i | 0 <= i < |ids| :: ids[i] < |g.nodes|
    requires SetsTo(g, val, ids, j, c, w) && SetsTo(g, val, ids, j, c, w')
    ensures w == w'
  {
    hide MergeKey;
  }

  // ---- The value of a document ----

  /** A root that is decoded cleanly is decoded to the one value that fits the graph: some valuation
      fits wherever the root reaches, and each that does gives the decoder's value to the root. */
  lemma DecodedIsWhatFits(g: Graph, root: nat)
    requires ValidGraph(g) && root < |g.nodes| && Unmarshal(g, root, {}).Ok? && Unmarshal(g, root, {}).clean
    ensures exists val: Valuation :: FitsFrom(g, val, root)
    ensures forall val: Valuation | FitsFrom(g, val, root) :: Unmarshal(g, root, {}).value == val(root)
  {
    hide Unmarshal, Reached, Fits;
    var fitting := Decoding(g);
    forall x: nat | Reached(g, root, x)
      ensures Fits(g, fitting, x)
    {
      ReachedIsClean(g, root, x);
      DecodedFits(g, x);
    }
    assert FitsFrom(g, fitting, root);
    forall val: Valuation | FitsFrom(g, val, root)
      ensures Unmarshal(g, root, {}).value == val(root)
    {
      FittingIsDecoded(g, val, root, {});
    }
  }
}
