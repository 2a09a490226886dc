/** The decoder of decode.go as a class: recursive methods that keep the set of aliases being
    decoded up to date and fill sequences and maps in loops. */
module Decoder {
  import opened EventGrammar
  import opened ComposerSpec
  import S = DecoderSpec

  type Value = S.Value

  /** `ok` and the error or the value, as the specification has them. */
  ghost predicate Gives<T>(r: S.Outcome<T>, ok: bool, error: S.Error, value: T) {
    match r
    case Ok(v, _) => ok && value == v
    case Fail(e) => !ok && error == e
  }

  /** Values that have been decoded, in front of those to come. */
  ghost function Prepend(vs: seq<Value>, c: bool, r: S.Outcome<seq<Value>>): S.Outcome<seq<Value>> {
    match r
    case Fail(e) => S.Fail(e)
    case Ok(more, c') => S.Ok(vs + more, c && c')
  }

  /** A map filled from a cleaner or less clean start. */
  ghost function And<T>(c: bool, r: S.Outcome<T>): S.Outcome<T> {
    match r
    case Fail(e) => S.Fail(e)
    case Ok(v, c') => S.Ok(v, c && c')
  }

  class Decoder {
    ghost const g: S.Graph
    const nodes: seq<Rec>
    const anchors: map<Text, nat>
    const resolve: (Text, Text, bool) -> nat
    /** d.aliases: the alias nodes being decoded. */
    var aliases: set<nat>

    ghost predicate Valid() {
      g == S.Graph(nodes, anchors, resolve) && S.ValidGraph(g)
    }

    constructor (nodes: seq<Rec>, anchors: map<Text, nat>, resolve: (Text, Text, bool) -> nat)
      requires S.ValidGraph(S.Graph(nodes, anchors, resolve))
      ensures Valid() && this.nodes == nodes && this.anchors == anchors && this.resolve == resolve && aliases == {}
    {
      this.nodes, this.anchors, this.resolve := nodes, anchors, resolve;
      g := S.Graph(nodes, anchors, resolve);
      aliases := {};
    }

    method Unmarshal(id: nat) returns (ok: bool, error: S.Error, value: Value)
      requires Valid() && id < |nodes|
      modifies this
      ensures Gives(S.Unmarshal(g, id, old(aliases)), ok, error, value) && (ok ==> aliases == old(aliases))
      decreases S.Free(g, aliases), |nodes| - id, 0, 0
    {
      hide S.Free;
      assert ValidAt(g.nodes, id);
      ok, error, value := true, S.ContainsItself, S.Atom(0);
      var r := nodes[id];
      match r
      case ScalarRec(tag, text, implicit) =>
        value := S.Atom(resolve(tag, text, implicit));
      case AliasRec(_, target) =>
        if id in aliases {
          ok := false;
          return;
        }
        S.LessFree(g, aliases, id);
        aliases := aliases + {id};
        ok, error, value := Unmarshal(target);
        if ok {
          aliases := aliases - {id};
        }
      case SequenceRec(ids) =>
        var items;
        ok, error, items := UnmarshalSequence(ids, id);
        value := S.List(items);
      case MappingRec(ids) =>
        var m;
        ok, error, m := FillMapping(ids, id, map[]);
        value := S.Dict(m);
    }

    method UnmarshalSequence(ids: seq<nat>, parent: nat) returns (ok: bool, error: S.Error, items: seq<Value>)
      requires Valid() && parent < |nodes| && S.Below(g, ids, parent)
      modifies this
      ensures Gives(S.UnmarshalItems(g, ids, parent, old(aliases)), ok, error, items) && (ok ==> aliases == old(aliases))
      decreases S.Free(g, aliases), |nodes| - parent - 1, 2, |ids|
    {
      hide S.Free, S.Unmarshal;
      ok, error, items := true, S.ContainsItself, [];
      ghost var all := S.UnmarshalItems(g, ids, parent, aliases);
      ghost var clean := true;
      assert ids[0..] == ids;
      PrependNothing(all);
      var i := 0;
      while i < |ids|
        invariant 0 <= i <= |ids| && aliases == old(aliases) && ok
        invariant all == Prepend(items, clean, S.UnmarshalItems(g, ids[i..], parent, aliases))
      {
        assert ids[i..][1..] == ids[i + 1..] && ids[i..][0] == ids[i];
        ItemDone(g, ids[i..], parent, aliases, items, clean);
        var v;
        ok, error, v := Unmarshal(ids[i]);
        if !ok { return; }
        clean := clean && S.Unmarshal(g, ids[i], aliases).clean;
        items := items + [v];
        i := i + 1;
      }
      assert items + [] == items;
    }

    /** The keys and values of a mapping node, into a map. */
    method FillMapping(ids: seq<nat>, parent: nat, start: map<nat, Value>) returns (ok: bool, error: S.Error, m: map<nat, Value>)
      requires Valid() && parent < |nodes| && S.Below(g, ids, parent) && |ids| % 2 == 0
      modifies this
      ensures Gives(S.MappingInto(g, ids, parent, start, old(aliases)), ok, error, m) && (ok ==> aliases == old(aliases))
      decreases S.Free(g, aliases), |nodes| - parent - 1, 3, |ids|
    {
      hide S.Free, S.SetPair;
      ok, error, m := true, S.ContainsItself, start;
      ghost var all := S.MappingInto(g, ids, parent, start, aliases);
      ghost var clean := true;
      assert ids[0..] == ids;
      var i := 0;
      while i < |ids|
        invariant 0 <= i <= |ids| && i % 2 == 0 && aliases == old(aliases) && ok
        invariant all == And(clean, S.MappingInto(g, ids[i..], parent, m, aliases))
      {
        assert ids[i..][2..] == ids[i + 2..] && ids[i..][0] == ids[i] && ids[i..][1] == ids[i + 1];
        ghost var before := m;
        ok, error, m := SetPair(ids[i], ids[i + 1], parent, m);
        if !ok { return; }
        clean := clean && S.SetPair(g, ids[i], ids[i + 1], parent, before, aliases).clean;
        i := i + 2;
      }
    }

    method SetPair(k: nat, v: nat, parent: nat, start: map<nat, Value>) returns (ok: bool, error: S.Error, m: map<nat, Value>)
      requires Valid() && parent < k < |nodes| && parent < v < |nodes|
      modifies this
      ensures Gives(S.SetPair(g, k, v, parent, start, old(aliases)), ok, error, m) && (ok ==> aliases == old(aliases))
      decreases S.Free(g, aliases), |nodes| - parent - 1, 2, 0
    {
      hide S.Free, S.Unmarshal, S.MergeInto;
      m := start;
      if S.IsMerge(nodes[k]) {
        ok, error, m := Merge(v, start);
        return;
      }
      var key, value;
      ok, error, key := Unmarshal(k);
      if !ok { return; }
      if !key.Atom? {
        ok, error := false, S.InvalidMapKey;
        return;
      }
      ok, error, value := Unmarshal(v);
      if !ok { return; }
      m := m[key.code := value];
    }

    /** Decode a node into a map that is there. */
    method UnmarshalInto(id: nat, start: map<nat, Value>) returns (ok: bool, error: S.Error, m: map<nat, Value>)
      requires Valid() && id < |nodes|
      modifies this
      ensures Gives(S.UnmarshalInto(g, id, start, old(aliases)), ok, error, m) && (ok ==> aliases == old(aliases))
      decreases S.Free(g, aliases), |nodes| - id, 0, 0
    {
      hide S.Free;
      assert ValidAt(g.nodes, id);
      ok, error, m := true, S.ContainsItself, start;
      match nodes[id]
      case ScalarRec(tag, text, implicit) =>
        if resolve(tag, text, implicit) == 0 {
          m := map[];
        }
      case AliasRec(_, target) =>
        if id in aliases {
          ok := false;
          return;
        }
        S.LessFree(g, aliases, id);
        aliases := aliases + {id};
        ok, error, m := UnmarshalInto(target, start);
        if ok {
          aliases := aliases - {id};
        }
      case SequenceRec(_) =>
      case MappingRec(ids) =>
        ok, error, m := FillMapping(ids, id, start);
    }

    method NamesMap(name: Text) returns (isMap: bool)
      requires Valid()
      ensures isMap == S.NamesMap(g, name)
    {
      isMap := name !in anchors || nodes[anchors[name]].MappingRec?;
    }

    /** The value of a merge key. */
    method Merge(id: nat, start: map<nat, Value>) returns (ok: bool, error: S.Error, m: map<nat, Value>)
      requires Valid() && id < |nodes|
      modifies this
      ensures Gives(S.MergeInto(g, id, start, old(aliases)), ok, error, m) && (ok ==> aliases == old(aliases))
      decreases S.Free(g, aliases), |nodes| - id, 1, 0
    {
      hide S.Free, S.UnmarshalInto;
      assert ValidAt(g.nodes, id);
      ok, error, m := false, S.WantMap, start;
      match nodes[id]
      case MappingRec(_) =>
        ok, error, m := UnmarshalInto(id, start);
      case AliasRec(name, _) =>
        var isMap := NamesMap(name);
        if !isMap { return; }
        ok, error, m := UnmarshalInto(id, start);
      case SequenceRec(ids) =>
        ok, error, m := MergeSequence(ids, id, start);
      case ScalarRec(_, _, _) =>
    }

    /** Step backwards, as earlier nodes take precedence. */
    method MergeSequence(ids: seq<nat>, parent: nat, start: map<nat, Value>) returns (ok: bool, error: S.Error, m: map<nat, Value>)
      requires Valid() && parent < |nodes| && S.Below(g, ids, parent)
      modifies this
      ensures Gives(S.MergeList(g, ids, parent, start, old(aliases)), ok, error, m) && (ok ==> aliases == old(aliases))
      decreases S.Free(g, aliases), |nodes| - parent - 1, 2, |ids|
    {
      hide S.Free, S.UnmarshalInto;
      ok, error, m := true, S.WantMap, start;
      ghost var all := S.MergeList(g, ids, parent, start, aliases);
      ghost var clean := true;
      var i := |ids|;
      assert ids[..i] == ids;
      while i > 0
        invariant 0 <= i <= |ids| && aliases == old(aliases) && ok
        invariant all == And(clean, S.MergeList(g, ids[..i], parent, m, aliases))
      {
        i := i - 1;
        assert ids[..i + 1][..i] == ids[..i] && ids[..i + 1][i] == ids[i];
        var item := nodes[ids[i]];
        var can := item.MappingRec?;
        if item.AliasRec? {
          can := NamesMap(item.name);
        }
        if !can {
          return false, S.WantMap, m;
        }
        ghost var before := m;
        ok, error, m := UnmarshalInto(ids[i], m);
        if !ok { return; }
        clean := clean && S.UnmarshalInto(g, ids[i], before, aliases).clean;
      }
    }
  }

  lemma PrependNothing(r: S.Outcome<seq<Value>>)
    ensures Prepend([], true, r) == r
  {
    if r.Ok? {
      assert [] + r.value == r.value;
    }
  }

  lemma ItemDone(g: S.Graph, ids: seq<nat>, parent: nat, active: set<nat>, vs: seq<Value>, c: bool)
    requires S.ValidGraph(g) && parent < |g.nodes| && S.Below(g, ids, parent) && ids != []
    ensures Prepend(vs, c, S.UnmarshalItems(g, ids, parent, active))
         == match S.Unmarshal(g, ids[0], active)
            case Fail(e) => S.Fail(e)
            case Ok(v, c') => Prepend(vs + [v], c && c', S.UnmarshalItems(g, ids[1..], parent, active))
  {
    hide S.Unmarshal;
    if S.Unmarshal(g, ids[0], active).Ok? {
      var v := S.Unmarshal(g, ids[0], active).value;
      var r := S.UnmarshalItems(g, ids[1..], parent, active);
      if r.Ok? {
        assert vs + ([v] + r.value) == vs + [v] + r.value;
      }
    }
  }
}
