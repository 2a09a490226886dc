/** The event half of the emitter as the class of fields that emitterc.go updates in place. What
    it writes is in EmitterText; here every method does what its function in EmitterSpec says. */
module EventEmitter {
  import opened Utf8
  import opened EventGrammar
  import P = ParserSpec
  import S = EmitterSpec
  import opened EmitterSoundness

  class Emitter {
    /** What the text says at each event. */
    const choices: nat -> S.Choice
    const canonical: bool
    var bestIndent: int
    var state: S.EmitterState
    var states: seq<S.EmitterState>
    var events: seq<Event>
    var eventsHead: nat
    var indents: seq<int>
    var indent: int
    var flowLevel: int
    var mappingContext: bool
    var tagDirectives: seq<TagDirective>
    /** anchor_data, tag_data and scalar_data */
    var data: S.Data
    var error: bool

    ghost predicate Valid()
      reads this
    {
      eventsHead <= |events|
    }

    ghost function View(): S.M
      requires Valid()
      reads this
    {
      S.M(state, states, events[eventsHead..], eventsHead, flowLevel, indent, indents, bestIndent, canonical, mappingContext, tagDirectives)
    }

    /** The outcome of a state function is the result `r`. */
    ghost predicate Did(r: S.Result, ok: bool)
      reads this
    {
      && Valid()
      && match r
         case Ok(m) => ok && View() == m && !error
         case Fail => !ok && error
         case Panic => false
    }

    constructor (bestIndent: int, canonical: bool, choices: nat -> S.Choice)
      ensures Valid() && View() == S.Start(bestIndent, canonical) && Inv(View()) && !error
      ensures this.choices == choices && this.canonical == canonical
    {
      this.choices, this.canonical, this.bestIndent := choices, canonical, bestIndent;
      state, states, events, eventsHead := S.StreamStartState, [], [], 0;
      indents, indent, flowLevel, mappingContext := [], 0, 0, false;
      tagDirectives, data, error := [], S.NO_DATA, false;
    }

    method Fail() returns (ok: bool)
      requires Valid()
      modifies this`error
      ensures Did(S.Fail, ok)
    {
      error := true;
      ok := false;
    }

    // ---- Lookahead ----

    /** yaml_emitter_need_more_events. */
    method NeedMoreEvents() returns (more: bool)
      requires Valid()
      ensures more == S.NeedMoreEvents(View().events)
    {
      if eventsHead == |events| {
        return true;
      }
      var accumulate := 0;
      match events[eventsHead] {
        case DocumentStart(_, _, _) => accumulate := 1;
        case SequenceStart(_, _, _, _) => accumulate := 2;
        case MappingStart(_, _, _, _) => accumulate := 3;
        case _ => return false;
      }
      if |events| - eventsHead > accumulate {
        return false;
      }
      var level := 0;
      var i := eventsHead;
      while i < |events|
        invariant eventsHead <= i <= |events|
        invariant S.LevelReturns(events[eventsHead..], 0) == S.LevelReturns(events[i..], level)
      {
        assert events[i..][1..] == events[i + 1..];
        match events[i] {
          case StreamStart => level := level + 1;
          case DocumentStart(_, _, _) => level := level + 1;
          case SequenceStart(_, _, _, _) => level := level + 1;
          case MappingStart(_, _, _, _) => level := level + 1;
          case StreamEnd => level := level - 1;
          case DocumentEnd(_) => level := level - 1;
          case SequenceEnd => level := level - 1;
          case MappingEnd => level := level - 1;
          case _ =>
        }
        if level == 0 {
          return false;
        }
        i := i + 1;
      }
      more := true;
    }

    // ---- Analysis ----

    method AllAlpha(s: Text, from: nat, to: nat) returns (all: bool)
      requires from <= to <= |s|
      ensures all == S.AllAlpha(s[from..to])
    {
      var i := from;
      while i < to
        invariant from <= i <= to && forall j | from <= j < i :: S.Alpha(s[j])
      {
        if !S.Alpha(s[i]) {
          assert s[from..to][i - from] == s[i];
          return false;
        }
        i := i + 1;
      }
      all := true;
    }

    method AnalyzeAnchor(anchor: Text) returns (ok: bool)
      requires Valid()
      modifies this`data, this`error
      ensures ok == S.ValidAnchor(anchor) && Valid() && View() == old(View())
      ensures if ok then data == old(data).(anchor := anchor) && error == old(error) else error
    {
      if |anchor| == 0 {
        error := true;
        return false;
      }
      ok := AllAlpha(anchor, 0, |anchor|);
      assert anchor[0..|anchor|] == anchor;
      if !ok {
        error := true;
        return;
      }
      data := data.(anchor := anchor);
    }

    method AnalyzeTag(tag: Text)
      requires tag != []
      modifies this`data
      ensures data == S.TagData(tagDirectives, old(data), tag)
    {
      var i := 0;
      while i < |tagDirectives|
        invariant 0 <= i <= |tagDirectives| && data == old(data)
        invariant S.TagData(tagDirectives, data, tag) == S.TagData(tagDirectives[i..], data, tag)
      {
        assert tagDirectives[i..][1..] == tagDirectives[i + 1..];
        if tagDirectives[i].prefix <= tag {
          data := data.(handle := tagDirectives[i].handle, suffix := tag[|tagDirectives[i].prefix|..]);
          return;
        }
        i := i + 1;
      }
      data := data.(suffix := tag);
    }

    /** An anchor and a tag, where they are given and have to be written. */
    method AnalyzeProperties(anchor: Text, tag: Text, implicit: bool) returns (ok: bool)
      requires Valid() && !error && data == S.NO_DATA
      modifies this`data, this`error
      ensures Valid() && View() == old(View()) && error == !ok
      ensures S.AnalyzeProperties(View(), anchor, tag, implicit) == if ok then S.Good(data) else S.Bad
    {
      ok := true;
      if |anchor| > 0 {
        ok := AnalyzeAnchor(anchor);
        if !ok { return; }
      }
      if |tag| > 0 && (canonical || !implicit) {
        AnalyzeTag(tag);
      }
    }

    /** yaml_emitter_analyze_event. */
    method AnalyzeEvent(event: Event) returns (ok: bool)
      requires Valid() && !error
      modifies this`data, this`error
      ensures Valid() && View() == old(View()) && error == !ok
      ensures S.Analyze(View(), event) == if ok then S.Good(data) else S.Bad
    {
      data := S.NO_DATA;
      match event
      case Alias(anchor) =>
        ok := AnalyzeAnchor(anchor);
      case Scalar(anchor, tag, value, implicit, quoted, _) =>
        ok := AnalyzeProperties(anchor, tag, implicit || quoted);
        if !ok { return; }
        data := data.(value := value);
      case SequenceStart(anchor, tag, implicit, _) =>
        ok := AnalyzeProperties(anchor, tag, implicit);
      case MappingStart(anchor, tag, implicit, _) =>
        ok := AnalyzeProperties(anchor, tag, implicit);
      case _ =>
        ok := true;
    }

    // ---- Stacks ----

    method PopState()
      requires Valid() && states != []
      modifies this`state, this`states
      ensures Valid() && S.PopState(old(View())) == S.Ok(View())
    {
      state := states[|states| - 1];
      states := states[..|states| - 1];
    }

    method PopIndent()
      requires Valid() && indents != []
      modifies this`indent, this`indents
      ensures Valid() && S.PopIndent(old(View())) == S.Ok(View())
    {
      indent := indents[|indents| - 1];
      indents := indents[..|indents| - 1];
    }

    /** yaml_emitter_increase_indent. */
    method IncreaseIndent(flow: bool, indentless: bool)
      requires Valid()
      modifies this`indent, this`indents
      ensures Valid() && View() == S.IncreaseIndent(old(View()), flow, indentless)
    {
      indents := indents + [indent];
      if indent < 0 {
        if flow {
          indent := bestIndent;
        } else {
          indent := 0;
        }
      } else if !indentless {
        indent := indent + bestIndent;
      }
    }

    method PushState(s: S.EmitterState)
      requires Valid()
      modifies this`states
      ensures Valid() && View() == S.Push(old(View()), s)
    {
      states := states + [s];
    }

    method EndCollection()
      requires Valid() && states != [] && indents != []
      modifies this`state, this`states, this`indent, this`indents
      ensures Valid() && S.EndCollection(old(View())) == S.Ok(View())
    {
      PopIndent();
      PopState();
    }

    // ---- Documents ----

    method EmitStreamStart(event: Event) returns (ok: bool)
      requires Valid() && !error
      modifies this
      ensures Did(S.EmitStreamStart(old(View()), event), ok)
    {
      if !event.StreamStart? {
        ok := Fail();
        return;
      }
      if bestIndent < 2 || bestIndent > 9 {
        bestIndent := 2;
      }
      indent := -1;
      state := S.FirstDocumentStartState;
      ok := true;
    }

    method AnalyzeTagDirective(d: TagDirective) returns (ok: bool)
      ensures ok == S.ValidDirective(d)
    {
      var h := d.handle;
      if |h| == 0 || h[0] != 0x21 || h[|h| - 1] != 0x21 {
        return false;
      }
      if |h| > 1 {
        ok := AllAlpha(h, 1, |h| - 1);
        if !ok { return; }
      }
      ok := |d.prefix| > 0;
    }

    method AppendTagDirective(d: TagDirective, allowDuplicates: bool) returns (ok: bool)
      modifies this`tagDirectives
      ensures ok == (allowDuplicates || !P.HasHandle(old(tagDirectives), d.handle))
      ensures tagDirectives == if P.HasHandle(old(tagDirectives), d.handle) then old(tagDirectives) else old(tagDirectives) + [d]
    {
      var i := 0;
      while i < |tagDirectives|
        invariant 0 <= i <= |tagDirectives| && tagDirectives == old(tagDirectives)
        invariant forall j | 0 <= j < i :: tagDirectives[j].handle != d.handle
      {
        if tagDirectives[i].handle == d.handle {
          return allowDuplicates;
        }
        i := i + 1;
      }
      tagDirectives := tagDirectives + [d];
      ok := true;
    }

    method AppendDirectives(ds: seq<TagDirective>) returns (ok: bool)
      requires Valid() && !error
      modifies this`tagDirectives, this`error
      ensures Valid() && ok == S.AppendDirectives(old(tagDirectives), ds).0 && error == !ok
      ensures ok ==> tagDirectives == S.AppendDirectives(old(tagDirectives), ds).1
    {
      var i := 0;
      while i < |ds|
        invariant 0 <= i <= |ds| && Valid() && !error
        invariant S.AppendDirectives(old(tagDirectives), ds) == S.AppendDirectives(tagDirectives, ds[i..])
      {
        assert ds[i..][1..] == ds[i + 1..];
        ok := AnalyzeTagDirective(ds[i]);
        if !ok {
          error := true;
          return;
        }
        ok := AppendTagDirective(ds[i], false);
        if !ok {
          error := true;
          return;
        }
        i := i + 1;
      }
      ok := true;
    }

    method EmitDocumentStart(event: Event) returns (ok: bool)
      requires Valid() && !error
      modifies this
      ensures Did(S.EmitDocumentStart(old(View()), event), ok)
    {
      if event.DocumentStart? {
        if event.version.Version? && (event.version.major != 1 || event.version.minor != 1) {
          ok := Fail();
          return;
        }
        ok := AppendDirectives(event.tagDirectives);
        if !ok { return; }
        ok := AppendTagDirective(P.DEFAULT_TAG_DIRECTIVES[0], true);
        ok := AppendTagDirective(P.DEFAULT_TAG_DIRECTIVES[1], true);
        state := S.DocumentContentState;
        ok := true;
      } else if event.StreamEnd? {
        state := S.EndState;
        ok := true;
      } else {
        ok := Fail();
      }
    }

    method EmitDocumentContent(event: Event) returns (ok: bool)
      requires Valid() && !error
      modifies this
      ensures Did(S.EmitNode(S.Push(old(View()), S.DocumentEndState), event, old(data), false), ok)
    {
      PushState(S.DocumentEndState);
      ok := EmitNode(event, false);
    }

    method EmitDocumentEnd(event: Event) returns (ok: bool)
      requires Valid() && !error
      modifies this
      ensures Did(S.EmitDocumentEnd(old(View()), event), ok)
    {
      if !event.DocumentEnd? {
        ok := Fail();
        return;
      }
      state := S.DocumentStartState;
      tagDirectives := [];
      ok := true;
    }

    // ---- Collections ----

    method EmitFlowSequenceItem(event: Event, first: bool) returns (ok: bool)
      requires Valid() && !error && !S.EmitFlowSequenceItem(View(), event, data, first).Panic?
      modifies this
      ensures Did(S.EmitFlowSequenceItem(old(View()), event, old(data), first), ok)
    {
      hide S.EmitNode;
      if first {
        IncreaseIndent(true, false);
        flowLevel := flowLevel + 1;
      }
      if event.SequenceEnd? {
        flowLevel := flowLevel - 1;
        EndCollection();
        ok := true;
      } else {
        PushState(S.FlowSequenceItemState);
        ok := EmitNode(event, false);
      }
    }

    method EmitFlowMappingKey(event: Event, first: bool, c: S.Choice) returns (ok: bool)
      requires Valid() && !error && !S.EmitFlowMappingKey(View(), event, data, c, first).Panic?
      modifies this
      ensures Did(S.EmitFlowMappingKey(old(View()), event, old(data), c, first), ok)
    {
      hide S.EmitNode, S.SimpleKey;
      if first {
        IncreaseIndent(true, false);
        flowLevel := flowLevel + 1;
      }
      if event.MappingEnd? {
        flowLevel := flowLevel - 1;
        EndCollection();
        return true;
      }
      var simple := CheckSimpleKey(c);
      if !canonical && simple {
        PushState(S.FlowMappingSimpleValueState);
      } else {
        PushState(S.FlowMappingValueState);
      }
      ok := EmitNode(event, true);
    }

    method EmitFlowMappingValue(event: Event) returns (ok: bool)
      requires Valid() && !error
      modifies this
      ensures Did(S.EmitNode(S.Push(old(View()), S.FlowMappingKeyState), event, old(data), true), ok)
    {
      PushState(S.FlowMappingKeyState);
      ok := EmitNode(event, true);
    }

    method EmitBlockSequenceItem(event: Event, first: bool, c: S.Choice) returns (ok: bool)
      requires Valid() && !error && !S.EmitBlockSequenceItem(View(), event, data, c, first).Panic?
      modifies this
      ensures Did(S.EmitBlockSequenceItem(old(View()), event, old(data), c, first), ok)
    {
      hide S.EmitNode;
      if first {
        IncreaseIndent(false, mappingContext && !c.indention);
      }
      if event.SequenceEnd? {
        EndCollection();
        ok := true;
      } else {
        PushState(S.BlockSequenceItemState);
        ok := EmitNode(event, false);
      }
    }

    method EmitBlockMappingKey(event: Event, first: bool, c: S.Choice) returns (ok: bool)
      requires Valid() && !error && !S.EmitBlockMappingKey(View(), event, data, c, first).Panic?
      modifies this
      ensures Did(S.EmitBlockMappingKey(old(View()), event, old(data), c, first), ok)
    {
      hide S.EmitNode, S.SimpleKey;
      if first {
        IncreaseIndent(false, false);
      }
      if event.MappingEnd? {
        EndCollection();
        return true;
      }
      var simple := CheckSimpleKey(c);
      if simple {
        PushState(S.BlockMappingSimpleValueState);
      } else {
        PushState(S.BlockMappingValueState);
      }
      ok := EmitNode(event, true);
    }

    method EmitBlockMappingValue(event: Event) returns (ok: bool)
      requires Valid() && !error
      modifies this
      ensures Did(S.EmitNode(S.Push(old(View()), S.BlockMappingKeyState), event, old(data), true), ok)
    {
      PushState(S.BlockMappingKeyState);
      ok := EmitNode(event, true);
    }

    // ---- Nodes ----

    /** Dispatch on the kind of node; a state waits on the stack. */
    method EmitNode(event: Event, mapping: bool) returns (ok: bool)
      requires Valid() && !error && states != []
      modifies this
      ensures Did(S.EmitNode(old(View()), event, old(data), mapping), ok)
    {
      hide S.EmptySequence, S.EmptyMapping, S.EndCollection, S.IncreaseIndent, S.PopState;
      mappingContext := mapping;
      match event
      case Alias(_) =>
        ok := EmitAlias();
      case Scalar(_, _, _, _, _, _) =>
        ok := EmitScalar(event);
      case SequenceStart(_, _, _, layout) =>
        ok := EmitSequenceStart(layout);
      case MappingStart(_, _, _, layout) =>
        ok := EmitMappingStart(layout);
      case _ =>
        ok := Fail();
    }

    method EmitAlias() returns (ok: bool)
      requires Valid() && !error && states != []
      modifies this
      ensures Did(S.PopState(old(View())), ok)
    {
      PopState();
      ok := true;
    }

    method EmitSequenceStart(layout: CollectionStyle) returns (ok: bool)
      requires Valid() && !error
      modifies this
      ensures Did(S.Ok(old(View()).(state := if old(View()).flowLevel > 0 || canonical || layout == Flow
                                                || S.EmptySequence(old(View()))
                                             then S.FlowSequenceFirstItemState else S.BlockSequenceFirstItemState)), ok)
    {
      hide S.EmptySequence;
      var empty := CheckEmptySequence();
      if flowLevel > 0 || canonical || layout == Flow || empty {
        state := S.FlowSequenceFirstItemState;
      } else {
        state := S.BlockSequenceFirstItemState;
      }
      ok := true;
    }

    method EmitMappingStart(layout: CollectionStyle) returns (ok: bool)
      requires Valid() && !error
      modifies this
      ensures Did(S.Ok(old(View()).(state := if old(View()).flowLevel > 0 || canonical || layout == Flow
                                                || S.EmptyMapping(old(View()))
                                             then S.FlowMappingFirstKeyState else S.BlockMappingFirstKeyState)), ok)
    {
      hide S.EmptyMapping;
      var empty := CheckEmptyMapping();
      if flowLevel > 0 || canonical || layout == Flow || empty {
        state := S.FlowMappingFirstKeyState;
      } else {
        state := S.BlockMappingFirstKeyState;
      }
      ok := true;
    }

    method EmitScalar(event: Event) returns (ok: bool)
      requires Valid() && !error && states != [] && event.Scalar?
      modifies this
      ensures Did(if data.handle == [] && data.suffix == [] && !event.implicit && !event.quotedImplicit then S.Fail
                  else S.EndCollection(S.IncreaseIndent(old(View()), true, false)), ok)
      ensures data == old(data)
    {
      if |data.handle| == 0 && |data.suffix| == 0 && !event.implicit && !event.quotedImplicit {
        ok := Fail();
        return;
      }
      IncreaseIndent(true, false);
      EndCollection();
      ok := true;
    }

    method CheckEmptySequence() returns (empty: bool)
      requires Valid()
      ensures empty == S.EmptySequence(View())
    {
      if |events| - eventsHead < 2 {
        return false;
      }
      empty := events[eventsHead].SequenceStart? && events[eventsHead + 1].SequenceEnd?;
    }

    method CheckEmptyMapping() returns (empty: bool)
      requires Valid()
      ensures empty == S.EmptyMapping(View())
    {
      if |events| - eventsHead < 2 {
        return false;
      }
      empty := events[eventsHead].MappingStart? && events[eventsHead + 1].MappingEnd?;
    }

    /** yaml_emitter_check_simple_key. */
    method CheckSimpleKey(c: S.Choice) returns (simple: bool)
      requires Valid()
      ensures simple == S.SimpleKey(View(), data, c)
    {
      if eventsHead == |events| {
        return false;
      }
      var length := 0;
      match events[eventsHead] {
        case Alias(_) =>
          length := length + |data.anchor|;
        case Scalar(_, _, _, _, _, _) =>
          if c.multiline {
            return false;
          }
          length := length + |data.anchor| + |data.handle| + |data.suffix| + |data.value|;
        case SequenceStart(_, _, _, _) =>
          var empty := CheckEmptySequence();
          if !empty {
            return false;
          }
          length := length + |data.anchor| + |data.handle| + |data.suffix|;
        case MappingStart(_, _, _, _) =>
          var empty := CheckEmptyMapping();
          if !empty {
            return false;
          }
          length := length + |data.anchor| + |data.handle| + |data.suffix|;
        case _ =>
          return false;
      }
      simple := length <= 128;
    }

    // ---- The state machine ----

    method StateMachine(event: Event, c: S.Choice) returns (ok: bool)
      requires Valid() && !error && !S.Dispatch(View(), event, data, c).Panic?
      modifies this
      ensures Did(S.Dispatch(old(View()), event, old(data), c), ok)
    {
      hide S.EmitStreamStart, S.EmitDocumentStart, S.EmitDocumentEnd, S.EmitNode, S.EmitFlowSequenceItem, S.EmitFlowMappingKey,
           S.EmitBlockSequenceItem, S.EmitBlockMappingKey, Did;
      match state
      case StreamStartState => ok := EmitStreamStart(event);
      case FirstDocumentStartState => ok := EmitDocumentStart(event);
      case DocumentStartState => ok := EmitDocumentStart(event);
      case DocumentContentState => ok := EmitDocumentContent(event);
      case DocumentEndState => ok := EmitDocumentEnd(event);
      case FlowSequenceFirstItemState => ok := EmitFlowSequenceItem(event, true);
      case FlowSequenceItemState => ok := EmitFlowSequenceItem(event, false);
      case FlowMappingFirstKeyState => ok := EmitFlowMappingKey(event, true, c);
      case FlowMappingKeyState => ok := EmitFlowMappingKey(event, false, c);
      case FlowMappingSimpleValueState => ok := EmitFlowMappingValue(event);
      case FlowMappingValueState => ok := EmitFlowMappingValue(event);
      case BlockSequenceFirstItemState => ok := EmitBlockSequenceItem(event, true, c);
      case BlockSequenceItemState => ok := EmitBlockSequenceItem(event, false, c);
      case BlockMappingFirstKeyState => ok := EmitBlockMappingKey(event, true, c);
      case BlockMappingKeyState => ok := EmitBlockMappingKey(event, false, c);
      case BlockMappingSimpleValueState => ok := EmitBlockMappingValue(event);
      case BlockMappingValueState => ok := EmitBlockMappingValue(event);
      case EndState => ok := Fail();
    }

    /** Analyze and handle the head of the queue. */
    method HandleOne() returns (ok: bool)
      requires Valid() && !error && Inv(View()) && eventsHead < |events|
      modifies this
      ensures Did(S.Step(old(View()), choices(old(eventsHead))), ok)
    {
      var event := events[eventsHead];
      StepSound(View(), event, choices(eventsHead));
      hide Inv, S.Dispatch, S.Analyze, Abs;
      ok := AnalyzeEvent(event);
      if !ok { return; }
      ok := StateMachine(event, choices(eventsHead));
    }

    /** One round of yaml_emitter_emit: the head of the queue is handled and leaves it. */
    method HandleHead() returns (ok: bool)
      requires Valid() && !error && Inv(View()) && !S.NeedMoreEvents(View().events)
      modifies this
      ensures if ok then
                && Valid() && !error && Inv(View()) && |View().events| < |old(View()).events|
                && S.Drain(old(View()), choices) == S.Drain(View(), choices)
              else Did(S.Drain(old(View()), choices), ok)
    {
      ghost var m := View();
      NotEmptyQueue(m.events);
      StepSound(m, m.events[0], choices(eventsHead));
      StepKeepsQueue(m, choices(eventsHead));
      hide S.Step, Inv, S.NeedMoreEvents, Abs;
      ok := HandleOne();
      if !ok { return; }
      ghost var q := View();
      eventsHead := eventsHead + 1;
      assert View() == q.(events := m.events[1..], handled := m.handled + 1);
      InvIgnoresEvents(q, View());
    }

    /** yaml_emitter_emit. */
    method Emit(event: Event) returns (ok: bool)
      requires Valid() && !error && Inv(View())
      modifies this
      ensures Did(S.Emit(old(View()), event, choices), ok) && (ok ==> Inv(View()))
    {
      ghost var m0 := View();
      events := events + [event];
      ghost var m1 := View();
      assert m1 == m0.(events := m0.events + [event]);
      InvIgnoresEvents(m0, m1);
      hide S.Step, Inv, S.NeedMoreEvents;
      ok := true;
      var more := NeedMoreEvents();
      while !more
        invariant Valid() && !error && Inv(View()) && ok && more == S.NeedMoreEvents(View().events)
        invariant S.Drain(View(), choices) == S.Drain(m1, choices)
        decreases |View().events|
      {
        ok := HandleHead();
        if !ok { return; }
        more := NeedMoreEvents();
      }
    }
  }

  lemma InvIgnoresEvents(m: S.M, q: S.M)
    requires Inv(m) && q == m.(events := q.events, handled := q.handled)
    ensures Inv(q)
  {
    hide AllFrames, Flows, Depth, Waiting;
  }

  lemma NotEmptyQueue(es: seq<Event>)
    requires !S.NeedMoreEvents(es)
    ensures es != []
  {
  }

  /** The state functions do not touch the queue. */
  predicate SameQueue(m: S.M, r: S.Result) {
    r.Ok? ==> r.next.events == m.events && r.next.handled == m.handled
  }

  lemma NodeKeepsQueue(m: S.M, e: Event, d: S.Data, mapping: bool)
    ensures SameQueue(m, S.EmitNode(m, e, d, mapping)) && SameQueue(m, S.EndCollection(m))
  {
  }

  lemma ItemKeepsQueue(m: S.M, e: Event, d: S.Data, c: S.Choice, first: bool)
    ensures SameQueue(m, S.EmitFlowSequenceItem(m, e, d, first)) && SameQueue(m, S.EmitBlockSequenceItem(m, e, d, c, first))
  {
    hide S.EmitNode, S.EndCollection;
    var f := if first then S.IncreaseIndent(m, true, false).(flowLevel := m.flowLevel + 1) else m;
    var b := if first then S.IncreaseIndent(m, false, m.mappingContext && !c.indention) else m;
    NodeKeepsQueue(f.(flowLevel := f.flowLevel - 1), e, d, false);
    NodeKeepsQueue(S.Push(f, S.FlowSequenceItemState), e, d, false);
    NodeKeepsQueue(b, e, d, false);
    NodeKeepsQueue(S.Push(b, S.BlockSequenceItemState), e, d, false);
  }

  lemma KeyKeepsQueue(m: S.M, e: Event, d: S.Data, c: S.Choice, first: bool)
    ensures SameQueue(m, S.EmitFlowMappingKey(m, e, d, c, first)) && SameQueue(m, S.EmitBlockMappingKey(m, e, d, c, first))
  {
    hide S.EmitNode, S.EndCollection, S.SimpleKey;
    var f := if first then S.IncreaseIndent(m, true, false).(flowLevel := m.flowLevel + 1) else m;
    var b := if first then S.IncreaseIndent(m, false, false) else m;
    NodeKeepsQueue(f.(flowLevel := f.flowLevel - 1), e, d, false);
    NodeKeepsQueue(S.Push(f, S.FlowMappingSimpleValueState), e, d, true);
    NodeKeepsQueue(S.Push(f, S.FlowMappingValueState), e, d, true);
    NodeKeepsQueue(b, e, d, false);
    NodeKeepsQueue(S.Push(b, S.BlockMappingSimpleValueState), e, d, true);
    NodeKeepsQueue(S.Push(b, S.BlockMappingValueState), e, d, true);
  }

  lemma StepKeepsQueue(m: S.M, c: S.Choice)
    requires m.events != []
    ensures SameQueue(m, S.Step(m, c))
  {
    hide S.Analyze, S.EmitNode, S.EmitFlowSequenceItem, S.EmitBlockSequenceItem, S.EmitFlowMappingKey, S.EmitBlockMappingKey,
         S.AppendDirectives;
    var e := m.events[0];
    match S.Analyze(m, e)
    case Bad =>
    case Good(d) =>
      ItemKeepsQueue(m, e, d, c, true);
      ItemKeepsQueue(m, e, d, c, false);
      KeyKeepsQueue(m, e, d, c, true);
      KeyKeepsQueue(m, e, d, c, false);
      NodeKeepsQueue(S.Push(m, S.DocumentEndState), e, d, false);
      NodeKeepsQueue(S.Push(m, S.FlowMappingKeyState), e, d, true);
      NodeKeepsQueue(S.Push(m, S.BlockMappingKeyState), e, d, true);
  }
}
