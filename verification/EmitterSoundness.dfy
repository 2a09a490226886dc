/** The emitter's state machine takes exactly the events that the grammar of event streams allows
    next, and keeps its stacks in step with the open collections. */
module EmitterSoundness {
  import opened Utf8
  import opened EventGrammar
  import P = ParserSpec
  import opened EmitterSpec

  // ---- What the states stand for ----

  /** States that can wait on the stack for a collection to go on. */
  predicate InCollection(s: EmitterState) {
    InFlow(s) || InBlock(s)
  }

  predicate InFlow(s: EmitterState) {
    || s.FlowSequenceItemState? || s.FlowMappingKeyState? || s.FlowMappingSimpleValueState? || s.FlowMappingValueState?
  }

  predicate InBlock(s: EmitterState) {
    || s.BlockSequenceItemState? || s.BlockMappingKeyState? || s.BlockMappingSimpleValueState? || s.BlockMappingValueState?
  }

  predicate FlowFirst(s: EmitterState) {
    s.FlowSequenceFirstItemState? || s.FlowMappingFirstKeyState?
  }

  predicate BlockFirst(s: EmitterState) {
    s.BlockSequenceFirstItemState? || s.BlockMappingFirstKeyState?
  }

  function Frames(s: EmitterState): seq<Frame> {
    match s
    case DocumentEndState => [Rooted]
    case FlowSequenceFirstItemState => [InSequence]
    case FlowSequenceItemState => [InSequence]
    case BlockSequenceFirstItemState => [InSequence]
    case BlockSequenceItemState => [InSequence]
    case FlowMappingFirstKeyState => [BeforeKey]
    case FlowMappingKeyState => [BeforeKey]
    case BlockMappingFirstKeyState => [BeforeKey]
    case BlockMappingKeyState => [BeforeKey]
    case FlowMappingSimpleValueState => [BeforeValue]
    case FlowMappingValueState => [BeforeValue]
    case BlockMappingSimpleValueState => [BeforeValue]
    case BlockMappingValueState => [BeforeValue]
    case _ => []
  }

  function AllFrames(ss: seq<EmitterState>): seq<Frame> {
    if ss == [] then [] else AllFrames(ss[..|ss| - 1]) + Frames(ss[|ss| - 1])
  }

  /** Flow collections whose bracket has been written. */
  function Flows(ss: seq<EmitterState>): nat {
    if ss == [] then 0 else Flows(ss[..|ss| - 1]) + if InFlow(ss[|ss| - 1]) then 1 else 0
  }

  /** Collections that have raised the indentation. */
  function Depth(ss: seq<EmitterState>): nat {
    if ss == [] then 0 else Depth(ss[..|ss| - 1]) + if InCollection(ss[|ss| - 1]) then 1 else 0
  }

  /** The end of the document at the bottom, collections above it, and no block collection inside
      a flow collection. */
  ghost predicate Waiting(ss: seq<EmitterState>) {
    && ss != [] && ss[0].DocumentEndState?
    && (forall i | 1 <= i < |ss| :: InCollection(ss[i]))
    && (forall i, j | 1 <= i < j < |ss| && InFlow(ss[i]) :: InFlow(ss[j]))
  }

  /** The bottom of the stack of indents is the indentation outside of documents. */
  ghost predicate Indents(m: M) {
    var s := m.indents + [m.indent];
    s[0] == -1 && forall i | 0 < i < |s| :: s[i] >= 0
  }

  /** `ss` holds all states in whose collections the emitter is, and the other stacks agree. */
  ghost predicate Stacks(m: M, ss: seq<EmitterState>) {
    && Waiting(ss) && m.flowLevel == Flows(ss) && |m.indents| == Depth(ss) && Indents(m)
  }

  ghost predicate Outside(m: M) {
    m.states == [] && m.flowLevel == 0 && m.indents == []
  }

  predicate GoodDirectives(ds: seq<TagDirective>) {
    forall i | 0 <= i < |ds| :: ds[i].handle != []
  }

  ghost predicate Inv(m: M) {
    && (m.state != StreamStartState ==> 2 <= m.bestIndent <= 9)
    && GoodDirectives(m.tagDirectives)
    && match m.state
       case StreamStartState => Outside(m) && m.tagDirectives == []
       case FirstDocumentStartState => Outside(m) && m.indent == -1 && m.tagDirectives == []
       case DocumentStartState => Outside(m) && m.indent == -1 && m.tagDirectives == []
       case DocumentContentState => Outside(m) && m.indent == -1
       case DocumentEndState => Outside(m) && m.indent == -1
       case EndState => Outside(m) && m.indent == -1
       case _ =>
         if InCollection(m.state) then Stacks(m, m.states + [m.state])
         else Stacks(m, m.states) && (BlockFirst(m.state) ==> m.flowLevel == 0)
  }

  /** The recognizer's state after the events handled so far. */
  ghost function Abs(m: M): State {
    match m.state
    case StreamStartState => Before
    case EndState => After
    case DocumentContentState => Open([Root])
    case _ => Open(AllFrames(m.states) + Frames(m.state))
  }

  // ---- Which events are well formed by themselves ----

  predicate DistinctHandles(ds: seq<TagDirective>) {
    forall i, j | 0 <= i < j < |ds| :: ds[i].handle != ds[j].handle
  }

  /** Anchors and directives are well formed, and a scalar has a tag or may go without one. */
  predicate ValidEvent(e: Event) {
    match e
    case DocumentStart(version, ds, _) =>
      ValidVersion(version) && (forall i | 0 <= i < |ds| :: ValidDirective(ds[i])) && DistinctHandles(ds)
    case Alias(anchor) => ValidAnchor(anchor)
    case Scalar(anchor, tag, _, implicit, quoted, _) =>
      (anchor == [] || ValidAnchor(anchor)) && (tag != [] || implicit || quoted)
    case SequenceStart(anchor, _, _, _) => anchor == [] || ValidAnchor(anchor)
    case MappingStart(anchor, _, _, _) => anchor == [] || ValidAnchor(anchor)
    case _ => true
  }

  /** A character of anchors and of the names in tag handles. */
  predicate WordChar(b: Byte) {
    var c := b as char;
    'a' <= c <= 'z' || 'A' <= c <= 'Z' || '0' <= c <= '9' || c == '_' || c == '-'
  }

  predicate IsWord(w: Text) {
    forall i | 0 <= i < |w| :: WordChar(w[i])
  }

  /** Which anchors, directives and versions are well formed. */
  lemma ValidityMeant(a: Text, d: TagDirective, v: Version)
    ensures ValidAnchor(a) <==> a != [] && IsWord(a)
    ensures ValidDirective(d)
       <==> d.prefix != [] && (d.handle == Ascii("!") || exists w :: IsWord(w) && d.handle == Ascii("!") + w + Ascii("!"))
    ensures ValidVersion(v) <==> v == NoVersion || v == Version(1, 1)
  {
    var h := d.handle;
    if ValidDirective(d) && |h| > 1 {
      var w := h[1..|h| - 1];
      assert IsWord(w) && h == Ascii("!") + w + Ascii("!");
    }
    forall w | IsWord(w) && h == Ascii("!") + w + Ascii("!")
      ensures d.prefix != [] ==> ValidDirective(d)
    {
      assert h[1..|h| - 1] == w;
    }
    assert h == Ascii("!") <==> h == [0x21];
  }

  // ---- Analysis ----

  lemma {:induction false} TagDataNotEmpty(ds: seq<TagDirective>, d: Data, tag: Text)
    requires tag != [] && GoodDirectives(ds)
    ensures var r := TagData(ds, d, tag); r.handle != [] || r.suffix != []
    ensures TagData(ds, d, tag).anchor == d.anchor
  {
    if ds != [] && !(ds[0].prefix <= tag) {
      TagDataNotEmpty(ds[1..], d, tag);
    }
  }

  /** What the analysis of an event says for the state functions. */
  lemma Analyzed(m: M, e: Event)
    requires GoodDirectives(m.tagDirectives)
    ensures !e.DocumentStart? ==>
              (ValidEvent(e) <==>
                 && Analyze(m, e).Good?
                 && (e.Scalar? ==> var d := Analyze(m, e).data; d.handle != [] || d.suffix != [] || e.implicit || e.quotedImplicit))
  {
    match e
    case Scalar(anchor, tag, value, implicit, quoted, _) =>
      if tag != [] {
        forall d {:trigger TagData(m.tagDirectives, d, tag)}
          ensures TagData(m.tagDirectives, d, tag).handle != [] || TagData(m.tagDirectives, d, tag).suffix != []
        {
          TagDataNotEmpty(m.tagDirectives, d, tag);
        }
      }
      hide TagData;
    case _ => hide TagData;
  }

  lemma {:induction false} DirectivesAppended(seen: seq<TagDirective>, ds: seq<TagDirective>)
    requires DistinctHandles(seen)
    ensures AppendDirectives(seen, ds).0 <==>
              (forall i | 0 <= i < |ds| :: ValidDirective(ds[i])) && DistinctHandles(seen + ds)
    ensures AppendDirectives(seen, ds).0 ==> AppendDirectives(seen, ds).1 == seen + ds
    decreases |ds|
  {
    if ds == [] {
      assert seen + ds == seen;
    } else {
      var all := seen + ds;
      var next := seen + [ds[0]];
      assert all == next + ds[1..];
      if P.HasHandle(seen, ds[0].handle) {
        var i :| 0 <= i < |seen| && seen[i].handle == ds[0].handle;
        assert all[i].handle == all[|seen|].handle;
      } else if ValidDirective(ds[0]) {
        DirectivesAppended(next, ds[1..]);
        assert DistinctHandles(next);
        assert forall i | 1 <= i < |ds| :: ds[i] == ds[1..][i - 1];
      }
    }
  }

  // ---- Steps ----

  /** The step does what the recognizer says of a well-formed event, and keeps the invariant. */
  ghost predicate Sound(g: State, e: Event, r: Result) {
    match r
    case Panic => false
    case Fail => EventGrammar.Step(g, e) == Rejected || !ValidEvent(e)
    case Ok(q) => ValidEvent(e) && EventGrammar.Step(g, e) != Rejected && Inv(q) && EventGrammar.Step(g, e) == Abs(q)
  }

  lemma FailSound(g: State, e: Event)
    requires EventGrammar.Step(g, e) == Rejected || !ValidEvent(e)
    ensures Sound(g, e, Fail)
  {
  }

  lemma PushAll(ss: seq<EmitterState>, s: EmitterState)
    ensures AllFrames(ss + [s]) == AllFrames(ss) + Frames(s)
    ensures Flows(ss + [s]) == Flows(ss) + if InFlow(s) then 1 else 0
    ensures Depth(ss + [s]) == Depth(ss) + if InCollection(s) then 1 else 0
  {
    assert (ss + [s])[..|ss|] == ss;
  }

  lemma NoStates()
    ensures AllFrames([]) == [] && Flows([]) == 0 && Depth([]) == 0
  {
  }

  /** Flow collections are open exactly if the innermost one is a flow collection. */
  lemma {:induction false} FlowOnTop(ss: seq<EmitterState>)
    requires Waiting(ss)
    ensures Flows(ss) > 0 <==> |ss| > 1 && InFlow(ss[|ss| - 1])
    decreases |ss|
  {
    var t := ss[..|ss| - 1];
    if |ss| > 1 {
      FlowOnTop(t);
      assert |t| > 1 && InFlow(t[|t| - 1]) ==> InFlow(ss[|ss| - 1]);
    } else {
      NoStates();
      assert t == [];
    }
  }

  /** Back to the state that waits. */
  lemma Popped(m: M)
    requires Stacks(m, m.states)
    ensures PopState(m).Ok?
    ensures var q := PopState(m).next;
            (2 <= m.bestIndent <= 9 && GoodDirectives(m.tagDirectives) ==> Inv(q)) && Abs(q) == Open(AllFrames(m.states))
  {
    hide AllFrames, Flows, Depth;
    var n := |m.states| - 1;
    var s := m.states[n];
    assert m.states == m.states[..n] + [s];
    PushAll(m.states[..n], s);
    if n == 0 {
      NoStates();
      PoppedToDocument(m);
    } else {
      PoppedToCollection(m);
    }
  }

  lemma PoppedToDocument(m: M)
    requires Stacks(m, m.states) && |m.states| == 1
    ensures var q := PopState(m).next;
            (2 <= m.bestIndent <= 9 && GoodDirectives(m.tagDirectives) ==> Inv(q)) && Abs(q) == Open(AllFrames(m.states))
  {
    var s := m.states[0];
    PushAll([], s);
    NoStates();
    hide AllFrames, Flows, Depth;
    assert m.states[..0] == [];
    assert [] + [s] == m.states;
    assert [] + Frames(s) == Frames(s);
    assert (m.indents + [m.indent])[0] == m.indent;
  }

  lemma PoppedToCollection(m: M)
    requires Stacks(m, m.states) && |m.states| > 1
    ensures var q := PopState(m).next;
            (2 <= m.bestIndent <= 9 && GoodDirectives(m.tagDirectives) ==> Inv(q)) && Abs(q) == Open(AllFrames(m.states))
  {
    hide AllFrames, Flows, Depth;
    var n := |m.states| - 1;
    var s := m.states[n];
    assert m.states == m.states[..n] + [s];
    PushAll(m.states[..n], s);
    assert InCollection(s);
    assert PopState(m).next.states + [s] == m.states;
  }

  /** A node is due in the innermost of the constructs `fs`. */
  ghost predicate NodeDue(m: M, fs: seq<Frame>) {
    && Stacks(m, m.states) && 2 <= m.bestIndent <= 9 && GoodDirectives(m.tagDirectives)
    && fs != [] && TakesNode(fs[|fs| - 1]) && AllFrames(m.states) == Filled(fs)
  }

  lemma LeafStep(m: M, fs: seq<Frame>, e: Event)
    requires NodeDue(m, fs) && (e.Alias? || e.Scalar?)
    ensures PopState(m).Ok? && Inv(PopState(m).next)
    ensures EventGrammar.Step(Open(fs), e) == Abs(PopState(m).next) && EventGrammar.Step(Open(fs), e) != Rejected
  {
    hide AllFrames, Flows, Depth, Inv, Abs;
    Popped(m);
  }

  /** A scalar is written one level deeper, and the level is taken back. */
  lemma ScalarLevel(m: M)
    requires Indents(m) && 2 <= m.bestIndent <= 9
    ensures EndCollection(IncreaseIndent(m, true, false)) == PopState(m)
    ensures IncreaseIndent(m, true, false).indent >= 2
  {
    var s := m.indents + [m.indent];
    assert s[|s| - 1] == m.indent;
    assert s[..|s| - 1] == m.indents;
    var n := IncreaseIndent(m, true, false);
    assert n.indents[..|n.indents| - 1] == m.indents;
  }

  lemma StartStep(m: M, fs: seq<Frame>, e: Event, s: EmitterState)
    requires NodeDue(m, fs) && (e.SequenceStart? || e.MappingStart?)
    requires Frames(s) == (if e.SequenceStart? then [InSequence] else [BeforeKey])
    requires FlowFirst(s) || (BlockFirst(s) && m.flowLevel == 0)
    ensures Inv(m.(state := s))
    ensures EventGrammar.Step(Open(fs), e) == Abs(m.(state := s)) && EventGrammar.Step(Open(fs), e) != Rejected
  {
    hide AllFrames, Flows, Depth;
  }

  /** The event closes the innermost construct. */
  predicate EndsFrame(f: Frame, e: Event) {
    (f == InSequence && e.SequenceEnd?) || (f == BeforeKey && e.MappingEnd?)
  }

  lemma NodeSound(m0: M, fs: seq<Frame>, e: Event, d: Data, mapping: bool)
    requires NodeDue(m0, fs) && Analyze(m0, e) == Good(d) && !EndsFrame(fs[|fs| - 1], e)
    ensures Sound(Open(fs), e, EmitNode(m0, e, d, mapping))
  {
    DueAnyway(m0, fs, mapping);
    hide NodeDue, Analyze, EmitNode, Sound, EndsFrame, TakesNode;
    if e.Alias? || e.Scalar? {
      LeafSound(m0, fs, e, d, mapping);
    } else if e.SequenceStart? || e.MappingStart? {
      StartSound(m0, fs, e, d, mapping);
    } else {
      NotANode(fs, e);
      FailSound(Open(fs), e);
      NoNodeFails(m0, e, d, mapping);
    }
  }

  lemma NoNodeFails(m: M, e: Event, d: Data, mapping: bool)
    requires !StartsNode(e)
    ensures EmitNode(m, e, d, mapping) == Fail
  {
  }

  lemma LeafSound(m0: M, fs: seq<Frame>, e: Event, d: Data, mapping: bool)
    requires NodeDue(m0, fs) && Analyze(m0, e) == Good(d) && (e.Alias? || e.Scalar?)
    ensures Sound(Open(fs), e, EmitNode(m0, e, d, mapping))
  {
    var m := m0.(mappingContext := mapping);
    Analyzed(m0, e);
    DueAnyway(m0, fs, mapping);
    hide AllFrames, Flows, Depth, Inv, Abs, Analyze, NodeDue, EventGrammar.Step, IncreaseIndent, EndCollection, ValidAnchor;
    LeafStep(m, fs, e);
    ScalarLevel(m);
  }

  lemma StartSound(m0: M, fs: seq<Frame>, e: Event, d: Data, mapping: bool)
    requires NodeDue(m0, fs) && Analyze(m0, e) == Good(d) && (e.SequenceStart? || e.MappingStart?)
    ensures Sound(Open(fs), e, EmitNode(m0, e, d, mapping))
  {
    var m := m0.(mappingContext := mapping);
    Analyzed(m0, e);
    DueAnyway(m0, fs, mapping);
    FlowNotNegative(m, fs);
    hide AllFrames, Flows, Depth, Inv, Abs, Analyze, NodeDue, EventGrammar.Step, EmptySequence, EmptyMapping, ValidAnchor;
    var flow, block := if e.SequenceStart? then FlowSequenceFirstItemState else FlowMappingFirstKeyState,
                       if e.SequenceStart? then BlockSequenceFirstItemState else BlockMappingFirstKeyState;
    StartStep(m, fs, e, flow);
    if m.flowLevel == 0 {
      StartStep(m, fs, e, block);
    }
  }

  lemma DueAnyway(m: M, fs: seq<Frame>, mapping: bool)
    requires NodeDue(m, fs)
    ensures NodeDue(m.(mappingContext := mapping), fs) && fs != [] && TakesNode(fs[|fs| - 1]) && Indents(m) && 2 <= m.bestIndent <= 9
  {
  }

  lemma FlowNotNegative(m: M, fs: seq<Frame>)
    requires NodeDue(m, fs)
    ensures m.flowLevel >= 0
  {
  }

  lemma NotANode(fs: seq<Frame>, e: Event)
    requires fs != [] && TakesNode(fs[|fs| - 1]) && !StartsNode(e) && !EndsFrame(fs[|fs| - 1], e)
    ensures EventGrammar.Step(Open(fs), e) == Rejected
  {
  }

  // ---- Collections ----

  /** The emitter in a collection at state `s`, once its level has been entered. */
  ghost predicate Inside(m: M, s: EmitterState) {
    Stacks(m, m.states + [s]) && InCollection(s) && 2 <= m.bestIndent <= 9 && GoodDirectives(m.tagDirectives)
  }

  ghost function Now(m: M, s: EmitterState): State {
    Open(AllFrames(m.states) + Frames(s))
  }

  lemma WaitingReplaced(ss: seq<EmitterState>, s: EmitterState, t: EmitterState)
    requires Waiting(ss + [s]) && InCollection(t) && InFlow(s) == InFlow(t) && InCollection(s)
    ensures Waiting(ss + [t])
  {
    var a := ss + [s];
    var b := ss + [t];
    assert forall i | 0 <= i < |ss| :: b[i] == a[i];
    assert b[|ss|] == t && a[|ss|] == s;
  }

  lemma OneFrame(s: EmitterState)
    requires InCollection(s)
    ensures Frames(s) == [Frames(s)[0]]
  {
  }

  lemma FilledTop(a: seq<Frame>, f: Frame)
    ensures Filled(a + [f]) == a + [Advance(f)] && (a + [f])[|a + [f]| - 1] == f && (a + [f])[..|a + [f]| - 1] == a
  {
  }

  lemma DueInside(m: M, s: EmitterState, t: EmitterState)
    requires Inside(m, s) && InCollection(t) && InFlow(s) == InFlow(t) && Frames(t) == Filled(Frames(s)) && TakesNode(Frames(s)[0])
    ensures NodeDue(Push(m, t), AllFrames(m.states) + Frames(s))
    ensures Frames(s) == [Frames(s)[0]]
  {
    hide AllFrames, Flows, Depth, Frames, Waiting, Filled;
    OneFrame(s);
    var f := Frames(s)[0];
    FilledTop([], f);
    assert [] + [f] == [f] && [] + [Advance(f)] == [Advance(f)];
    PushAll(m.states, s);
    PushAll(m.states, t);
    WaitingReplaced(m.states, s, t);
    FilledTop(AllFrames(m.states), f);
  }

  lemma NodeInside(m: M, s: EmitterState, t: EmitterState, e: Event, d: Data, mapping: bool)
    requires Inside(m, s) && InCollection(t) && InFlow(s) == InFlow(t) && Frames(t) == Filled(Frames(s)) && TakesNode(Frames(s)[0])
    requires Analyze(m, e) == Good(d) && !EndsFrame(Frames(s)[0], e)
    ensures Sound(Now(m, s), e, EmitNode(Push(m, t), e, d, mapping))
  {
    hide AllFrames, Flows, Depth, Sound, EmitNode, NodeDue, Analyze, Inside;
    DueInside(m, s, t);
    AnalyzePushed(m, t, e);
    var fs := AllFrames(m.states) + Frames(s);
    assert fs[|fs| - 1] == Frames(s)[0];
    NodeSound(Push(m, t), fs, e, d, mapping);
  }

  lemma AnalyzePushed(m: M, t: EmitterState, e: Event)
    ensures Analyze(Push(m, t), e) == Analyze(m, e)
  {
  }

  /** A flow collection ends. */
  function Lowered(m: M, s: EmitterState): M {
    if InFlow(s) then m.(flowLevel := m.flowLevel - 1) else m
  }

  /** A collection ends: its level is taken back. */
  lemma EndInside(m: M, s: EmitterState, e: Event)
    requires Inside(m, s) && EndsFrame(Frames(s)[0], e)
    ensures Sound(Now(m, s), e, EndCollection(Lowered(m, s)))
  {
    hide AllFrames, Flows, Depth, Frames, Waiting, Inv, Abs;
    PushAll(m.states, s);
    var r := PopIndent(Lowered(m, s)).next;
    IndentsPopped(m);
    WaitingPopped(m.states, s);
    Popped(r);
    OneFrame(s);
    EndStep(AllFrames(m.states), Frames(s)[0], e);
    hide EventGrammar.Step;
  }

  lemma EndStep(a: seq<Frame>, f: Frame, e: Event)
    requires EndsFrame(f, e)
    ensures EventGrammar.Step(Open(a + [f]), e) == Open(a)
  {
    FilledTop(a, f);
    hide Filled;
  }

  lemma WaitingPopped(ss: seq<EmitterState>, s: EmitterState)
    requires Waiting(ss + [s]) && InCollection(s)
    ensures Waiting(ss)
  {
    var t := ss + [s];
    assert forall i | 0 <= i < |ss| :: t[i] == ss[i];
    assert t[|ss|] == s;
  }

  lemma IndentsPopped(m: M)
    requires Indents(m) && m.indents != []
    ensures Indents(m.(indent := m.indents[|m.indents| - 1], indents := m.indents[..|m.indents| - 1]))
  {
    var s := m.indents + [m.indent];
    var t := m.indents[..|m.indents| - 1] + [m.indents[|m.indents| - 1]];
    assert t == m.indents;
    assert forall i | 0 <= i < |t| :: t[i] == s[i];
  }

  /** Entering a collection raises the level. */
  lemma EnterInside(m: M, s: EmitterState, flow: bool, indentless: bool)
    requires Stacks(m, m.states) && 2 <= m.bestIndent <= 9 && GoodDirectives(m.tagDirectives)
    requires InCollection(s) && InFlow(s) == flow && (!flow ==> m.flowLevel == 0)
    ensures var n := IncreaseIndent(m, flow, indentless);
            Inside(if flow then n.(flowLevel := m.flowLevel + 1) else n, s)
  {
    PushAll(m.states, s);
    FlowOnTop(m.states);
    var a := m.states + [s];
    assert forall i | 0 <= i < |m.states| :: a[i] == m.states[i];
    var n := IncreaseIndent(m, flow, indentless);
    var l := m.indents + [m.indent];
    assert n.indents == l;
    var l' := n.indents + [n.indent];
    assert forall i | 0 <= i < |l| :: l'[i] == l[i];
    assert l[|l| - 1] == m.indent;
    assert !flow ==> forall i | 1 <= i < |m.states| :: !InFlow(m.states[i]) by {
      NoFlows(m.states);
    }
    hide AllFrames, Flows, Depth;
  }

  lemma {:induction false} NoFlows(ss: seq<EmitterState>)
    requires Waiting(ss)
    ensures Flows(ss) == 0 ==> forall i | 1 <= i < |ss| :: !InFlow(ss[i])
  {
    FlowOnTop(ss);
    hide Flows;
  }

  /** What stands for a collection from its first state on. */
  function Entry(s: EmitterState): EmitterState {
    match s
    case FlowSequenceFirstItemState => FlowSequenceItemState
    case FlowMappingFirstKeyState => FlowMappingKeyState
    case BlockSequenceFirstItemState => BlockSequenceItemState
    case BlockMappingFirstKeyState => BlockMappingKeyState
    case _ => s
  }

  /** The emitter once it has entered the collection, if this is its first event. */
  function Entered(m: M, indentless: bool): M {
    if FlowFirst(m.state) then IncreaseIndent(m, true, false).(flowLevel := m.flowLevel + 1)
    else if BlockFirst(m.state) then IncreaseIndent(m, false, indentless)
    else m
  }

  lemma EnteredInside(m: M, indentless: bool, e: Event)
    requires Inv(m) && (InCollection(m.state) || FlowFirst(m.state) || BlockFirst(m.state))
    ensures Inside(Entered(m, indentless), Entry(m.state))
    ensures Now(Entered(m, indentless), Entry(m.state)) == Abs(m)
    ensures Analyze(Entered(m, indentless), e) == Analyze(m, e)
  {
    hide Stacks, Flows, Depth, AllFrames, Analyze;
    AnalyzeEntered(m, indentless, e);
    if FlowFirst(m.state) {
      EnterInside(m, Entry(m.state), true, false);
    } else if BlockFirst(m.state) {
      EnterInside(m, Entry(m.state), false, indentless);
    }
  }

  lemma AnalyzeEntered(m: M, indentless: bool, e: Event)
    ensures Analyze(Entered(m, indentless), e) == Analyze(m, e)
  {
    hide FlowFirst, BlockFirst, ValidAnchor, TagData;
  }

  lemma CollectionFrames(s: EmitterState, e: Event)
    requires s == FlowSequenceItemState || s == BlockSequenceItemState
    ensures Frames(s) == [InSequence] && Filled([InSequence]) == [InSequence] && TakesNode(InSequence) && InCollection(s)
    ensures EndsFrame(InSequence, e) <==> e.SequenceEnd?
  {
    assert Filled([InSequence]) == [] + [Advance(InSequence)];
  }

  lemma SequenceItemDispatched(m: M, e: Event, d: Data, c: Choice)
    requires Entry(m.state) == FlowSequenceItemState || Entry(m.state) == BlockSequenceItemState
    ensures var s, n := Entry(m.state), Entered(m, m.mappingContext && !c.indention);
            Dispatch(m, e, d, c) ==
            if e.SequenceEnd? then EndCollection(Lowered(n, s))
            else EmitNode(Push(n, s), e, d, false)
  {
    hide EmitNode, EndCollection, IncreaseIndent;
  }

  lemma SequenceItemSound(m: M, e: Event, d: Data, c: Choice)
    requires Inv(m) && Analyze(m, e) == Good(d)
    requires Entry(m.state) == FlowSequenceItemState || Entry(m.state) == BlockSequenceItemState
    requires InCollection(m.state) || FlowFirst(m.state) || BlockFirst(m.state)
    ensures Sound(Abs(m), e, Dispatch(m, e, d, c))
  {
    SequenceItemDispatched(m, e, d, c);
    CollectionFrames(Entry(m.state), e);
    hide *;
    var indentless := m.mappingContext && !c.indention;
    var s := Entry(m.state);
    var n := Entered(m, indentless);
    EnteredInside(m, indentless, e);
    if e.SequenceEnd? {
      EndInside(n, s, e);
    } else {
      NodeInside(n, s, s, e, d, false);
    }
  }

  lemma MappingKeySound(m: M, e: Event, d: Data, c: Choice)
    requires Inv(m) && Analyze(m, e) == Good(d)
    requires Entry(m.state) == FlowMappingKeyState || Entry(m.state) == BlockMappingKeyState
    requires InCollection(m.state) || FlowFirst(m.state) || BlockFirst(m.state)
    ensures Sound(Abs(m), e, Dispatch(m, e, d, c))
  {
    MappingKeyDispatched(m, e, d, c);
    KeyFrames(Entry(m.state), e);
    hide *;
    var s := Entry(m.state);
    var n := Entered(m, false);
    EnteredInside(m, false, e);
    if e.MappingEnd? {
      EndInside(n, s, e);
    } else {
      NodeInside(n, s, AfterKey(s, true), e, d, true);
      NodeInside(n, s, AfterKey(s, false), e, d, true);
    }
  }

  /** The state that waits for the value of a key. */
  function AfterKey(s: EmitterState, simple: bool): EmitterState {
    if InFlow(s) then if simple then FlowMappingSimpleValueState else FlowMappingValueState
    else if simple then BlockMappingSimpleValueState else BlockMappingValueState
  }

  lemma KeyFrames(s: EmitterState, e: Event)
    requires s == FlowMappingKeyState || s == BlockMappingKeyState
    ensures Frames(s) == [BeforeKey] && TakesNode(BeforeKey) && InCollection(s)
    ensures forall simple :: var t := AfterKey(s, simple);
              Frames(t) == Filled([BeforeKey]) && InCollection(t) && InFlow(t) == InFlow(s)
    ensures EndsFrame(BeforeKey, e) <==> e.MappingEnd?
  {
    assert Filled([BeforeKey]) == [] + [Advance(BeforeKey)];
  }

  lemma MappingKeyDispatched(m: M, e: Event, d: Data, c: Choice)
    requires Entry(m.state) == FlowMappingKeyState || Entry(m.state) == BlockMappingKeyState
    ensures var s, n := Entry(m.state), Entered(m, false);
            if e.MappingEnd? then Dispatch(m, e, d, c) == EndCollection(Lowered(n, s))
            else || Dispatch(m, e, d, c) == EmitNode(Push(n, AfterKey(s, true)), e, d, true)
                 || Dispatch(m, e, d, c) == EmitNode(Push(n, AfterKey(s, false)), e, d, true)
  {
    hide EmitNode, EndCollection, IncreaseIndent, SimpleKey;
  }

  lemma MappingValueSound(m: M, e: Event, d: Data, c: Choice)
    requires Inv(m) && Analyze(m, e) == Good(d) && Frames(m.state) == [BeforeValue]
    ensures Sound(Abs(m), e, Dispatch(m, e, d, c))
  {
    hide Inv, Abs, Inside, Sound, EmitNode, Analyze, Now;
    EnteredInside(m, false, e);
    NodeInside(m, m.state, if InFlow(m.state) then FlowMappingKeyState else BlockMappingKeyState, e, d, true);
  }

  // ---- Documents ----

  lemma RootSound(m: M, e: Event, d: Data)
    requires Inv(m) && m.state == DocumentContentState && Analyze(m, e) == Good(d)
    ensures Sound(Abs(m), e, EmitNode(Push(m, DocumentEndState), e, d, false))
  {
    NoStates();
    PushAll([], DocumentEndState);
    assert m.states + [DocumentEndState] == [DocumentEndState];
    assert [] + [DocumentEndState] == [DocumentEndState];
    assert [] + Frames(DocumentEndState) == [Rooted];
    assert Filled([Root]) == [Rooted];
    assert m.indents + [m.indent] == [-1];
    AnalyzePushed(m, DocumentEndState, e);
    NodeSound(Push(m, DocumentEndState), [Root], e, d, false);
    hide Sound, Inv, Analyze;
  }

  lemma OutsideSound(m: M, e: Event, c: Choice)
    requires Inv(m) && (m.state == StreamStartState || m.state == DocumentEndState || m.state == EndState)
    ensures Sound(Abs(m), e, Dispatch(m, e, NO_DATA, c))
  {
    NoStates();
    assert [] + Frames(DocumentEndState) == [Rooted];
    assert [Rooted][..0] == [];
    assert AllFrames(m.states) == [];
  }

  lemma DocumentStartSound(m: M, e: Event)
    requires Inv(m) && (m.state == FirstDocumentStartState || m.state == DocumentStartState)
    ensures Sound(Abs(m), e, EmitDocumentStart(m, e))
  {
    hide EventGrammar.Step, AppendDirectives, Abs, Inv, ValidDirective, DistinctHandles, P.WithDefaults, ValidVersion;
    StreamCloses(m);
    BetweenSteps(e);
    if e.DocumentStart? {
      DirectivesAppended([], e.tagDirectives);
      assert [] + e.tagDirectives == e.tagDirectives;
      if ValidEvent(e) {
        DocumentOpens(m, e);
      }
    }
  }

  lemma StreamCloses(m: M)
    requires Inv(m) && (m.state == FirstDocumentStartState || m.state == DocumentStartState)
    ensures Abs(m) == Open([]) && m.tagDirectives == [] && DistinctHandles([])
    ensures var q := m.(state := EndState); Inv(q) && Abs(q) == After
  {
    NoStates();
  }

  lemma BetweenSteps(e: Event)
    ensures EventGrammar.Step(Open([]), e)
         == if e.DocumentStart? then Open([Root]) else if e.StreamEnd? then After else Rejected
  {
  }

  lemma DocumentOpens(m: M, e: Event)
    requires Inv(m) && (m.state == FirstDocumentStartState || m.state == DocumentStartState)
    requires e.DocumentStart? && forall i | 0 <= i < |e.tagDirectives| :: ValidDirective(e.tagDirectives[i])
    ensures var q := m.(tagDirectives := P.WithDefaults(e.tagDirectives), state := DocumentContentState);
            Inv(q) && Abs(q) == Open([Root])
  {
  }

  /** The analysis and the state function of any event. */
  lemma StepSound(m: M, e: Event, c: Choice)
    requires Inv(m) && m.events != [] && m.events[0] == e
    ensures Sound(Abs(m), e, EmitterSpec.Step(m, c))
  {
    Analyzed(m, e);
    NotAnalyzed(m, e);
    hide Analyze;
    match Analyze(m, e)
    case Bad =>
    case Good(d) =>
      hide Inv, Abs, Sound, EmitNode, EndCollection, IncreaseIndent, EmitDocumentStart, SimpleKey, ValidEvent;
      match m.state
      case StreamStartState => OutsideSound(m, e, c);
      case FirstDocumentStartState => DocumentStartSound(m, e);
      case DocumentStartState => DocumentStartSound(m, e);
      case DocumentContentState => RootSound(m, e, d);
      case DocumentEndState => OutsideSound(m, e, c);
      case FlowSequenceFirstItemState => SequenceItemSound(m, e, d, c);
      case FlowSequenceItemState => SequenceItemSound(m, e, d, c);
      case FlowMappingFirstKeyState => MappingKeySound(m, e, d, c);
      case FlowMappingKeyState => MappingKeySound(m, e, d, c);
      case FlowMappingSimpleValueState => MappingValueSound(m, e, d, c);
      case FlowMappingValueState => MappingValueSound(m, e, d, c);
      case BlockSequenceFirstItemState => SequenceItemSound(m, e, d, c);
      case BlockSequenceItemState => SequenceItemSound(m, e, d, c);
      case BlockMappingFirstKeyState => MappingKeySound(m, e, d, c);
      case BlockMappingKeyState => MappingKeySound(m, e, d, c);
      case BlockMappingSimpleValueState => MappingValueSound(m, e, d, c);
      case BlockMappingValueState => MappingValueSound(m, e, d, c);
      case EndState => OutsideSound(m, e, c);
  }

  lemma NotAnalyzed(m: M, e: Event)
    requires GoodDirectives(m.tagDirectives)
    ensures Analyze(m, e).Bad? ==> !ValidEvent(e)
  {
    Analyzed(m, e);
  }

  // ---- What the invariant says ----

  /** Between documents nothing is left on the stacks; the indentation is that of no document. */
  lemma RestoredBetweenDocuments(m: M)
    requires Inv(m) && (m.state == DocumentStartState || m.state == DocumentEndState)
    ensures m.states == [] && m.indents == [] && m.indent == -1 && m.flowLevel == 0
  {
  }

  /** The flow level counts the open flow collections, and inside one every collection is a flow
      collection. */
  lemma FlowStaysFlow(m: M)
    requires Inv(m) && m.flowLevel > 0
    ensures InFlow(m.state) || FlowFirst(m.state)
  {
    if InCollection(m.state) {
      FlowOnTop(m.states + [m.state]);
    }
  }

  /** The lines of a scalar that go on are indented by at least two. */
  lemma ScalarsAreIndented(m: M)
    requires Inv(m) && m.state != StreamStartState
    ensures IncreaseIndent(m, true, false).indent >= 2
  {
    var s := m.indents + [m.indent];
    assert s[|s| - 1] == m.indent;
  }
}
