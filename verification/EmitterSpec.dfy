/** The event half of emitterc.go as functions: the queue with its bounded lookahead and the state
    machine with its stacks. What is written is not part of it; two facts about the text reach the
    machine, and are taken as they may be. */
module EmitterSpec {
  import opened Utf8
  import opened EventGrammar
  import P = ParserSpec

  datatype EmitterState =
    | StreamStartState
    | FirstDocumentStartState
    | DocumentStartState
    | DocumentContentState
    | DocumentEndState
    | FlowSequenceFirstItemState
    | FlowSequenceItemState
    | FlowMappingFirstKeyState
    | FlowMappingKeyState
    | FlowMappingSimpleValueState
    | FlowMappingValueState
    | BlockSequenceFirstItemState
    | BlockSequenceItemState
    | BlockMappingFirstKeyState
    | BlockMappingKeyState
    | BlockMappingSimpleValueState
    | BlockMappingValueState
    | EndState

  /** What the text says when an event is handled: whether the scalar has line breaks, and whether
      only indentation stands before the place where the emitter is. */
  datatype Choice = Choice(multiline: bool, indention: bool)

  /** The anchor, tag and scalar that yaml_emitter_analyze_event has found. */
  datatype Data = Data(anchor: Text, handle: Text, suffix: Text, value: Text)

  /** `handled` counts the events that have left the queue. */
  datatype M = M(
    state: EmitterState, states: seq<EmitterState>, events: seq<Event>, handled: nat,
    flowLevel: int, indent: int, indents: seq<int>, bestIndent: int, canonical: bool,
    mappingContext: bool, tagDirectives: seq<TagDirective>)

  datatype Result = Ok(next: M) | Fail | Panic

  function Start(bestIndent: int, canonical: bool): M {
    M(StreamStartState, [], [], 0, 0, 0, [], bestIndent, canonical, false, [])
  }

  // ---- Lookahead ----

  function Level(e: Event): int {
    match e
    case StreamStart => 1
    case DocumentStart(_, _, _) => 1
    case SequenceStart(_, _, _, _) => 1
    case MappingStart(_, _, _, _) => 1
    case StreamEnd => -1
    case DocumentEnd(_) => -1
    case SequenceEnd => -1
    case MappingEnd => -1
    case _ => 0
  }

  /** Whether the level, `level` so far, is zero after one of the events. */
  predicate LevelReturns(es: seq<Event>, level: int) {
    es != [] && (level + Level(es[0]) == 0 || LevelReturns(es[1..], level + Level(es[0])))
  }

  function Accumulate(e: Event): nat {
    match e
    case DocumentStart(_, _, _) => 1
    case SequenceStart(_, _, _, _) => 2
    case MappingStart(_, _, _, _) => 3
    case _ => 0
  }

  /** yaml_emitter_need_more_events. */
  predicate NeedMoreEvents(es: seq<Event>) {
    es == [] || (Accumulate(es[0]) > 0 && |es| <= Accumulate(es[0]) && !LevelReturns(es, 0))
  }

  // ---- Analysis ----

  predicate Alpha(b: Byte) {
    0x30 <= b <= 0x39 || 0x41 <= b <= 0x5A || 0x61 <= b <= 0x7A || b == 0x5F || b == 0x2D
  }

  predicate AllAlpha(s: Text) {
    forall i | 0 <= i < |s| :: Alpha(s[i])
  }

  predicate ValidAnchor(a: Text) {
    a != [] && AllAlpha(a)
  }

  predicate ValidDirective(d: TagDirective) {
    && d.handle != [] && d.handle[0] == 0x21 && d.handle[|d.handle| - 1] == 0x21
    && (|d.handle| > 1 ==> AllAlpha(d.handle[1..|d.handle| - 1]))
    && d.prefix != []
  }

  predicate ValidVersion(v: Version) {
    v.Version? ==> v.major == 1 && v.minor == 1
  }

  /** yaml_emitter_analyze_tag, for a tag that is not empty. */
  function TagData(ds: seq<TagDirective>, d: Data, tag: Text): Data {
    if ds == [] then d.(suffix := tag)
    else if ds[0].prefix <= tag then d.(handle := ds[0].handle, suffix := tag[|ds[0].prefix|..])
    else TagData(ds[1..], d, tag)
  }

  datatype Analysis = Bad | Good(data: Data)

  const NO_DATA := Data([], [], [], [])

  function AnalyzeAnchor(d: Data, anchor: Text): Analysis {
    if anchor == [] then Good(d) else if ValidAnchor(anchor) then Good(d.(anchor := anchor)) else Bad
  }

  /** The anchor, and the tag if it has to be written. */
  function AnalyzeProperties(m: M, anchor: Text, tag: Text, implicit: bool): Analysis {
    match AnalyzeAnchor(NO_DATA, anchor)
    case Bad => Bad
    case Good(d) => Good(if tag != [] && (m.canonical || !implicit) then TagData(m.tagDirectives, d, tag) else d)
  }

  /** yaml_emitter_analyze_event. */
  function Analyze(m: M, e: Event): Analysis {
    match e
    case Alias(anchor) => if ValidAnchor(anchor) then Good(NO_DATA.(anchor := anchor)) else Bad
    case Scalar(anchor, tag, value, implicit, quoted, _) =>
      (match AnalyzeProperties(m, anchor, tag, implicit || quoted)
       case Bad => Bad
       case Good(d) => Good(d.(value := value)))
    case SequenceStart(anchor, tag, implicit, _) => AnalyzeProperties(m, anchor, tag, implicit)
    case MappingStart(anchor, tag, implicit, _) => AnalyzeProperties(m, anchor, tag, implicit)
    case _ => Good(NO_DATA)
  }

  // ---- Stacks ----

  function PopState(m: M): Result {
    if m.states == [] then Panic
    else Ok(m.(state := m.states[|m.states| - 1], states := m.states[..|m.states| - 1]))
  }

  function PopIndent(m: M): Result {
    if m.indents == [] then Panic
    else Ok(m.(indent := m.indents[|m.indents| - 1], indents := m.indents[..|m.indents| - 1]))
  }

  /** yaml_emitter_increase_indent. */
  function IncreaseIndent(m: M, flow: bool, indentless: bool): M {
    m.(indents := m.indents + [m.indent],
       indent := if m.indent < 0 then if flow then m.bestIndent else 0
                 else if indentless then m.indent else m.indent + m.bestIndent)
  }

  /** Leave a collection. */
  function EndCollection(m: M): Result {
    match PopIndent(m)
    case Ok(q) => PopState(q)
    case r => r
  }

  // ---- The state functions ----

  function EmitStreamStart(m: M, e: Event): Result {
    if !e.StreamStart? then Fail
    else
      var best := if m.bestIndent < 2 || m.bestIndent > 9 then 2 else m.bestIndent;
      Ok(m.(bestIndent := best, indent := -1, state := FirstDocumentStartState))
  }

  /** The tag directives of a document, one by one; each handle once. */
  function AppendDirectives(seen: seq<TagDirective>, ds: seq<TagDirective>): (r: (bool, seq<TagDirective>))
    decreases |ds|
  {
    if ds == [] then (true, seen)
    else if !ValidDirective(ds[0]) || P.HasHandle(seen, ds[0].handle) then (false, seen)
    else AppendDirectives(seen + [ds[0]], ds[1..])
  }

  function EmitDocumentStart(m: M, e: Event): Result {
    match e
    case DocumentStart(version, ds, _) =>
      if !ValidVersion(version) then Fail
      else
        var r := AppendDirectives(m.tagDirectives, ds);
        if !r.0 then Fail
        else Ok(m.(tagDirectives := P.WithDefaults(r.1), state := DocumentContentState))
    case StreamEnd => Ok(m.(state := EndState))
    case _ => Fail
  }

  function EmitDocumentEnd(m: M, e: Event): Result {
    if !e.DocumentEnd? then Fail else Ok(m.(state := DocumentStartState, tagDirectives := []))
  }

  /** The next two events are the start and the end of a sequence. */
  predicate EmptySequence(m: M) {
    |m.events| >= 2 && m.events[0].SequenceStart? && m.events[1].SequenceEnd?
  }

  predicate EmptyMapping(m: M) {
    |m.events| >= 2 && m.events[0].MappingStart? && m.events[1].MappingEnd?
  }

  /** yaml_emitter_check_simple_key. */
  predicate SimpleKey(m: M, d: Data, c: Choice) {
    && m.events != []
    && match m.events[0]
       case Alias(_) => |d.anchor| <= 128
       case Scalar(_, _, _, _, _, _) => !c.multiline && |d.anchor| + |d.handle| + |d.suffix| + |d.value| <= 128
       case SequenceStart(_, _, _, _) => EmptySequence(m) && |d.anchor| + |d.handle| + |d.suffix| <= 128
       case MappingStart(_, _, _, _) => EmptyMapping(m) && |d.anchor| + |d.handle| + |d.suffix| <= 128
       case _ => false
  }

  function EmitNode(m0: M, e: Event, d: Data, mapping: bool): Result {
    var m := m0.(mappingContext := mapping);
    match e
    case Alias(_) => PopState(m)
    case Scalar(_, _, _, implicit, quoted, _) =>
      if d.handle == [] && d.suffix == [] && !implicit && !quoted then Fail
      else EndCollection(IncreaseIndent(m, true, false))
    case SequenceStart(_, _, _, layout) =>
      Ok(m.(state := if m.flowLevel > 0 || m.canonical || layout == Flow || EmptySequence(m)
                     then FlowSequenceFirstItemState else BlockSequenceFirstItemState))
    case MappingStart(_, _, _, layout) =>
      Ok(m.(state := if m.flowLevel > 0 || m.canonical || layout == Flow || EmptyMapping(m)
                     then FlowMappingFirstKeyState else BlockMappingFirstKeyState))
    case _ => Fail
  }

  function Push(m: M, s: EmitterState): M {
    m.(states := m.states + [s])
  }

  function EmitFlowSequenceItem(m0: M, e: Event, d: Data, first: bool): Result {
    var m := if first then IncreaseIndent(m0, true, false).(flowLevel := m0.flowLevel + 1) else m0;
    if e.SequenceEnd? then EndCollection(m.(flowLevel := m.flowLevel - 1))
    else EmitNode(Push(m, FlowSequenceItemState), e, d, false)
  }

  function EmitFlowMappingKey(m0: M, e: Event, d: Data, c: Choice, first: bool): Result {
    var m := if first then IncreaseIndent(m0, true, false).(flowLevel := m0.flowLevel + 1) else m0;
    if e.MappingEnd? then EndCollection(m.(flowLevel := m.flowLevel - 1))
    else if !m.canonical && SimpleKey(m, d, c) then EmitNode(Push(m, FlowMappingSimpleValueState), e, d, true)
    else EmitNode(Push(m, FlowMappingValueState), e, d, true)
  }

  function EmitBlockSequenceItem(m0: M, e: Event, d: Data, c: Choice, first: bool): Result {
    var m := if first then IncreaseIndent(m0, false, m0.mappingContext && !c.indention) else m0;
    if e.SequenceEnd? then EndCollection(m)
    else EmitNode(Push(m, BlockSequenceItemState), e, d, false)
  }

  function EmitBlockMappingKey(m0: M, e: Event, d: Data, c: Choice, first: bool): Result {
    var m := if first then IncreaseIndent(m0, false, false) else m0;
    if e.MappingEnd? then EndCollection(m)
    else if SimpleKey(m, d, c) then EmitNode(Push(m, BlockMappingSimpleValueState), e, d, true)
    else EmitNode(Push(m, BlockMappingValueState), e, d, true)
  }

  /** yaml_emitter_state_machine. */
  function Dispatch(m: M, e: Event, d: Data, c: Choice): Result {
    match m.state
    case StreamStartState => EmitStreamStart(m, e)
    case FirstDocumentStartState => EmitDocumentStart(m, e)
    case DocumentStartState => EmitDocumentStart(m, e)
    case DocumentContentState => EmitNode(Push(m, DocumentEndState), e, d, false)
    case DocumentEndState => EmitDocumentEnd(m, e)
    case FlowSequenceFirstItemState => EmitFlowSequenceItem(m, e, d, true)
    case FlowSequenceItemState => EmitFlowSequenceItem(m, e, d, false)
    case FlowMappingFirstKeyState => EmitFlowMappingKey(m, e, d, c, true)
    case FlowMappingKeyState => EmitFlowMappingKey(m, e, d, c, false)
    case FlowMappingSimpleValueState => EmitNode(Push(m, FlowMappingKeyState), e, d, true)
    case FlowMappingValueState => EmitNode(Push(m, FlowMappingKeyState), e, d, true)
    case BlockSequenceFirstItemState => EmitBlockSequenceItem(m, e, d, c, true)
    case BlockSequenceItemState => EmitBlockSequenceItem(m, e, d, c, false)
    case BlockMappingFirstKeyState => EmitBlockMappingKey(m, e, d, c, true)
    case BlockMappingKeyState => EmitBlockMappingKey(m, e, d, c, false)
    case BlockMappingSimpleValueState => EmitNode(Push(m, BlockMappingKeyState), e, d, true)
    case BlockMappingValueState => EmitNode(Push(m, BlockMappingKeyState), e, d, true)
    case EndState => Fail
  }

  /** Handle the first event of the queue. */
  function Step(m: M, c: Choice): Result
    requires m.events != []
  {
    match Analyze(m, m.events[0])
    case Bad => Fail
    case Good(d) => Dispatch(m, m.events[0], d, c)
  }

  /** Handle events as long as no more have to be seen first. The choices go by the number of the
      event. */
  function Drain(m: M, o: nat -> Choice): Result
    decreases |m.events|
  {
    if NeedMoreEvents(m.events) then Ok(m)
    else
      match Step(m, o(m.handled))
      case Ok(q) => Drain(q.(events := m.events[1..], handled := m.handled + 1), o)
      case r => r
  }

  /** yaml_emitter_emit. */
  function Emit(m: M, e: Event, o: nat -> Choice): Result {
    Drain(m.(events := m.events + [e]), o)
  }

  function EmitAll(m: M, es: seq<Event>, o: nat -> Choice): Result
    decreases |es|
  {
    if es == [] then Ok(m)
    else
      match Emit(m, es[0], o)
      case Ok(q) => EmitAll(q, es[1..], o)
      case r => r
  }
}
