/** One call of yaml_parser_parse as a function: the productions of parserc.go on the tokens
    that the scanner still has to deliver. */
module ParserSpec {
  import opened Utf8
  import opened EventGrammar

  datatype Token =
    | StreamStartToken
    | StreamEndToken
    | VersionDirectiveToken(major: int, minor: int)
    | TagDirectiveToken(handle: Text, prefix: Text)
    | DocumentStartToken
    | DocumentEndToken
    | BlockSequenceStartToken
    | BlockMappingStartToken
    | BlockEndToken
    | FlowSequenceStartToken
    | FlowSequenceEndToken
    | FlowMappingStartToken
    | FlowMappingEndToken
    | BlockEntryToken
    | FlowEntryToken
    | KeyToken
    | ValueToken
    | AliasToken(value: Text)
    | AnchorToken(value: Text)
    | TagToken(handle: Text, suffix: Text)
    | ScalarToken(value: Text, style: ScalarStyle)

  datatype ParserState =
    | StreamStartState
    | ImplicitDocumentStartState
    | DocumentStartState
    | DocumentContentState
    | DocumentEndState
    | BlockNodeState
    | BlockNodeOrIndentlessSequenceState
    | FlowNodeState
    | BlockSequenceFirstEntryState
    | BlockSequenceEntryState
    | IndentlessSequenceEntryState
    | BlockMappingFirstKeyState
    | BlockMappingKeyState
    | BlockMappingValueState
    | FlowSequenceFirstEntryState
    | FlowSequenceEntryState
    | FlowSequenceEntryMappingKeyState
    | FlowSequenceEntryMappingValueState
    | FlowSequenceEntryMappingEndState
    | FlowMappingFirstKeyState
    | FlowMappingKeyState
    | FlowMappingValueState
    | FlowMappingEmptyValueState
    | EndState

  /** The parser's own fields and the tokens that have not been skipped yet. `parsed` counts
      the skipped ones, and stands for the start mark of the next token on the stack of marks. */
  datatype P = P(
    tokens: seq<Token>,
    parsed: nat,
    state: ParserState,
    states: seq<ParserState>,
    marks: seq<nat>,
    tagDirectives: seq<TagDirective>)
  {
    function Head(): Token
      requires tokens != []
    {
      tokens[0]
    }

    function Skip(): P
      requires tokens != []
    {
      this.(tokens := tokens[1..], parsed := parsed + 1)
    }

    function Push(s: ParserState): P {
      this.(states := states + [s])
    }

    function To(s: ParserState): P {
      this.(state := s)
    }

    function Mark(): P {
      this.(marks := marks + [parsed])
    }
  }

  /** An event and the parser after it; a scanner or parser error; or a panic of the Go code,
      for a stack that is empty or a token that is not there. */
  datatype Result = Emit(event: Event, next: P) | Error | Panic

  function PopState(p: P, e: Event): Result {
    if p.states == [] then Panic
    else Emit(e, p.(state := p.states[|p.states| - 1], states := p.states[..|p.states| - 1]))
  }

  /** Leave a collection that has pushed a mark. */
  function PopBoth(p: P, e: Event): Result {
    if p.marks == [] then Panic else PopState(p.(marks := p.marks[..|p.marks| - 1]), e)
  }

  /** The error of a collection takes the collection's mark for its context. */
  function ContextError(p: P): Result {
    if p.marks == [] then Panic else Error
  }

  /** yaml_parser_process_empty_scalar. */
  function EmptyScalar(p: P): Result {
    Emit(NULL_SCALAR, p)
  }

  function ParseStreamStart(p: P): Result {
    if p.tokens == [] || !p.Head().StreamStartToken? then Error
    else Emit(StreamStart, p.To(ImplicitDocumentStartState).Skip())
  }

  // ---- Documents ----

  const DEFAULT_TAG_DIRECTIVES: seq<TagDirective> :=
    [TagDirective([0x21], [0x21]),
     TagDirective([0x21, 0x21], [0x74, 0x61, 0x67, 0x3A, 0x79, 0x61, 0x6D, 0x6C, 0x2E, 0x6F, 0x72, 0x67, 0x2C,
                                 0x32, 0x30, 0x30, 0x32, 0x3A])]

  predicate HasHandle(ds: seq<TagDirective>, handle: Text) {
    exists i | 0 <= i < |ds| :: ds[i].handle == handle
  }

  function WithDefaults(ds: seq<TagDirective>): seq<TagDirective> {
    var a := if HasHandle(ds, DEFAULT_TAG_DIRECTIVES[0].handle) then ds else ds + [DEFAULT_TAG_DIRECTIVES[0]];
    if HasHandle(a, DEFAULT_TAG_DIRECTIVES[1].handle) then a else a + [DEFAULT_TAG_DIRECTIVES[1]]
  }

  datatype Directives = BadDirectives | Directives(version: Version, tags: seq<TagDirective>, next: P)

  /** yaml_parser_process_directives, from the token on which its loop stands. */
  function ProcessDirectives(p: P, version: Version, tags: seq<TagDirective>): Directives
    decreases |p.tokens|
  {
    if p.tokens == [] then BadDirectives
    else
      match p.Head()
      case VersionDirectiveToken(major, minor) =>
        if version.Version? || major != 1 || minor != 1 then BadDirectives
        else ProcessDirectives(p.Skip(), Version(major, minor), tags)
      case TagDirectiveToken(handle, prefix) =>
        var d := TagDirective(handle, prefix);
        if HasHandle(p.tagDirectives, handle) then BadDirectives
        else ProcessDirectives(p.(tagDirectives := p.tagDirectives + [d]).Skip(), version, tags + [d])
      case _ => Directives(version, tags, p.(tagDirectives := WithDefaults(p.tagDirectives)))
  }

  function SkipDocumentEnds(p: P): P
    decreases |p.tokens|
  {
    if p.tokens != [] && p.Head().DocumentEndToken? then SkipDocumentEnds(p.Skip()) else p
  }

  predicate IsDirective(k: Token) {
    k.VersionDirectiveToken? || k.TagDirectiveToken?
  }

  function ParseDocumentStart(p0: P, implicit: bool): Result {
    var p := if implicit then p0 else SkipDocumentEnds(p0);
    if p.tokens == [] then Error
    else if implicit && !IsDirective(p.Head()) && !p.Head().DocumentStartToken? && !p.Head().StreamEndToken? then
      match ProcessDirectives(p, NoVersion, [])
      case BadDirectives => Error
      case Directives(_, _, q) =>
        Emit(DocumentStart(NoVersion, [], false), q.Push(DocumentEndState).To(BlockNodeState))
    else if !p.Head().StreamEndToken? then
      match ProcessDirectives(p, NoVersion, [])
      case BadDirectives => Error
      case Directives(v, ds, q) =>
        if q.tokens == [] || !q.Head().DocumentStartToken? then Error
        else Emit(DocumentStart(v, ds, false), q.Push(DocumentEndState).To(DocumentContentState).Skip())
    else Emit(StreamEnd, p.To(EndState).Skip())
  }

  function ParseDocumentContent(p: P): Result {
    if p.tokens == [] then Error
    else
      var k := p.Head();
      if IsDirective(k) || k.DocumentStartToken? || k.DocumentEndToken? || k.StreamEndToken? then
        PopState(p, NULL_SCALAR)
      else ParseNode(p, true, false)
  }

  function ParseDocumentEnd(p: P): Result {
    if p.tokens == [] then Error
    else
      var implicit := !p.Head().DocumentEndToken?;
      var q := if implicit then p else p.Skip();
      Emit(DocumentEnd(implicit), q.(tagDirectives := []).To(DocumentStartState))
  }

  // ---- Nodes ----

  datatype TagRef = NoTag | TagRef(handle: Text, suffix: Text)

  datatype Properties = NoToken | Properties(anchor: Text, tag: TagRef, next: P)

  /** An anchor and a tag, in either order. */
  function ReadProperties(p: P): Properties {
    if p.tokens == [] then NoToken
    else
      match p.Head()
      case AnchorToken(a) =>
        var q := p.Skip();
        if q.tokens == [] then NoToken
        else if q.Head().TagToken? then
          if q.Skip().tokens == [] then NoToken
          else Properties(a, TagRef(q.Head().handle, q.Head().suffix), q.Skip())
        else Properties(a, NoTag, q)
      case TagToken(h, s) =>
        var q := p.Skip();
        if q.tokens == [] then NoToken
        else if q.Head().AnchorToken? then
          if q.Skip().tokens == [] then NoToken
          else Properties(q.Head().value, TagRef(h, s), q.Skip())
        else Properties([], TagRef(h, s), q)
      case _ => Properties([], NoTag, p)
  }

  /** The prefix of the first directive for the handle, before the suffix; empty without one. */
  function ResolveHandle(ds: seq<TagDirective>, handle: Text, suffix: Text): Text {
    if ds == [] then []
    else if ds[0].handle == handle then ds[0].prefix + suffix
    else ResolveHandle(ds[1..], handle, suffix)
  }

  function ResolveTag(ds: seq<TagDirective>, t: TagRef): Text {
    match t
    case NoTag => []
    case TagRef(h, s) => if h == [] then s else ResolveHandle(ds, h, s)
  }

  predicate UndefinedHandle(ds: seq<TagDirective>, t: TagRef) {
    t.TagRef? && t.handle != [] && ResolveTag(ds, t) == []
  }

  function ParseNode(p: P, block: bool, indentless: bool): Result {
    if p.tokens == [] then Error
    else if p.Head().AliasToken? then PopState(p.Skip(), Alias(p.Head().value))
    else
      match ReadProperties(p)
      case NoToken => Error
      case Properties(anchor, t, q) =>
        if UndefinedHandle(p.tagDirectives, t) then Error
        else NodeContent(q, anchor, ResolveTag(p.tagDirectives, t), block, indentless)
  }

  function NodeContent(p: P, anchor: Text, tag: Text, block: bool, indentless: bool): Result
    requires p.tokens != []
  {
    var implicit := tag == [];
    match p.Head()
    case BlockEntryToken =>
      if indentless then Emit(SequenceStart(anchor, tag, implicit, Block), p.To(IndentlessSequenceEntryState))
      else NoContent(p, anchor, tag)
    case ScalarToken(value, style) =>
      var plain := (implicit && style == Plain) || tag == [0x21];
      PopState(p.Skip(), Scalar(anchor, tag, value, plain, !plain && implicit, style))
    case FlowSequenceStartToken =>
      Emit(SequenceStart(anchor, tag, implicit, Flow), p.To(FlowSequenceFirstEntryState))
    case FlowMappingStartToken =>
      Emit(MappingStart(anchor, tag, implicit, Flow), p.To(FlowMappingFirstKeyState))
    case BlockSequenceStartToken =>
      if block then Emit(SequenceStart(anchor, tag, implicit, Block), p.To(BlockSequenceFirstEntryState))
      else NoContent(p, anchor, tag)
    case BlockMappingStartToken =>
      if block then Emit(MappingStart(anchor, tag, implicit, Block), p.To(BlockMappingFirstKeyState))
      else NoContent(p, anchor, tag)
    case _ => NoContent(p, anchor, tag)
  }

  function NoContent(p: P, anchor: Text, tag: Text): Result {
    if anchor != [] || tag != [] then PopState(p, Scalar(anchor, tag, [], tag == [], false, Plain)) else Error
  }

  // ---- Block collections ----

  function ParseBlockSequenceEntry(p0: P, first: bool): Result {
    if first && p0.tokens == [] then Panic
    else
      var p := if first then p0.Mark().Skip() else p0;
      if p.tokens == [] then Error
      else if p.Head().BlockEntryToken? then
        var q := p.Skip();
        if q.tokens == [] then Error
        else if !q.Head().BlockEntryToken? && !q.Head().BlockEndToken? then
          ParseNode(q.Push(BlockSequenceEntryState), true, false)
        else EmptyScalar(q.To(BlockSequenceEntryState))
      else if p.Head().BlockEndToken? then PopBoth(p.Skip(), SequenceEnd)
      else ContextError(p)
  }

  predicate EndsBlockNode(k: Token) {
    k.KeyToken? || k.ValueToken? || k.BlockEndToken?
  }

  function ParseIndentlessSequenceEntry(p: P): Result {
    if p.tokens == [] then Error
    else if p.Head().BlockEntryToken? then
      var q := p.Skip();
      if q.tokens == [] then Error
      else if !q.Head().BlockEntryToken? && !EndsBlockNode(q.Head()) then
        ParseNode(q.Push(IndentlessSequenceEntryState), true, false)
      else EmptyScalar(q.To(IndentlessSequenceEntryState))
    else PopState(p, SequenceEnd)
  }

  function ParseBlockMappingKey(p0: P, first: bool): Result {
    if first && p0.tokens == [] then Panic
    else
      var p := if first then p0.Mark().Skip() else p0;
      if p.tokens == [] then Error
      else if p.Head().KeyToken? then
        var q := p.Skip();
        if q.tokens == [] then Error
        else if !EndsBlockNode(q.Head()) then ParseNode(q.Push(BlockMappingValueState), true, true)
        else EmptyScalar(q.To(BlockMappingValueState))
      else if p.Head().BlockEndToken? then PopBoth(p.Skip(), MappingEnd)
      else ContextError(p)
  }

  function ParseBlockMappingValue(p: P): Result {
    if p.tokens == [] then Error
    else if p.Head().ValueToken? then
      var q := p.Skip();
      if q.tokens == [] then Error
      else if !EndsBlockNode(q.Head()) then ParseNode(q.Push(BlockMappingKeyState), true, true)
      else EmptyScalar(q.To(BlockMappingKeyState))
    else EmptyScalar(p.To(BlockMappingKeyState))
  }

  // ---- Flow collections ----

  function ParseFlowSequenceEntry(p0: P, first: bool): Result {
    if first && p0.tokens == [] then Panic
    else
      var p := if first then p0.Mark().Skip() else p0;
      if p.tokens == [] then Error
      else if p.Head().FlowSequenceEndToken? then PopBoth(p.Skip(), SequenceEnd)
      else if !first && !p.Head().FlowEntryToken? then ContextError(p)
      else FlowSequenceItem(if first then p else p.Skip())
  }

  /** After '[' or ','. */
  function FlowSequenceItem(q: P): Result {
    if q.tokens == [] then Error
    else if q.Head().KeyToken? then
      Emit(MappingStart([], [], true, Flow), q.To(FlowSequenceEntryMappingKeyState).Skip())
    else if !q.Head().FlowSequenceEndToken? then ParseNode(q.Push(FlowSequenceEntryState), false, false)
    else PopBoth(q.Skip(), SequenceEnd)
  }

  /** The token that shows the key to be empty is skipped. */
  function ParseFlowSequenceEntryMappingKey(p: P): Result {
    if p.tokens == [] then Error
    else
      var k := p.Head();
      if !k.ValueToken? && !k.FlowEntryToken? && !k.FlowSequenceEndToken? then
        ParseNode(p.Push(FlowSequenceEntryMappingValueState), false, false)
      else EmptyScalar(p.Skip().To(FlowSequenceEntryMappingValueState))
  }

  function ParseFlowSequenceEntryMappingValue(p: P): Result {
    if p.tokens == [] then Error
    else if p.Head().ValueToken? then
      var q := p.Skip();
      if q.tokens == [] then Error
      else if !q.Head().FlowEntryToken? && !q.Head().FlowSequenceEndToken? then
        ParseNode(q.Push(FlowSequenceEntryMappingEndState), false, false)
      else EmptyScalar(q.To(FlowSequenceEntryMappingEndState))
    else EmptyScalar(p.To(FlowSequenceEntryMappingEndState))
  }

  function ParseFlowSequenceEntryMappingEnd(p: P): Result {
    if p.tokens == [] then Error else Emit(MappingEnd, p.To(FlowSequenceEntryState))
  }

  predicate EndsFlowPair(k: Token) {
    k.ValueToken? || k.FlowEntryToken? || k.FlowMappingEndToken?
  }

  function ParseFlowMappingKey(p0: P, first: bool): Result {
    if first && p0.tokens == [] then Panic
    else
      var p := if first then p0.Mark().Skip() else p0;
      if p.tokens == [] then Error
      else if p.Head().FlowMappingEndToken? then PopBoth(p.Skip(), MappingEnd)
      else if !first && !p.Head().FlowEntryToken? then ContextError(p)
      else FlowMappingItem(if first then p else p.Skip())
  }

  /** After '{' or ','. */
  function FlowMappingItem(q: P): Result {
    if q.tokens == [] then Error
    else if q.Head().KeyToken? then
      var r := q.Skip();
      if r.tokens == [] then Error
      else if !EndsFlowPair(r.Head()) then ParseNode(r.Push(FlowMappingValueState), false, false)
      else EmptyScalar(r.To(FlowMappingValueState))
    else if !q.Head().FlowMappingEndToken? then ParseNode(q.Push(FlowMappingEmptyValueState), false, false)
    else PopBoth(q.Skip(), MappingEnd)
  }

  function ParseFlowMappingValue(p: P, empty: bool): Result {
    if p.tokens == [] then Error
    else if empty then EmptyScalar(p.To(FlowMappingKeyState))
    else if p.Head().ValueToken? then
      var q := p.Skip();
      if q.tokens == [] then Error
      else if !q.Head().FlowEntryToken? && !q.Head().FlowMappingEndToken? then
        ParseNode(q.Push(FlowMappingKeyState), false, false)
      else EmptyScalar(q.To(FlowMappingKeyState))
    else EmptyScalar(p.To(FlowMappingKeyState))
  }

  // ---- The state machine ----

  /** yaml_parser_state_machine. */
  function Step(p: P): Result
    requires p.state != EndState
  {
    match p.state
    case StreamStartState => ParseStreamStart(p)
    case ImplicitDocumentStartState => ParseDocumentStart(p, true)
    case DocumentStartState => ParseDocumentStart(p, false)
    case DocumentContentState => ParseDocumentContent(p)
    case DocumentEndState => ParseDocumentEnd(p)
    case BlockNodeState => ParseNode(p, true, false)
    case BlockNodeOrIndentlessSequenceState => ParseNode(p, true, true)
    case FlowNodeState => ParseNode(p, false, false)
    case BlockSequenceFirstEntryState => ParseBlockSequenceEntry(p, true)
    case BlockSequenceEntryState => ParseBlockSequenceEntry(p, false)
    case IndentlessSequenceEntryState => ParseIndentlessSequenceEntry(p)
    case BlockMappingFirstKeyState => ParseBlockMappingKey(p, true)
    case BlockMappingKeyState => ParseBlockMappingKey(p, false)
    case BlockMappingValueState => ParseBlockMappingValue(p)
    case FlowSequenceFirstEntryState => ParseFlowSequenceEntry(p, true)
    case FlowSequenceEntryState => ParseFlowSequenceEntry(p, false)
    case FlowSequenceEntryMappingKeyState => ParseFlowSequenceEntryMappingKey(p)
    case FlowSequenceEntryMappingValueState => ParseFlowSequenceEntryMappingValue(p)
    case FlowSequenceEntryMappingEndState => ParseFlowSequenceEntryMappingEnd(p)
    case FlowMappingFirstKeyState => ParseFlowMappingKey(p, true)
    case FlowMappingKeyState => ParseFlowMappingKey(p, false)
    case FlowMappingValueState => ParseFlowMappingValue(p, false)
    case FlowMappingEmptyValueState => ParseFlowMappingValue(p, true)
  }

  /** A parser that has just been initialized. */
  function Start(tokens: seq<Token>): P {
    P(tokens, 0, StreamStartState, [], [], [])
  }
}
