/** Whole runs of the parser over any token sequence. */
module ParserRuns {
  import opened Utf8
  import opened EventGrammar
  import opened ParserSpec
  import opened ParserSoundness

  // ---- Termination ----

  function StateRank(s: ParserState): nat {
    match s
    case ImplicitDocumentStartState => 6
    case FlowSequenceEntryMappingKeyState => 5
    case BlockNodeState => 2
    case DocumentContentState => 2
    case BlockMappingValueState => 1
    case FlowMappingValueState => 1
    case FlowMappingEmptyValueState => 1
    case FlowSequenceEntryMappingValueState => 2
    case FlowSequenceEntryMappingEndState => 1
    case DocumentEndState => 1
    case BlockSequenceFirstEntryState => 1
    case BlockMappingFirstKeyState => 1
    case FlowSequenceFirstEntryState => 1
    case FlowMappingFirstKeyState => 1
    case _ => 0
  }

  /** Goes down with every event, although many events take no token. */
  function Potential(p: P): nat {
    7 * |p.tokens| + 3 * |p.states| + StateRank(p.state)
  }

  /** The result takes the parser below `bound`. */
  predicate Below(r: Result, bound: int) {
    r.Emit? ==> Potential(r.next) < bound
  }

  lemma PopBelow(p: P, e: Event)
    requires Waiting(p.states)
    ensures Below(PopState(p, e), 7 * |p.tokens| + 3 * |p.states|)
    ensures Below(PopBoth(p, e), 7 * |p.tokens| + 3 * |p.states|)
  {
  }

  lemma NodeBelow(p: P, block: bool, indentless: bool)
    requires Waiting(p.states)
    ensures Below(ParseNode(p, block, indentless), 7 * |p.tokens| + 3 * |p.states| + 2)
  {
    hide Below;
    if p.tokens == [] {
      NothingBelow(7 * |p.tokens| + 3 * |p.states| + 2);
    } else if p.Head().AliasToken? {
      PopBelow(p.Skip(), Alias(p.Head().value));
      Weaken(PopState(p.Skip(), Alias(p.Head().value)), 7 * |p.Skip().tokens| + 3 * |p.states|, 7 * |p.tokens| + 3 * |p.states| + 2);
    } else {
      NothingBelow(7 * |p.tokens| + 3 * |p.states| + 2);
      match ReadProperties(p)
      case NoToken =>
      case Properties(anchor, t, q) =>
        ContentBelow(q, anchor, ResolveTag(p.tagDirectives, t), block, indentless);
        Weaken(NodeContent(q, anchor, ResolveTag(p.tagDirectives, t), block, indentless),
               7 * |q.tokens| + 3 * |q.states| + 2, 7 * |p.tokens| + 3 * |p.states| + 2);
    }
  }

  lemma NothingBelow(bound: int)
    ensures Below(Error, bound)
  {
  }

  lemma Weaken(r: Result, a: int, b: int)
    requires Below(r, a) && a <= b
    ensures Below(r, b)
  {
  }

  lemma ContentBelow(p: P, anchor: Text, tag: Text, block: bool, indentless: bool)
    requires Waiting(p.states) && p.tokens != []
    ensures Below(NodeContent(p, anchor, tag, block, indentless), 7 * |p.tokens| + 3 * |p.states| + 2)
  {
  }

  /** Every event lowers the potential. */
  lemma StepDecreases(p: P)
    requires Inv(p) && p.state != EndState
    ensures Below(ParserSpec.Step(p), Potential(p))
  {
    hide Below;
    NothingBelow(Potential(p));
    hide Potential;
    match p.state
    case StreamStartState => StartsBelow(p);
    case ImplicitDocumentStartState => DocumentStartBelow(p, true);
    case DocumentStartState => DocumentStartBelow(p, false);
    case DocumentContentState => RootBelow(p);
    case DocumentEndState => StartsBelow(p);
    case BlockNodeState => RootBelow(p);
    case BlockSequenceFirstEntryState => EntriesBelow(p, true);
    case BlockSequenceEntryState => EntriesBelow(p, false);
    case IndentlessSequenceEntryState => ValuesBelow(p);
    case BlockMappingFirstKeyState => EntriesBelow(p, true);
    case BlockMappingKeyState => EntriesBelow(p, false);
    case BlockMappingValueState => ValuesBelow(p);
    case FlowSequenceFirstEntryState => FlowEntriesBelow(p, true);
    case FlowSequenceEntryState => FlowEntriesBelow(p, false);
    case FlowSequenceEntryMappingKeyState => SinglePairsBelow(p);
    case FlowSequenceEntryMappingValueState => SinglePairsBelow(p);
    case FlowSequenceEntryMappingEndState => SinglePairsBelow(p);
    case FlowMappingFirstKeyState => FlowEntriesBelow(p, true);
    case FlowMappingKeyState => FlowEntriesBelow(p, false);
    case FlowMappingValueState => ValuesBelow(p);
    case FlowMappingEmptyValueState => ValuesBelow(p);
  }

  lemma RootBelow(p: P)
    requires Inv(p) && (p.state.DocumentContentState? || p.state.BlockNodeState?)
    ensures Below(ParseNode(p, true, false), Potential(p)) && Below(PopState(p, NULL_SCALAR), Potential(p))
  {
    hide Below;
    NodeBelow(p, true, false);
    PopBelow(p, NULL_SCALAR);
    Weaken(PopState(p, NULL_SCALAR), 7 * |p.tokens| + 3 * |p.states|, Potential(p));
  }

  lemma StartsBelow(p: P)
    ensures p.state.StreamStartState? ==> Below(ParseStreamStart(p), Potential(p))
    ensures p.state.DocumentEndState? ==> Below(ParseDocumentEnd(p), Potential(p))
  {
  }

  lemma DocumentStartBelow(p: P, implicit: bool)
    requires Inv(p) && p.state == (if implicit then ImplicitDocumentStartState else DocumentStartState)
    ensures Below(ParseDocumentStart(p, implicit), Potential(p))
  {
    SkipDocumentEndsKeeps(p);
    DirectivesKeep(if implicit then p else SkipDocumentEnds(p), NoVersion, []);
  }

  /** Once a token has been skipped, whatever a collection does next is below. */
  lemma Later(p0: P, p: P, t: ParserState, e: Event, block: bool, indentless: bool)
    requires Waiting(p.states) && p.states == p0.states && |p.tokens| < |p0.tokens| && InCollection(t)
    ensures Below(ParseNode(p.Push(t), block, indentless), Potential(p0))
    ensures Below(EmptyScalar(p.To(t)), Potential(p0))
    ensures Below(PopBoth(p, e), Potential(p0))
  {
    NodeBelow(p.Push(t), block, indentless);
    PopBelow(p, e);
  }

  lemma EntriesBelow(p0: P, first: bool)
    requires Inv(p0)
    ensures p0.state == (if first then BlockSequenceFirstEntryState else BlockSequenceEntryState) ==>
              Below(ParseBlockSequenceEntry(p0, first), Potential(p0))
    ensures p0.state == (if first then BlockMappingFirstKeyState else BlockMappingKeyState) ==>
              Below(ParseBlockMappingKey(p0, first), Potential(p0))
  {
    hide Below;
    hide ParseNode;
    NothingBelow(Potential(p0));
    if p0.tokens != [] && Waiting(p0.states) {
      var p := if first then p0.Mark().Skip() else p0;
      if p.tokens != [] {
        Later(p0, p.Skip(), BlockSequenceEntryState, SequenceEnd, true, false);
        Later(p0, p.Skip(), BlockMappingValueState, MappingEnd, true, true);
      }
    }
  }

  lemma ValuesBelow(p: P)
    requires Inv(p)
    ensures p.state.IndentlessSequenceEntryState? ==> Below(ParseIndentlessSequenceEntry(p), Potential(p))
    ensures p.state.BlockMappingValueState? ==> Below(ParseBlockMappingValue(p), Potential(p))
    ensures p.state.FlowMappingValueState? ==> Below(ParseFlowMappingValue(p, false), Potential(p))
    ensures p.state.FlowMappingEmptyValueState? ==> Below(ParseFlowMappingValue(p, true), Potential(p))
  {
    hide ParseNode;
    if p.tokens != [] && Waiting(p.states) {
      PopBelow(p, SequenceEnd);
      Later(p, p.Skip(), IndentlessSequenceEntryState, SequenceEnd, true, false);
      Later(p, p.Skip(), BlockMappingKeyState, SequenceEnd, true, true);
      Later(p, p.Skip(), FlowMappingKeyState, SequenceEnd, false, false);
    }
  }

  lemma SinglePairsBelow(p: P)
    requires Inv(p)
    ensures p.state.FlowSequenceEntryMappingKeyState? ==> Below(ParseFlowSequenceEntryMappingKey(p), Potential(p))
    ensures p.state.FlowSequenceEntryMappingValueState? ==> Below(ParseFlowSequenceEntryMappingValue(p), Potential(p))
    ensures p.state.FlowSequenceEntryMappingEndState? ==> Below(ParseFlowSequenceEntryMappingEnd(p), Potential(p))
  {
    hide ParseNode;
    if p.tokens != [] && Waiting(p.states) {
      NodeBelow(p.Push(FlowSequenceEntryMappingValueState), false, false);
      Later(p, p.Skip(), FlowSequenceEntryMappingValueState, MappingEnd, false, false);
      Later(p, p.Skip(), FlowSequenceEntryMappingEndState, MappingEnd, false, false);
    }
  }

  lemma FlowItemsBelow(p0: P, q: P)
    requires Waiting(p0.states) && q.states == p0.states && |q.tokens| < |p0.tokens|
    ensures Below(FlowSequenceItem(q), Potential(p0))
    ensures Below(FlowMappingItem(q), Potential(p0))
  {
    hide ParseNode;
    if q.tokens != [] {
      Later(p0, q, FlowSequenceEntryState, SequenceEnd, false, false);
      Later(p0, q, FlowMappingEmptyValueState, SequenceEnd, false, false);
      Later(p0, q.Skip(), FlowMappingValueState, SequenceEnd, false, false);
      Later(p0, q.Skip(), FlowMappingValueState, MappingEnd, false, false);
    }
  }

  lemma FlowEntriesBelow(p0: P, first: bool)
    requires Inv(p0)
    ensures p0.state == (if first then FlowSequenceFirstEntryState else FlowSequenceEntryState) ==>
              Below(ParseFlowSequenceEntry(p0, first), Potential(p0))
    ensures p0.state == (if first then FlowMappingFirstKeyState else FlowMappingKeyState) ==>
              Below(ParseFlowMappingKey(p0, first), Potential(p0))
  {
    hide FlowSequenceItem;
    hide FlowMappingItem;
    if p0.tokens != [] && Waiting(p0.states) {
      var p := if first then p0.Mark().Skip() else p0;
      if p.tokens != [] {
        FlowItemsBelow(p0, p.Skip());
        Later(p0, p.Skip(), FlowSequenceEntryState, SequenceEnd, false, false);
        Later(p0, p.Skip(), FlowSequenceEntryState, MappingEnd, false, false);
      }
      if first {
        FlowItemsBelow(p0, p);
      }
    }
  }

  // ---- Runs ----

  /** All events up to the end of the stream or an error, and which of the two it was. */
  datatype Parsed = Parsed(events: seq<Event>, ended: bool)

  ghost function ParseAll(p: P): Parsed
    requires Inv(p)
    decreases Potential(p)
  {
    if p.state == EndState then Parsed([], true)
    else
      StepSound(p);
      StepDecreases(p);
      match ParserSpec.Step(p)
      case Error => Parsed([], false)
      case Emit(e, q) =>
        var r := ParseAll(q);
        Parsed([e] + r.events, r.ended)
  }

  lemma {:induction false} RunSound(p: P)
    requires Inv(p)
    ensures var r := ParseAll(p);
            && Run(Abs(p), r.events) != Rejected
            && (r.ended <==> Run(Abs(p), r.events) == After)
            && |r.events| <= Potential(p)
    decreases Potential(p)
  {
    hide Run;
    StepEnds(p);
    RunNothing(Abs(p));
    if p.state != EndState {
      StepSound(p);
      StepDecreases(p);
      match ParserSpec.Step(p)
      case Error =>
      case Emit(e, q) =>
        RunSound(q);
        var r := ParseAll(q);
        assert ParseAll(p).events == [e] + r.events;
        RunConcat(Abs(p), [e], r.events);
        RunOne(Abs(p), e);
    }
  }

  lemma StepEnds(p: P)
    requires Inv(p)
    ensures Abs(p) == After <==> p.state == EndState
    ensures Abs(p) != Rejected
  {
  }

  /** For any tokens: the events are a prefix of a well-bracketed stream with one root node per
      document, the whole of one exactly if no error came, and at most seven per token. */
  lemma AnyTokens(tokens: seq<Token>)
    ensures Inv(Start(tokens))
    ensures var r := ParseAll(Start(tokens));
            && |r.events| <= 7 * |tokens|
            && (exists more, ds :: WellFormedStream(ds) && r.events + more == FlattenStream(ds))
            && (r.ended <==> exists ds :: WellFormedStream(ds) && r.events == FlattenStream(ds))
  {
    var p := Start(tokens);
    RunSound(p);
    PrefixOfStream(ParseAll(p).events);
    AcceptedIffFlattening(ParseAll(p).events);
  }
}
