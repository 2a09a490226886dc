/** Whatever tokens the scanner delivers, the parser's events are well bracketed, its stacks
    never underflow, and it stops after a number of events linear in the number of tokens. */
module ParserSoundness {
  import opened Utf8
  import opened EventGrammar
  import opened ParserSpec

  // ---- What the parser's stack of states stands for ----

  /** States that can wait on the stack for a collection to go on. */
  predicate InCollection(s: ParserState) {
    || s.BlockSequenceEntryState? || s.IndentlessSequenceEntryState?
    || s.BlockMappingKeyState? || s.BlockMappingValueState?
    || s.FlowSequenceEntryState? || s.FlowSequenceEntryMappingValueState? || s.FlowSequenceEntryMappingEndState?
    || s.FlowMappingKeyState? || s.FlowMappingValueState? || s.FlowMappingEmptyValueState?
  }

  /** States at the start of a collection, on its start token. */
  predicate OnStart(s: ParserState, k: Token) {
    || (s.BlockSequenceFirstEntryState? && k.BlockSequenceStartToken?)
    || (s.BlockMappingFirstKeyState? && k.BlockMappingStartToken?)
    || (s.FlowSequenceFirstEntryState? && k.FlowSequenceStartToken?)
    || (s.FlowMappingFirstKeyState? && k.FlowMappingStartToken?)
  }

  predicate IsFirst(s: ParserState) {
    || s.BlockSequenceFirstEntryState? || s.BlockMappingFirstKeyState?
    || s.FlowSequenceFirstEntryState? || s.FlowMappingFirstKeyState?
  }

  /** The open constructs that a collection state stands for. */
  function Frames(s: ParserState): seq<Frame> {
    match s
    case BlockSequenceFirstEntryState => [InSequence]
    case BlockSequenceEntryState => [InSequence]
    case IndentlessSequenceEntryState => [InSequence]
    case FlowSequenceFirstEntryState => [InSequence]
    case FlowSequenceEntryState => [InSequence]
    case BlockMappingFirstKeyState => [BeforeKey]
    case BlockMappingKeyState => [BeforeKey]
    case BlockMappingValueState => [BeforeValue]
    case FlowMappingFirstKeyState => [BeforeKey]
    case FlowMappingKeyState => [BeforeKey]
    case FlowMappingValueState => [BeforeValue]
    case FlowMappingEmptyValueState => [BeforeValue]
    case FlowSequenceEntryMappingKeyState => [InSequence, BeforeKey]
    case FlowSequenceEntryMappingValueState => [InSequence, BeforeValue]
    case FlowSequenceEntryMappingEndState => [InSequence, BeforeKey]
    case DocumentEndState => [Rooted]
    case _ => []
  }

  function AllFrames(ss: seq<ParserState>): seq<Frame> {
    if ss == [] then [] else AllFrames(ss[..|ss| - 1]) + Frames(ss[|ss| - 1])
  }

  /** Whether a state belongs to a collection whose mark has been pushed: all but indentless
      sequences have one, from their second state on. */
  function Marked(s: ParserState): nat {
    if IsFirst(s) || s.IndentlessSequenceEntryState? then 0
    else if InCollection(s) || s.FlowSequenceEntryMappingKeyState? then 1
    else 0
  }

  function AllMarked(ss: seq<ParserState>): nat {
    if ss == [] then 0 else AllMarked(ss[..|ss| - 1]) + Marked(ss[|ss| - 1])
  }

  /** The states that wait while a node of a document is parsed. */
  ghost predicate Waiting(ss: seq<ParserState>) {
    && ss != [] && ss[0].DocumentEndState?
    && forall i | 1 <= i < |ss| :: InCollection(ss[i])
  }

  ghost predicate Inv(p: P) {
    && |p.marks| == AllMarked(p.states) + Marked(p.state)
    && match p.state
       case StreamStartState => p.states == []
       case ImplicitDocumentStartState => p.states == []
       case DocumentStartState => p.states == []
       case DocumentEndState => p.states == []
       case EndState => p.states == []
       case BlockNodeState => p.states == [DocumentEndState]
       case DocumentContentState => p.states == [DocumentEndState]
       case _ =>
         && Waiting(p.states)
         && (InCollection(p.state) || p.state.FlowSequenceEntryMappingKeyState?
             || (IsFirst(p.state) && p.tokens != [] && OnStart(p.state, p.Head())))
  }

  /** The recognizer's state after the events emitted so far. */
  ghost function Abs(p: P): State {
    match p.state
    case StreamStartState => Before
    case EndState => After
    case BlockNodeState => Open([Root])
    case DocumentContentState => Open([Root])
    case _ => Open(AllFrames(p.states) + Frames(p.state))
  }

  lemma PushFrames(ss: seq<ParserState>, s: ParserState)
    ensures AllFrames(ss + [s]) == AllFrames(ss) + Frames(s)
    ensures AllMarked(ss + [s]) == AllMarked(ss) + Marked(s)
    ensures Waiting(ss) && InCollection(s) ==> Waiting(ss + [s])
  {
    var t := ss + [s];
    assert t[..|t| - 1] == ss;
  }

  lemma FilledAppend(a: seq<Frame>, f: seq<Frame>)
    requires f != []
    ensures Filled(a + f) == a + Filled(f)
    ensures (a + f)[|a + f| - 1] == f[|f| - 1]
    ensures (a + f)[..|a + f| - 1] == a + f[..|f| - 1]
  {
  }

  /** A step keeps the invariant, does not panic, and its event is one the recognizer takes. */
  ghost predicate Sound(g: State, r: Result) {
    match r
    case Panic => false
    case Error => true
    case Emit(e, q) => Inv(q) && EventGrammar.Step(g, e) == Abs(q)
  }

  /** A node is due in the innermost of the constructs `fs`, and `p.states` waits for it. */
  ghost predicate NodeDue(p: P, fs: seq<Frame>) {
    && Waiting(p.states) && |p.marks| == AllMarked(p.states)
    && fs != [] && TakesNode(fs[|fs| - 1]) && AllFrames(p.states) == Filled(fs)
  }

  /** Taking the waiting state back. */
  lemma Popped(p: P)
    requires Waiting(p.states) && |p.marks| == AllMarked(p.states)
    ensures var n := |p.states| - 1;
            var q := p.(state := p.states[n], states := p.states[..n]);
            Inv(q) && Abs(q) == Open(AllFrames(p.states))
  {
    if |p.states| == 1 {
      PoppedToDocument(p);
    } else {
      PoppedToCollection(p);
    }
  }

  lemma PoppedToDocument(p: P)
    requires Waiting(p.states) && |p.marks| == AllMarked(p.states) && |p.states| == 1
    ensures var q := p.(state := p.states[0], states := p.states[..0]);
            Inv(q) && Abs(q) == Open(AllFrames(p.states))
  {
    var s := p.states[0];
    PushFrames([], s);
    NoFrames();
    hide AllFrames, AllMarked;
    assert p.states[..0] == [] && [] + [s] == p.states;
    assert [] + Frames(s) == Frames(s);
  }

  lemma PoppedToCollection(p: P)
    requires Waiting(p.states) && |p.marks| == AllMarked(p.states) && |p.states| > 1
    ensures var n := |p.states| - 1;
            var q := p.(state := p.states[n], states := p.states[..n]);
            Inv(q) && Abs(q) == Open(AllFrames(p.states))
  {
    hide AllFrames, AllMarked;
    var n := |p.states| - 1;
    var s := p.states[n];
    assert p.states == p.states[..n] + [s];
    PushFrames(p.states[..n], s);
    assert InCollection(s);
    assert Waiting(p.states[..n]);
  }

  lemma NoFrames()
    ensures AllFrames([]) == [] && AllMarked([]) == 0
  {
  }

  lemma PopSound(p: P, fs: seq<Frame>, e: Event)
    requires NodeDue(p, fs) && (e.Alias? || e.Scalar?)
    ensures Sound(Open(fs), PopState(p, e))
  {
    hide AllFrames;
    hide AllMarked;
    Popped(p);
    hide Inv;
    hide Abs;
  }

  lemma StartSound(p: P, fs: seq<Frame>, e: Event, s: ParserState)
    requires NodeDue(p, fs) && p.tokens != []
    requires e.SequenceStart? || e.MappingStart?
    requires Frames(s) == (if e.SequenceStart? then [InSequence] else [BeforeKey])
    requires s.IndentlessSequenceEntryState? || OnStart(s, p.Head())
    ensures Sound(Open(fs), Emit(e, p.To(s)))
  {
  }

  lemma NodeSound(p: P, fs: seq<Frame>, block: bool, indentless: bool)
    requires NodeDue(p, fs)
    ensures Sound(Open(fs), ParseNode(p, block, indentless))
  {
    hide Sound;
    if p.tokens == [] {
      ErrorSound(Open(fs));
    } else if p.Head().AliasToken? {
      PopSound(p.Skip(), fs, Alias(p.Head().value));
    } else {
      match ReadProperties(p)
      case NoToken => ErrorSound(Open(fs));
      case Properties(anchor, t, q) =>
        if UndefinedHandle(p.tagDirectives, t) {
          ErrorSound(Open(fs));
        } else {
          ContentSound(q, fs, anchor, ResolveTag(p.tagDirectives, t), block, indentless);
        }
    }
  }

  lemma ErrorSound(g: State)
    ensures Sound(g, Error)
  {
  }

  lemma ContentSound(p: P, fs: seq<Frame>, anchor: Text, tag: Text, block: bool, indentless: bool)
    requires NodeDue(p, fs) && p.tokens != []
    ensures Sound(Open(fs), NodeContent(p, anchor, tag, block, indentless))
  {
    hide Sound;
    hide NodeDue;
    var implicit := tag == [];
    NoContentSound(p, fs, anchor, tag);
    match p.Head()
    case BlockEntryToken =>
      StartSound(p, fs, SequenceStart(anchor, tag, implicit, Block), IndentlessSequenceEntryState);
    case ScalarToken(value, style) =>
      var plain := (implicit && style == Plain) || tag == [0x21];
      SkipDue(p, fs);
      PopSound(p.Skip(), fs, Scalar(anchor, tag, value, plain, !plain && implicit, style));
    case FlowSequenceStartToken =>
      StartSound(p, fs, SequenceStart(anchor, tag, implicit, Flow), FlowSequenceFirstEntryState);
    case FlowMappingStartToken =>
      StartSound(p, fs, MappingStart(anchor, tag, implicit, Flow), FlowMappingFirstKeyState);
    case BlockSequenceStartToken =>
      StartSound(p, fs, SequenceStart(anchor, tag, implicit, Block), BlockSequenceFirstEntryState);
    case BlockMappingStartToken =>
      StartSound(p, fs, MappingStart(anchor, tag, implicit, Block), BlockMappingFirstKeyState);
    case _ =>
  }

  lemma SkipDue(p: P, fs: seq<Frame>)
    requires NodeDue(p, fs) && p.tokens != []
    ensures NodeDue(p.Skip(), fs)
  {
  }

  lemma NoContentSound(p: P, fs: seq<Frame>, anchor: Text, tag: Text)
    requires NodeDue(p, fs)
    ensures Sound(Open(fs), NoContent(p, anchor, tag))
  {
    PopSound(p, fs, Scalar(anchor, tag, [], tag == [], false, Plain));
  }

  // ---- Collections ----

  /** The parser in the middle of a collection, at state `s`, after it has pushed its mark. */
  ghost predicate Inside(p: P, s: ParserState) {
    && Waiting(p.states) && |p.marks| == AllMarked(p.states) + Marked(s)
    && (InCollection(s) || s.FlowSequenceEntryMappingKeyState?)
  }

  ghost function Now(p: P, s: ParserState): State {
    Open(AllFrames(p.states) + Frames(s))
  }

  /** A node is parsed and the collection goes on at state `t`. */
  lemma NodeInside(p: P, s: ParserState, t: ParserState, block: bool, indentless: bool)
    requires Inside(p, s) && InCollection(t) && Marked(s) == Marked(t)
    requires Frames(t) == Filled(Frames(s))
    ensures Sound(Now(p, s), ParseNode(p.Push(t), block, indentless))
  {
    DueInside(p, s, t);
    hide AllFrames;
    hide AllMarked;
    hide Frames;
    hide Inside;
    hide NodeDue;
    hide ParseNode;
    hide Sound;
    NodeSound(p.Push(t), AllFrames(p.states) + Frames(s), block, indentless);
  }

  lemma DueInside(p: P, s: ParserState, t: ParserState)
    requires Inside(p, s) && InCollection(t) && Marked(s) == Marked(t)
    requires Frames(t) == Filled(Frames(s))
    ensures NodeDue(p.Push(t), AllFrames(p.states) + Frames(s))
  {
    PushFrames(p.states, t);
    FramesTake(s);
    hide AllFrames, AllMarked, Filled, Frames, Waiting;
    FilledAppend(AllFrames(p.states), Frames(s));
  }

  lemma FramesTake(s: ParserState)
    requires InCollection(s) || s.FlowSequenceEntryMappingKeyState?
    ensures Frames(s) != [] && TakesNode(Frames(s)[|Frames(s)| - 1])
  {
  }

  lemma EmptyInside(p: P, s: ParserState, t: ParserState)
    requires Inside(p, s) && InCollection(t) && Marked(s) == Marked(t)
    requires Frames(t) == Filled(Frames(s))
    ensures Sound(Now(p, s), EmptyScalar(p.To(t)))
  {
    TurnedInside(p, s, t);
    hide AllFrames, AllMarked, Inside, Inv, Abs, EventGrammar.Step, Filled, Frames;
    Goes(p.To(t));
    FillStep(AllFrames(p.states), Frames(s));
  }

  lemma TurnedInside(p: P, s: ParserState, t: ParserState)
    requires Inside(p, s) && InCollection(t) && Marked(s) == Marked(t)
    requires Frames(t) == Filled(Frames(s))
    ensures Inside(p.To(t), t) && Now(p.To(t), t) == Open(AllFrames(p.states) + Frames(t))
    ensures Frames(s) != [] && TakesNode(Frames(s)[|Frames(s)| - 1])
  {
    hide AllFrames, AllMarked, Filled;
  }

  lemma FillStep(a: seq<Frame>, f: seq<Frame>)
    requires f != [] && TakesNode(f[|f| - 1])
    ensures EventGrammar.Step(Open(a + f), NULL_SCALAR) == Open(a + Filled(f))
  {
    FilledAppend(a, f);
    hide Filled;
  }

  /** A state of a collection that is going on. */
  lemma Goes(p: P)
    requires Inside(p, p.state)
    ensures Inv(p) && Abs(p) == Now(p, p.state)
  {
  }

  /** The collection that `s` belongs to ends. */
  lemma EndInside(p: P, s: ParserState, e: Event)
    requires Inside(p, s)
    requires (e.SequenceEnd? && Frames(s) == [InSequence]) || (e.MappingEnd? && Frames(s) == [BeforeKey])
    ensures Marked(s) == 1 ==> Sound(Now(p, s), PopBoth(p, e))
    ensures Marked(s) == 0 ==> Sound(Now(p, s), PopState(p, e))
  {
    hide AllFrames;
    hide AllMarked;
    EndStep(AllFrames(p.states), Frames(s)[0], e);
    assert Frames(s) == [Frames(s)[0]];
    var q := if Marked(s) == 1 then p.(marks := p.marks[..|p.marks| - 1]) else p;
    assert |q.marks| == AllMarked(q.states);
    hide Frames;
    Popped(q);
    hide Inv;
    hide Abs;
  }

  lemma EndStep(a: seq<Frame>, f: Frame, e: Event)
    requires (e.SequenceEnd? && f == InSequence) || (e.MappingEnd? && f == BeforeKey)
    ensures EventGrammar.Step(Open(a + [f]), e) == Open(a)
  {
    assert (a + [f])[..|a + [f]| - 1] == a;
  }

  /** The parser of an entry production after a start token, if it stands on one. */
  lemma Entered(p0: P, first: bool, s: ParserState)
    requires Inv(p0) && InCollection(s) && Marked(s) == 1
    requires if first then IsFirst(p0.state) && Frames(p0.state) == Frames(s) else p0.state == s
    ensures first ==> p0.tokens != []
    ensures var p := if first then p0.Mark().Skip() else p0;
            Inside(p, s) && Now(p, s) == Abs(p0)
  {
  }

  lemma SkipInside(p: P, s: ParserState)
    requires Inside(p, s) && p.tokens != []
    ensures Inside(p.Skip(), s) && Now(p.Skip(), s) == Now(p, s)
  {
  }

  lemma ContextSound(p: P, s: ParserState, g: State)
    requires Inside(p, s) && Marked(s) == 1
    ensures Sound(g, ContextError(p))
  {
  }

  lemma BlockSequenceSound(p0: P, first: bool)
    requires Inv(p0) && p0.state == (if first then BlockSequenceFirstEntryState else BlockSequenceEntryState)
    ensures Sound(Abs(p0), ParseBlockSequenceEntry(p0, first))
  {
    hide Sound;
    hide ParseNode;
    var s := BlockSequenceEntryState;
    Entered(p0, first, s);
    hide Inv;
    hide Abs;
    var p := if first then p0.Mark().Skip() else p0;
    ErrorSound(Now(p, s));
    ContextSound(p, s, Now(p, s));
    if p.tokens != [] {
      SkipInside(p, s);
      hide Inside;
      hide Now;
      NodeInside(p.Skip(), s, s, true, false);
      EmptyInside(p.Skip(), s, s);
      EndInside(p.Skip(), s, SequenceEnd);
    }
  }

  lemma IndentlessInside(p: P)
    requires Inv(p) && p.state == IndentlessSequenceEntryState
    ensures Inside(p, p.state) && Now(p, p.state) == Abs(p)
  {
    hide AllFrames;
    hide AllMarked;
  }

  lemma IndentlessSequenceSound(p: P)
    requires Inv(p) && p.state == IndentlessSequenceEntryState
    ensures Sound(Abs(p), ParseIndentlessSequenceEntry(p))
  {
    hide Sound;
    hide ParseNode;
    var s := IndentlessSequenceEntryState;
    IndentlessInside(p);
    hide Inv;
    hide Abs;
    hide Inside;
    hide Now;
    ErrorSound(Now(p, s));
    EndInside(p, s, SequenceEnd);
    if p.tokens != [] {
      SkipInside(p, s);
      NodeInside(p.Skip(), s, s, true, false);
      EmptyInside(p.Skip(), s, s);
    }
  }

  lemma BlockMappingKeySound(p0: P, first: bool)
    requires Inv(p0) && p0.state == (if first then BlockMappingFirstKeyState else BlockMappingKeyState)
    ensures Sound(Abs(p0), ParseBlockMappingKey(p0, first))
  {
    hide Sound;
    hide ParseNode;
    var s := BlockMappingKeyState;
    Entered(p0, first, s);
    hide Inv;
    hide Abs;
    var p := if first then p0.Mark().Skip() else p0;
    ErrorSound(Now(p, s));
    ContextSound(p, s, Now(p, s));
    if p.tokens != [] {
      SkipInside(p, s);
      hide Inside;
      hide Now;
      NodeInside(p.Skip(), s, BlockMappingValueState, true, true);
      EmptyInside(p.Skip(), s, BlockMappingValueState);
      EndInside(p.Skip(), s, MappingEnd);
    }
  }

  lemma BlockMappingValueSound(p: P)
    requires Inv(p) && p.state == BlockMappingValueState
    ensures Sound(Abs(p), ParseBlockMappingValue(p))
  {
    hide Sound;
    hide ParseNode;
    var s := BlockMappingValueState;
    Entered(p, false, s);
    hide Inv;
    hide Abs;
    ErrorSound(Now(p, s));
    if p.tokens != [] {
      SkipInside(p, s);
      hide Inside;
      hide Now;
      NodeInside(p.Skip(), s, BlockMappingKeyState, true, true);
      EmptyInside(p.Skip(), s, BlockMappingKeyState);
      EmptyInside(p, s, BlockMappingKeyState);
    }
  }

  lemma PairStep(a: seq<Frame>, e: Event)
    requires e.MappingStart?
    ensures EventGrammar.Step(Open(a + [InSequence]), e) == Open(a + [InSequence, BeforeKey])
  {
    var t := a + [InSequence];
    assert t[..|t| - 1] == a;
    assert Filled(t) == t;
    assert t + [BeforeKey] == a + [InSequence, BeforeKey];
    hide Filled;
  }

  /** A single pair starts inside a flow sequence. */
  lemma SinglePairSound(p: P)
    requires Inside(p, FlowSequenceEntryState) && p.tokens != []
    ensures Sound(Now(p, FlowSequenceEntryState),
                  Emit(MappingStart([], [], true, Flow), p.To(FlowSequenceEntryMappingKeyState).Skip()))
  {
    hide AllFrames;
    hide AllMarked;
    PairStep(AllFrames(p.states), MappingStart([], [], true, Flow));
    hide EventGrammar.Step;
    Goes(p.To(FlowSequenceEntryMappingKeyState).Skip());
    hide Inv;
    hide Abs;
  }

  lemma FlowSequenceItemSound(q: P)
    requires Inside(q, FlowSequenceEntryState)
    ensures Sound(Now(q, FlowSequenceEntryState), FlowSequenceItem(q))
  {
    hide Sound;
    hide ParseNode;
    hide PopBoth;
    var s := FlowSequenceEntryState;
    ErrorSound(Now(q, s));
    if q.tokens != [] {
      SkipInside(q, s);
      EndInside(q.Skip(), s, SequenceEnd);
      SinglePairSound(q);
      NodeInside(q, s, s, false, false);
    }
  }

  lemma FlowSequenceSound(p0: P, first: bool)
    requires Inv(p0) && p0.state == (if first then FlowSequenceFirstEntryState else FlowSequenceEntryState)
    ensures Sound(Abs(p0), ParseFlowSequenceEntry(p0, first))
  {
    hide Sound;
    hide FlowSequenceItem;
    var s := FlowSequenceEntryState;
    Entered(p0, first, s);
    hide Inv;
    hide Abs;
    var p := if first then p0.Mark().Skip() else p0;
    ErrorSound(Now(p, s));
    ContextSound(p, s, Now(p, s));
    if p.tokens != [] {
      SkipInside(p, s);
      hide Inside;
      hide Now;
      EndInside(p.Skip(), s, SequenceEnd);
      FlowSequenceItemSound(if first then p else p.Skip());
    }
  }

  lemma SinglePairKeySound(p: P)
    requires Inv(p) && p.state == FlowSequenceEntryMappingKeyState
    ensures Sound(Abs(p), ParseFlowSequenceEntryMappingKey(p))
  {
    hide Sound;
    hide ParseNode;
    var s := FlowSequenceEntryMappingKeyState;
    assert Inside(p, s) && Now(p, s) == Abs(p);
    hide Inv;
    hide Abs;
    ErrorSound(Now(p, s));
    if p.tokens != [] {
      SkipInside(p, s);
      hide Inside;
      hide Now;
      NodeInside(p, s, FlowSequenceEntryMappingValueState, false, false);
      EmptyInside(p.Skip(), s, FlowSequenceEntryMappingValueState);
    }
  }

  lemma SinglePairValueSound(p: P)
    requires Inv(p) && p.state == FlowSequenceEntryMappingValueState
    ensures Sound(Abs(p), ParseFlowSequenceEntryMappingValue(p))
  {
    hide Sound;
    hide ParseNode;
    var s := FlowSequenceEntryMappingValueState;
    Entered(p, false, s);
    hide Inv;
    hide Abs;
    ErrorSound(Now(p, s));
    if p.tokens != [] {
      SkipInside(p, s);
      hide Inside;
      hide Now;
      NodeInside(p.Skip(), s, FlowSequenceEntryMappingEndState, false, false);
      EmptyInside(p.Skip(), s, FlowSequenceEntryMappingEndState);
      EmptyInside(p, s, FlowSequenceEntryMappingEndState);
    }
  }

  lemma SinglePairEndSound(p: P)
    requires Inv(p) && p.state == FlowSequenceEntryMappingEndState
    ensures Sound(Abs(p), ParseFlowSequenceEntryMappingEnd(p))
  {
    hide AllFrames;
    hide AllMarked;
    var a := AllFrames(p.states);
    EndStep(a + [InSequence], BeforeKey, MappingEnd);
    assert a + [InSequence] + [BeforeKey] == a + [InSequence, BeforeKey];
    Goes(p.To(FlowSequenceEntryState));
  }

  lemma FlowMappingItemSound(q: P)
    requires Inside(q, FlowMappingKeyState)
    ensures Sound(Now(q, FlowMappingKeyState), FlowMappingItem(q))
  {
    hide Sound;
    hide ParseNode;
    hide PopBoth;
    var s := FlowMappingKeyState;
    ErrorSound(Now(q, s));
    if q.tokens != [] {
      SkipInside(q, s);
      hide Inside;
      hide Now;
      EndInside(q.Skip(), s, MappingEnd);
      NodeInside(q.Skip(), s, FlowMappingValueState, false, false);
      EmptyInside(q.Skip(), s, FlowMappingValueState);
      NodeInside(q, s, FlowMappingEmptyValueState, false, false);
    }
  }

  lemma FlowMappingKeySound(p0: P, first: bool)
    requires Inv(p0) && p0.state == (if first then FlowMappingFirstKeyState else FlowMappingKeyState)
    ensures Sound(Abs(p0), ParseFlowMappingKey(p0, first))
  {
    hide Sound;
    hide FlowMappingItem;
    var s := FlowMappingKeyState;
    Entered(p0, first, s);
    hide Inv;
    hide Abs;
    var p := if first then p0.Mark().Skip() else p0;
    ErrorSound(Now(p, s));
    ContextSound(p, s, Now(p, s));
    if p.tokens != [] {
      SkipInside(p, s);
      hide Inside;
      hide Now;
      EndInside(p.Skip(), s, MappingEnd);
      FlowMappingItemSound(if first then p else p.Skip());
    }
  }

  lemma FlowMappingValueSound(p: P, empty: bool)
    requires Inv(p) && p.state == (if empty then FlowMappingEmptyValueState else FlowMappingValueState)
    ensures Sound(Abs(p), ParseFlowMappingValue(p, empty))
  {
    hide Sound;
    hide ParseNode;
    var s := p.state;
    Entered(p, false, s);
    hide Inv;
    hide Abs;
    ErrorSound(Now(p, s));
    if p.tokens != [] {
      SkipInside(p, s);
      hide Inside;
      hide Now;
      NodeInside(p.Skip(), s, FlowMappingKeyState, false, false);
      EmptyInside(p.Skip(), s, FlowMappingKeyState);
      EmptyInside(p, s, FlowMappingKeyState);
    }
  }

  // ---- Documents ----

  lemma {:induction false} DirectivesKeep(p: P, version: Version, tags: seq<TagDirective>)
    ensures var d := ProcessDirectives(p, version, tags);
            d.Directives? ==>
              && d.next.state == p.state && d.next.states == p.states && d.next.marks == p.marks
              && |d.next.tokens| <= |p.tokens| && d.next.tokens != []
              && !IsDirective(d.next.Head())
              && (!IsDirective(p.Head()) ==> d.next.tokens == p.tokens)
    decreases |p.tokens|
  {
    if p.tokens != [] {
      match p.Head()
      case VersionDirectiveToken(major, minor) =>
        DirectivesKeep(p.Skip(), Version(major, minor), tags);
      case TagDirectiveToken(handle, prefix) =>
        var d := TagDirective(handle, prefix);
        DirectivesKeep(p.(tagDirectives := p.tagDirectives + [d]).Skip(), version, tags + [d]);
      case _ =>
    }
  }

  lemma {:induction false} SkipDocumentEndsKeeps(p: P)
    ensures var q := SkipDocumentEnds(p);
            q == p.(tokens := q.tokens, parsed := q.parsed) && |q.tokens| <= |p.tokens|
            && (q.tokens != [] ==> !q.Head().DocumentEndToken?)
    decreases |p.tokens|
  {
    if p.tokens != [] && p.Head().DocumentEndToken? {
      SkipDocumentEndsKeeps(p.Skip());
    }
  }

  /** A document starts, at its root node. */
  lemma DocumentOpens(p: P, s: ParserState, e: Event)
    requires p.states == [] && p.marks == [] && e.DocumentStart?
    requires s.BlockNodeState? || s.DocumentContentState?
    ensures Sound(Open([]), Emit(e, p.Push(DocumentEndState).To(s)))
  {
    NoFrames();
    PushFrames([], DocumentEndState);
    assert [] + [DocumentEndState] == [DocumentEndState];
  }

  lemma DocumentStartSound(p0: P, implicit: bool)
    requires Inv(p0) && p0.state == (if implicit then ImplicitDocumentStartState else DocumentStartState)
    ensures Sound(Abs(p0), ParseDocumentStart(p0, implicit))
  {
    hide Sound;
    NoFrames();
    assert Abs(p0) == Open([]);
    assert p0.states == [] && p0.marks == [];
    hide Inv;
    hide Abs;
    SkipDocumentEndsKeeps(p0);
    var p := if implicit then p0 else SkipDocumentEnds(p0);
    DirectivesKeep(p, NoVersion, []);
    ErrorSound(Open([]));
    match ProcessDirectives(p, NoVersion, []) {
      case BadDirectives =>
      case Directives(v, ds, q) =>
        DocumentOpens(q, BlockNodeState, DocumentStart(NoVersion, [], false));
        DocumentOpens(q.Skip(), DocumentContentState, DocumentStart(v, ds, false));
    }
    if p.tokens != [] {
      StreamEnds(p);
    }
  }

  lemma StreamEnds(p: P)
    requires p.states == [] && p.marks == [] && p.tokens != []
    ensures Sound(Open([]), Emit(StreamEnd, p.To(EndState).Skip()))
  {
  }

  lemma RootSound(p: P, block: bool)
    requires Inv(p) && (p.state.BlockNodeState? || p.state.DocumentContentState?)
    ensures Sound(Abs(p), ParseNode(p, true, false))
    ensures Sound(Abs(p), PopState(p, NULL_SCALAR))
  {
    NoFrames();
    assert p.states == [] + [DocumentEndState];
    PushFrames([], DocumentEndState);
    assert Filled([Root]) == [Rooted];
    assert [] + Frames(DocumentEndState) == [Rooted];
    NodeSound(p, [Root], true, false);
    PopSound(p, [Root], NULL_SCALAR);
  }

  lemma DocumentEndSound(p: P)
    requires Inv(p) && p.state.DocumentEndState?
    ensures Sound(Abs(p), ParseDocumentEnd(p))
  {
    NoFrames();
    RootEnds();
    hide AllFrames, AllMarked, EventGrammar.Step;
    assert [] + Frames(DocumentEndState) == [Rooted];
    assert [] + Frames(DocumentStartState) == [];
  }

  lemma RootEnds()
    ensures forall implicit :: EventGrammar.Step(Open([Rooted]), DocumentEnd(implicit)) == Open([])
  {
    assert [Rooted][..0] == [];
  }

  /** One step: no panic, the invariant is kept, and the event is one that can come next in a
      well-bracketed stream. */
  lemma StepSound(p: P)
    requires Inv(p) && p.state != EndState
    ensures Sound(Abs(p), ParserSpec.Step(p))
  {
    hide Sound;
    match p.state
    case StreamStartState => StreamStartSound(p);
    case ImplicitDocumentStartState => DocumentStartSound(p, true);
    case DocumentStartState => DocumentStartSound(p, false);
    case DocumentContentState => RootSound(p, true); ErrorSound(Abs(p));
    case DocumentEndState => DocumentEndSound(p);
    case BlockNodeState => RootSound(p, true);
    case BlockSequenceFirstEntryState => BlockSequenceSound(p, true);
    case BlockSequenceEntryState => BlockSequenceSound(p, false);
    case IndentlessSequenceEntryState => IndentlessSequenceSound(p);
    case BlockMappingFirstKeyState => BlockMappingKeySound(p, true);
    case BlockMappingKeyState => BlockMappingKeySound(p, false);
    case BlockMappingValueState => BlockMappingValueSound(p);
    case FlowSequenceFirstEntryState => FlowSequenceSound(p, true);
    case FlowSequenceEntryState => FlowSequenceSound(p, false);
    case FlowSequenceEntryMappingKeyState => SinglePairKeySound(p);
    case FlowSequenceEntryMappingValueState => SinglePairValueSound(p);
    case FlowSequenceEntryMappingEndState => SinglePairEndSound(p);
    case FlowMappingFirstKeyState => FlowMappingKeySound(p, true);
    case FlowMappingKeyState => FlowMappingKeySound(p, false);
    case FlowMappingValueState => FlowMappingValueSound(p, false);
    case FlowMappingEmptyValueState => FlowMappingValueSound(p, true);
  }

  lemma StreamStartSound(p: P)
    requires Inv(p) && p.state.StreamStartState?
    ensures Sound(Abs(p), ParseStreamStart(p))
  {
    NoFrames();
    assert AllFrames([]) + Frames(ImplicitDocumentStartState) == [];
  }
}
