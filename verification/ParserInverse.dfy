/** The parser gives back the events of any tree of the documented grammar from its tokens, as
    long as the tree has none of the entries on which the code departs from the grammar. */
module ParserInverse {
  import opened Utf8
  import opened EventGrammar
  import opened ParserSpec
  import opened TokenPrinter

  // ---- Several calls of the parser ----

  /** The parser skips a token that is no VALUE without a node and no comma before the closing bracket:
      the key of a single pair is empty. */
  predicate LosesToken(p: P) {
    && p.state == FlowSequenceEntryMappingKeyState && p.tokens != []
    && (|| p.tokens[0].FlowSequenceEndToken?
        || (p.tokens[0].ValueToken? && |p.tokens| > 1 && p.tokens[1].ValueToken?)
        || (p.tokens[0].FlowEntryToken? && |p.tokens| > 1 && !p.tokens[1].FlowSequenceEndToken?))
  }

  /** From `p` the parser emits `es` and is then at `q`. */
  ghost predicate Steps(p: P, es: seq<Event>, q: P)
    decreases |es|, 1
  {
    if es == [] then p == q else p.state != EndState && !LosesToken(p) && Yields(ParserSpec.Step(p), es, q)
  }

  /** The same, the first event coming with the result `r` of a call. */
  ghost predicate Yields(r: Result, es: seq<Event>, q: P)
    decreases |es|, 0
  {
    es != [] && r.Emit? && r.event == es[0] && Steps(r.next, es[1..], q)
  }

  lemma {:induction false} StepsThen(p: P, es: seq<Event>, q: P, fs: seq<Event>, r: P)
    requires Steps(p, es, q) && Steps(q, fs, r)
    ensures Steps(p, es + fs, r)
    decreases |es|
  {
    if es == [] {
      assert es + fs == fs;
    } else {
      assert (es + fs)[1..] == es[1..] + fs;
      StepsThen(ParserSpec.Step(p).next, es[1..], q, fs, r);
    }
  }

  lemma YieldsThen(r: Result, es: seq<Event>, q: P, fs: seq<Event>, q': P)
    requires Yields(r, es, q) && Steps(q, fs, q')
    ensures Yields(r, es + fs, q')
  {
    assert (es + fs)[1..] == es[1..] + fs;
    StepsThen(r.next, es[1..], q, fs, q');
  }

  lemma YieldsOne(e: Event, q: P)
    ensures Yields(Emit(e, q), [e], q)
  {
  }

  lemma StepYields(p: P, es: seq<Event>, q: P)
    requires p.state != EndState && !LosesToken(p) && Yields(ParserSpec.Step(p), es, q)
    ensures Steps(p, es, q)
  {
  }

  lemma NoSteps(p: P)
    ensures Steps(p, [], p)
  {
  }

  /** A result that emits one event, and the calls after it. */
  lemma EmitThen(e: Event, p: P, fs: seq<Event>, q: P)
    requires Steps(p, fs, q)
    ensures Yields(Emit(e, p), [e] + fs, q)
  {
    assert ([e] + fs)[1..] == fs;
  }

  // ---- Positions in the token stream ----

  /** The parser when only `tail` is left. */
  function Past(p: P, tail: seq<Token>): P
    requires |tail| <= |p.tokens|
  {
    p.(tokens := tail, parsed := p.parsed + |p.tokens| - |tail|)
  }

  lemma SkipTo(p: P, k: Token, tail: seq<Token>)
    requires p.tokens == [k] + tail
    ensures p.Head() == k && p.Skip() == Past(p, tail) && |p.tokens| == |tail| + 1
  {
    assert p.tokens[1..] == tail;
  }

  /** The parser after a node whose last token comes before `tail`. */
  function Done(p: P, tail: seq<Token>): P
    requires p.states != [] && |tail| <= |p.tokens|
  {
    Past(p, tail).(state := p.states[|p.states| - 1], states := p.states[..|p.states| - 1])
  }

  lemma DonePushed(p: P, t: ParserState, tail: seq<Token>)
    requires |tail| <= |p.tokens|
    ensures Done(p.Push(t), tail) == Past(p, tail).To(t)
  {
    var s := p.states + [t];
    assert s[..|s| - 1] == p.states;
  }

  /** After a collection that pushed a mark. */
  function DoneBoth(p: P, tail: seq<Token>): P
    requires p.states != [] && p.marks != [] && |tail| <= |p.tokens|
  {
    Done(p, tail).(marks := p.marks[..|p.marks| - 1])
  }

  lemma DoneMarked(p: P, k: Token, rest: seq<Token>, s: ParserState, tail: seq<Token>)
    requires p.tokens == [k] + rest && |tail| <= |rest| && p.states != []
    ensures DoneBoth(p.Mark().Skip().To(s), tail) == Done(p, tail)
  {
    SkipTo(p, k, rest);
    var m := p.marks + [p.parsed];
    assert m[..|m| - 1] == p.marks;
  }

  /** Tokens that can follow a node. */
  predicate Ends(k: Token) {
    || k.BlockEntryToken? || k.BlockEndToken? || k.KeyToken? || k.ValueToken?
    || k.FlowEntryToken? || k.FlowSequenceEndToken? || k.FlowMappingEndToken?
    || k.DocumentStartToken? || k.DocumentEndToken? || k.StreamEndToken? || IsDirective(k)
  }

  predicate Follows(tail: seq<Token>, indentless: bool) {
    tail != [] && Ends(tail[0]) && (indentless ==> EndsBlockNode(tail[0]))
  }

  /** Tokens that can start a node. */
  predicate Starts(k: Token, indentless: bool) {
    || k.AliasToken? || k.AnchorToken? || k.TagToken? || k.ScalarToken?
    || k.BlockSequenceStartToken? || k.BlockMappingStartToken?
    || k.FlowSequenceStartToken? || k.FlowMappingStartToken?
    || (indentless && k.BlockEntryToken?)
  }

  lemma NodeStarts(n: Tree, tail: seq<Token>, block: bool, indentless: bool, ds: seq<TagDirective>)
    requires Shaped(n, block, indentless, ds) && !n.Omitted?
    ensures Print(n, tail) != [] && Starts(Print(n, tail)[0], indentless)
  {
  }

  /** The first token at a place for a node. */
  lemma NodeHead(n: Tree, tail: seq<Token>, block: bool, indentless: bool, ds: seq<TagDirective>)
    requires Shaped(n, block, indentless, ds) && tail != []
    ensures Print(n, tail) != []
    ensures if n.Omitted? then Print(n, tail) == tail else Starts(Print(n, tail)[0], indentless)
  {
    if !n.Omitted? {
      NodeStarts(n, tail, block, indentless, ds);
    }
  }

  // ---- Properties ----

  lemma {:induction false} HandleResolved(ds: seq<TagDirective>, h: Text, s: Text, i: nat)
    requires FirstFor(ds, i, h)
    ensures i < |ds| && ResolveHandle(ds, h, s) == ds[i].prefix + s
    decreases |ds|
  {
    if i > 0 {
      assert FirstFor(ds[1..], i - 1, h);
      HandleResolved(ds[1..], h, s, i - 1);
    }
  }

  lemma {:induction false} HandleUnresolved(ds: seq<TagDirective>, h: Text, s: Text)
    requires !exists i: nat :: FirstFor(ds, i, h)
    ensures ResolveHandle(ds, h, s) == []
    decreases |ds|
  {
    if ds != [] {
      assert !FirstFor(ds, 0, h);
      forall i: nat
        ensures !FirstFor(ds[1..], i, h)
      {
        if FirstFor(ds[1..], i, h) {
          assert FirstFor(ds, i + 1, h);
        }
      }
      HandleUnresolved(ds[1..], h, s);
    }
  }

  lemma FirstIsOne(ds: seq<TagDirective>, i: nat, h: Text, s: Text)
    requires FirstFor(ds, i, h) && h != []
    ensures i < |ds| && TagMeant(ds, TagRef(h, s)) == ds[i].prefix + s
  {
    forall j: nat | FirstFor(ds, j, h)
      ensures j == i
    {
    }
  }

  /** The code resolves a tag to what it stands for, and refuses exactly tags that are not good. */
  lemma TagIsMeant(ds: seq<TagDirective>, t: TagRef)
    ensures ResolveTag(ds, t) == TagMeant(ds, t)
    ensures UndefinedHandle(ds, t) <==> !GoodTag(ds, t)
  {
    hide FirstFor;
    if t.TagRef? && t.handle != [] {
      if exists i: nat :: FirstFor(ds, i, t.handle) {
        var i: nat :| FirstFor(ds, i, t.handle);
        FirstIsOne(ds, i, t.handle, t.suffix);
        HandleResolved(ds, t.handle, t.suffix, i);
      } else {
        HandleUnresolved(ds, t.handle, t.suffix);
      }
    }
  }

  lemma PropsRead(props: Props, p: P, tail: seq<Token>)
    requires p.tokens == PropTokens(props, tail) && tail != []
    requires !tail[0].AnchorToken? && !tail[0].TagToken? && !tail[0].AliasToken?
    ensures p.tokens != [] && !p.Head().AliasToken? && |tail| <= |p.tokens|
    ensures ReadProperties(p) == Properties(props.anchor, props.tag, Past(p, tail))
  {
    if props.anchor == [] && props.tag.NoTag? {
      assert p.tokens == tail;
    } else if props.tag.NoTag? {
      assert p.tokens == [AnchorToken(props.anchor)] + tail;
      SkipTo(p, AnchorToken(props.anchor), tail);
    } else if props.anchor == [] {
      var t := TagToken(props.tag.handle, props.tag.suffix);
      assert p.tokens == [t] + tail;
      SkipTo(p, t, tail);
    } else {
      BothPropsRead(props, p, tail);
    }
  }

  lemma BothPropsRead(props: Props, p: P, tail: seq<Token>)
    requires p.tokens == PropTokens(props, tail) && tail != [] && props.anchor != [] && !props.tag.NoTag?
    ensures p.tokens != [] && !p.Head().AliasToken? && |tail| <= |p.tokens|
    ensures ReadProperties(p) == Properties(props.anchor, props.tag, Past(p, tail))
  {
    var a := AnchorToken(props.anchor);
    var t := TagToken(props.tag.handle, props.tag.suffix);
    var first, second := if props.tagFirst then t else a, if props.tagFirst then a else t;
    assert p.tokens == [first] + ([second] + tail);
    SkipTo(p, first, [second] + tail);
    SkipTo(p.Skip(), second, tail);
  }

  lemma ContentRead(props: Props, p: P, tail: seq<Token>, block: bool, indentless: bool)
    requires p.tokens == PropTokens(props, tail) && tail != []
    requires !tail[0].AnchorToken? && !tail[0].TagToken? && !tail[0].AliasToken?
    requires GoodProps(props, p.tagDirectives)
    ensures |tail| <= |p.tokens|
    ensures ParseNode(p, block, indentless)
         == NodeContent(Past(p, tail), props.anchor, TagMeant(p.tagDirectives, props.tag), block, indentless)
  {
    PropsRead(props, p, tail);
    TagIsMeant(p.tagDirectives, props.tag);
    hide ResolveTag, TagMeant, GoodTag;
  }

  // ---- Nodes ----

  /** The printed node is what comes next, in a place where the grammar has it. */
  ghost predicate Fits(n: Tree, p: P, tail: seq<Token>, block: bool, indentless: bool) {
    && Shaped(n, block, indentless, p.tagDirectives) && Read(n)
    && p.tokens == Print(n, tail) && Follows(tail, indentless)
  }

  ghost function Events(n: Tree, p: P): seq<Event> {
    Flatten(Meaning(n, p.tagDirectives))
  }

  lemma AliasDispatch(name: Text, p: P, tail: seq<Token>, block: bool, indentless: bool)
    requires p.tokens == [AliasToken(name)] + tail && p.states != []
    ensures |tail| <= |p.tokens| && ParseNode(p, block, indentless) == Emit(Alias(name), Done(p, tail))
  {
    SkipTo(p, AliasToken(name), tail);
  }

  lemma ScalarDispatch(props: Props, p: P, k: Token, tail: seq<Token>, block: bool, indentless: bool)
    requires p.tokens == PropTokens(props, [k] + tail) && k.ScalarToken?
    requires GoodProps(props, p.tagDirectives) && p.states != []
    ensures |tail| <= |p.tokens|
    ensures ParseNode(p, block, indentless)
         == Emit(ScalarOf(props.anchor, TagMeant(p.tagDirectives, props.tag), k.value, k.style), Done(p, tail))
  {
    hide ParseNode, TagMeant, PropTokens, GoodTag;
    ContentRead(props, p, [k] + tail, block, indentless);
    SkipTo(Past(p, [k] + tail), k, tail);
  }

  lemma EmptyDispatch(props: Props, p: P, tail: seq<Token>, block: bool, indentless: bool)
    requires p.tokens == PropTokens(props, tail) && Follows(tail, indentless)
    requires GoodProps(props, p.tagDirectives) && p.states != []
    requires props.anchor != [] || TagMeant(p.tagDirectives, props.tag) != []
    ensures |tail| <= |p.tokens|
    ensures var tag := TagMeant(p.tagDirectives, props.tag);
            ParseNode(p, block, indentless) == Emit(Scalar(props.anchor, tag, [], tag == [], false, Plain), Done(p, tail))
  {
    hide ParseNode, TagMeant, PropTokens, GoodTag;
    ContentRead(props, p, tail, block, indentless);
  }

  lemma CollectionDispatch(props: Props, p: P, body: seq<Token>, block: bool, indentless: bool)
    requires p.tokens == PropTokens(props, body) && body != [] && GoodProps(props, p.tagDirectives)
    requires || (block && (body[0].BlockSequenceStartToken? || body[0].BlockMappingStartToken?))
             || (indentless && body[0].BlockEntryToken?)
             || body[0].FlowSequenceStartToken? || body[0].FlowMappingStartToken?
    ensures |body| <= |p.tokens|
    ensures var r := ParseNode(p, block, indentless);
            var q := Past(p, body);
            var ds := p.tagDirectives;
            match body[0]
            case BlockSequenceStartToken => r == Emit(SequenceOf(props, ds, Block), q.To(BlockSequenceFirstEntryState))
            case BlockEntryToken => r == Emit(SequenceOf(props, ds, Block), q.To(IndentlessSequenceEntryState))
            case BlockMappingStartToken => r == Emit(MappingOf(props, ds, Block), q.To(BlockMappingFirstKeyState))
            case FlowSequenceStartToken => r == Emit(SequenceOf(props, ds, Flow), q.To(FlowSequenceFirstEntryState))
            case FlowMappingStartToken => r == Emit(MappingOf(props, ds, Flow), q.To(FlowMappingFirstKeyState))
            case _ => true
  {
    hide ParseNode, TagMeant, PropTokens, GoodTag;
    ContentRead(props, p, body, block, indentless);
  }

  lemma CollectionMeant(n: Tree, ds: seq<TagDirective>)
    ensures n.BlockSequence? || n.IndentlessSequence? ==>
              Flatten(Meaning(n, ds)) == [SequenceOf(n.props, ds, Block)] + (FlattenItems(Meanings(n.items, ds)) + [SequenceEnd])
    ensures n.BlockMapping? ==>
              Flatten(Meaning(n, ds)) == [MappingOf(n.props, ds, Block)] + (FlattenPairs(PairsMeant(n.entries, ds)) + [MappingEnd])
    ensures n.FlowSequence? ==>
              Flatten(Meaning(n, ds)) == [SequenceOf(n.props, ds, Flow)] + (FlattenItems(ItemsMeant(n.entries, ds)) + [SequenceEnd])
    ensures n.FlowMapping? ==>
              Flatten(Meaning(n, ds)) == [MappingOf(n.props, ds, Flow)] + (FlattenPairs(PairsMeant(n.entries, ds)) + [MappingEnd])
  {
    hide FlattenItems, FlattenPairs, Meanings, PairsMeant, ItemsMeant, SequenceOf, MappingOf, Flatten;
    match n
    case BlockSequence(props, items) => SequenceFlattened(SequenceOf(props, ds, Block), Meanings(items, ds));
    case IndentlessSequence(props, items) => SequenceFlattened(SequenceOf(props, ds, Block), Meanings(items, ds));
    case BlockMapping(props, entries) => MappingFlattened(MappingOf(props, ds, Block), PairsMeant(entries, ds));
    case FlowSequence(props, entries, _) => SequenceFlattened(SequenceOf(props, ds, Flow), ItemsMeant(entries, ds));
    case FlowMapping(props, entries, _) => MappingFlattened(MappingOf(props, ds, Flow), PairsMeant(entries, ds));
    case _ =>
  }

  lemma SequenceFlattened(e: Event, items: seq<Node>)
    ensures Flatten(Sequence(e, items)) == [e] + (FlattenItems(items) + [SequenceEnd])
  {
    hide FlattenItems;
  }

  lemma MappingFlattened(e: Event, pairs: seq<Pair>)
    ensures Flatten(Mapping(e, pairs)) == [e] + (FlattenPairs(pairs) + [MappingEnd])
  {
    hide FlattenPairs;
  }

  lemma LeafMeant(n: Tree, ds: seq<TagDirective>)
    ensures n.Omitted? ==> Flatten(Meaning(n, ds)) == [NULL_SCALAR]
    ensures n.AliasTree? ==> Flatten(Meaning(n, ds)) == [Alias(n.name)]
    ensures n.ScalarTree? ==>
              Flatten(Meaning(n, ds)) == [ScalarOf(n.props.anchor, TagMeant(ds, n.props.tag), n.value, n.style)]
    ensures n.EmptyTree? ==>
              var tag := TagMeant(ds, n.props.tag);
              Flatten(Meaning(n, ds)) == [Scalar(n.props.anchor, tag, [], tag == [], false, Plain)]
  {
  }

  lemma DonePast(p: P, body: seq<Token>, tail: seq<Token>)
    requires |tail| <= |body| <= |p.tokens| && p.states != []
    ensures forall s :: Done(Past(p, body).To(s), tail) == Done(p, tail)
    ensures Done(Past(p, body), tail) == Done(p, tail)
  {
  }

  lemma ItemsHead(items: seq<Tree>, tail: seq<Token>)
    requires items != []
    ensures PrintItems(items, tail) != [] && PrintItems(items, tail)[0].BlockEntryToken?
  {
  }

  lemma {:induction false} NodeParsed(n: Tree, p: P, tail: seq<Token>, block: bool, indentless: bool)
    requires Fits(n, p, tail, block, indentless) && !n.Omitted? && p.states != []
    ensures |tail| <= |p.tokens|
    ensures Yields(ParseNode(p, block, indentless), Events(n, p), Done(p, tail))
    decreases n, 2
  {
    hide Yields, Steps, ParseNode, Flatten, Meaning, PropTokens, TagMeant, GoodProps, Done;
    hide PrintItems, PrintEntries, PrintFirst, ShapedItems, ShapedEntries, ReadItems, ReadBlockEntries, ReadSequence, ReadMapping;
    hide FlattenItems, FlattenPairs, Meanings, PairsMeant, ItemsMeant, SequenceOf, MappingOf;
    var ds := p.tagDirectives;
    LeafMeant(n, ds);
    CollectionMeant(n, ds);
    match n
    case AliasTree(name) =>
      AliasDispatch(name, p, tail, block, indentless);
      YieldsOne(Alias(name), Done(p, tail));
    case ScalarTree(props, value, style) =>
      ScalarDispatch(props, p, ScalarToken(value, style), tail, block, indentless);
      YieldsOne(ScalarOf(props.anchor, TagMeant(ds, props.tag), value, style), Done(p, tail));
    case EmptyTree(props) =>
      EmptyDispatch(props, p, tail, block, indentless);
      var tag := TagMeant(ds, props.tag);
      YieldsOne(Scalar(props.anchor, tag, [], tag == [], false, Plain), Done(p, tail));
    case BlockSequence(props, items) =>
      var body := [BlockSequenceStartToken] + PrintItems(items, [BlockEndToken] + tail);
      CollectionDispatch(props, p, body, block, indentless);
      BlockSequenceParsed(items, Past(p, body), tail);
      DonePast(p, body, tail);
      EmitThen(SequenceOf(props, ds, Block), Past(p, body).To(BlockSequenceFirstEntryState),
               FlattenItems(Meanings(items, ds)) + [SequenceEnd], Done(p, tail));
    case IndentlessSequence(props, items) =>
      var body := PrintItems(items, tail);
      ItemsHead(items, tail);
      CollectionDispatch(props, p, body, block, indentless);
      IndentlessParsed(items, Past(p, body).To(IndentlessSequenceEntryState), tail);
      DonePast(p, body, tail);
      EmitThen(SequenceOf(props, ds, Block), Past(p, body).To(IndentlessSequenceEntryState),
               FlattenItems(Meanings(items, ds)) + [SequenceEnd], Done(p, tail));
    case BlockMapping(props, entries) =>
      var body := [BlockMappingStartToken] + PrintEntries(entries, [BlockEndToken] + tail);
      CollectionDispatch(props, p, body, block, indentless);
      BlockMappingParsed(entries, Past(p, body), tail);
      DonePast(p, body, tail);
      EmitThen(MappingOf(props, ds, Block), Past(p, body).To(BlockMappingFirstKeyState),
               FlattenPairs(PairsMeant(entries, ds)) + [MappingEnd], Done(p, tail));
    case FlowSequence(props, entries, trailing) =>
      var body := [FlowSequenceStartToken] + PrintFirst(entries, trailing, [FlowSequenceEndToken] + tail);
      CollectionDispatch(props, p, body, block, indentless);
      FlowSequenceParsed(entries, trailing, Past(p, body), tail);
      DonePast(p, body, tail);
      EmitThen(SequenceOf(props, ds, Flow), Past(p, body).To(FlowSequenceFirstEntryState),
               FlattenItems(ItemsMeant(entries, ds)) + [SequenceEnd], Done(p, tail));
    case FlowMapping(props, entries, trailing) =>
      var body := [FlowMappingStartToken] + PrintFirst(entries, trailing, [FlowMappingEndToken] + tail);
      CollectionDispatch(props, p, body, block, indentless);
      FlowMappingParsed(entries, trailing, Past(p, body), tail);
      DonePast(p, body, tail);
      EmitThen(MappingOf(props, ds, Flow), Past(p, body).To(FlowMappingFirstKeyState),
               FlattenPairs(PairsMeant(entries, ds)) + [MappingEnd], Done(p, tail));
  }

  /** What a production does at a place for a node, after which the state is `t`. */
  function DueResult(n: Tree, p: P, t: ParserState, block: bool, indentless: bool): Result {
    if n.Omitted? then EmptyScalar(p.To(t)) else ParseNode(p.Push(t), block, indentless)
  }

  lemma {:induction false} DueParsed(n: Tree, p: P, tail: seq<Token>, t: ParserState, block: bool, indentless: bool)
    requires Fits(n, p, tail, block, indentless)
    ensures |tail| <= |p.tokens|
    ensures Yields(DueResult(n, p, t, block, indentless), Events(n, p), Past(p, tail).To(t))
    decreases n, 3
  {
    hide Yields;
    hide Steps;
    if n.Omitted? {
      YieldsOne(NULL_SCALAR, Past(p, tail).To(t));
    } else {
      NodeParsed(n, p.Push(t), tail, block, indentless);
      DonePushed(p, t, tail);
    }
  }

  // ---- The state that a production leaves does not matter, for it sets the next one ----

  lemma NodeIgnoresState(p: P, s: ParserState, block: bool, indentless: bool)
    ensures ParseNode(p.To(s), block, indentless) == ParseNode(p, block, indentless)
  {
    hide ResolveTag, NodeContent, ReadProperties;
    PropertiesIgnoreState(p, s);
    match ReadProperties(p) {
      case NoToken =>
      case Properties(anchor, t, q) =>
        ContentIgnoresState(q, anchor, ResolveTag(p.tagDirectives, t), s, block, indentless);
    }
  }

  lemma PropertiesIgnoreState(p: P, s: ParserState)
    ensures var r := ReadProperties(p);
            ReadProperties(p.To(s)) == if r.NoToken? then r else r.(next := r.next.To(s))
    ensures ReadProperties(p).Properties? ==> ReadProperties(p).next.tokens != []
  {
  }

  lemma ContentIgnoresState(p: P, anchor: Text, tag: Text, s: ParserState, block: bool, indentless: bool)
    requires p.tokens != []
    ensures NodeContent(p.To(s), anchor, tag, block, indentless) == NodeContent(p, anchor, tag, block, indentless)
  {
    hide PopState;
    PopIgnoresState(p, s, Scalar(anchor, tag, [], tag == [], false, Plain));
    if p.Head().ScalarToken? {
      var plain := (tag == [] && p.Head().style == Plain) || tag == [0x21];
      PopIgnoresState(p.Skip(), s, Scalar(anchor, tag, p.Head().value, plain, !plain && tag == [], p.Head().style));
    }
  }

  lemma PopIgnoresState(p: P, s: ParserState, e: Event)
    ensures PopState(p.To(s), e) == PopState(p, e)
  {
  }

  lemma ItemsIgnoreState(p: P, s: ParserState)
    ensures FlowMappingItem(p.To(s)) == FlowMappingItem(p)
    ensures FlowSequenceItem(p.To(s)) == FlowSequenceItem(p)
  {
    hide ParseNode;
    if p.tokens != [] {
      NodeIgnoresState(p.Push(FlowMappingEmptyValueState), s, false, false);
      NodeIgnoresState(p.Push(FlowSequenceEntryState), s, false, false);
      NodeIgnoresState(p.Skip().Push(FlowMappingValueState), s, false, false);
    }
  }

  lemma FirstMappingItem(p: P)
    requires |p.tokens| >= 2 && !p.tokens[1].FlowMappingEndToken?
    ensures ParserSpec.Step(p.To(FlowMappingFirstKeyState)) == FlowMappingItem(p.Mark().Skip().To(FlowMappingFirstKeyState))
  {
    hide FlowMappingItem;
  }

  lemma FirstSequenceItem(p: P)
    requires |p.tokens| >= 2 && !p.tokens[1].FlowSequenceEndToken?
    ensures ParserSpec.Step(p.To(FlowSequenceFirstEntryState)) == FlowSequenceItem(p.Mark().Skip().To(FlowSequenceFirstEntryState))
  {
    hide FlowSequenceItem;
  }

  // ---- Block sequences ----

  lemma BlockSequenceParsed(items: seq<Tree>, p: P, tail: seq<Token>)
    requires ShapedItems(items, p.tagDirectives) && ReadItems(items) && p.states != []
    requires p.tokens == [BlockSequenceStartToken] + PrintItems(items, [BlockEndToken] + tail)
    ensures |tail| <= |p.tokens|
    ensures Steps(p.To(BlockSequenceFirstEntryState),
                  FlattenItems(Meanings(items, p.tagDirectives)) + [SequenceEnd], Done(p, tail))
    decreases items, 1
  {
    hide FlattenPair, PairMeant;
    hide FlattenPair, PairMeant;
    hide Print, Shaped, Read, Meaning, Flatten, ParseNode, Steps, Yields, PrintItems, ShapedItems, ReadItems, Meanings, FlattenItems;
    var rest := PrintItems(items, [BlockEndToken] + tail);
    SkipTo(p, BlockSequenceStartToken, rest);
    DoneMarked(p, BlockSequenceStartToken, rest, BlockSequenceEntryState, tail);
    var q := p.Mark().Skip().To(BlockSequenceEntryState);
    ItemsParsed(items, q, tail);
    FirstBlockEntry(p);
    hide ParserSpec.Step;
    SameStep(p.To(BlockSequenceFirstEntryState), q, FlattenItems(Meanings(items, p.tagDirectives)) + [SequenceEnd], Done(p, tail));
  }

  /** A first entry is parsed as a later one after the start token. */
  lemma FirstBlockEntry(p: P)
    requires p.tokens != []
    ensures ParserSpec.Step(p.To(BlockSequenceFirstEntryState)) == ParserSpec.Step(p.Mark().Skip().To(BlockSequenceEntryState))
    ensures ParserSpec.Step(p.To(BlockMappingFirstKeyState)) == ParserSpec.Step(p.Mark().Skip().To(BlockMappingKeyState))
  {
    FirstSequenceEntry(p);
    FirstMappingKey(p);
    BlockEntryDispatch(p.To(BlockSequenceFirstEntryState));
    BlockEntryDispatch(p.To(BlockMappingFirstKeyState));
    BlockEntryDispatch(p.Mark().Skip().To(BlockSequenceEntryState));
    BlockEntryDispatch(p.Mark().Skip().To(BlockMappingKeyState));
    hide ParserSpec.Step, ParseBlockSequenceEntry, ParseBlockMappingKey;
  }

  lemma BlockEntryDispatch(p: P)
    ensures p.state == BlockSequenceFirstEntryState ==> ParserSpec.Step(p) == ParseBlockSequenceEntry(p, true)
    ensures p.state == BlockSequenceEntryState ==> ParserSpec.Step(p) == ParseBlockSequenceEntry(p, false)
    ensures p.state == BlockMappingFirstKeyState ==> ParserSpec.Step(p) == ParseBlockMappingKey(p, true)
    ensures p.state == BlockMappingKeyState ==> ParserSpec.Step(p) == ParseBlockMappingKey(p, false)
  {
    hide ParseBlockSequenceEntry, ParseBlockMappingKey;
  }

  lemma FirstSequenceEntry(p: P)
    requires p.tokens != []
    ensures ParseBlockSequenceEntry(p.To(BlockSequenceFirstEntryState), true)
         == ParseBlockSequenceEntry(p.Mark().Skip().To(BlockSequenceEntryState), false)
  {
    hide ParseNode;
    var q := p.Mark().Skip();
    if q.tokens != [] {
      NodeIgnoresState(q.Skip().To(BlockSequenceEntryState).Push(BlockSequenceEntryState), BlockSequenceFirstEntryState, true, false);
    }
  }

  lemma FirstMappingKey(p: P)
    requires p.tokens != []
    ensures ParseBlockMappingKey(p.To(BlockMappingFirstKeyState), true)
         == ParseBlockMappingKey(p.Mark().Skip().To(BlockMappingKeyState), false)
  {
    hide ParseNode;
    var q := p.Mark().Skip();
    if q.tokens != [] {
      NodeIgnoresState(q.Skip().To(BlockMappingKeyState).Push(BlockMappingValueState), BlockMappingFirstKeyState, true, true);
    }
  }

  lemma SameStep(p: P, q: P, es: seq<Event>, r: P)
    requires Steps(q, es, r) && es != [] && p.state != EndState && q.state != EndState
    requires p.state != FlowSequenceEntryMappingKeyState && ParserSpec.Step(p) == ParserSpec.Step(q)
    ensures Steps(p, es, r)
  {
    hide ParserSpec.Step;
  }

  lemma SequenceStops(p: P, tail: seq<Token>)
    requires p.tokens == [BlockEndToken] + tail && p.state == BlockSequenceEntryState && p.states != [] && p.marks != []
    ensures ParserSpec.Step(p) == Emit(SequenceEnd, DoneBoth(p, tail))
  {
    SkipTo(p, BlockEndToken, tail);
  }

  lemma IndentlessStops(p: P)
    requires p.tokens != [] && !p.Head().BlockEntryToken? && p.state == IndentlessSequenceEntryState && p.states != []
    ensures ParserSpec.Step(p) == Emit(SequenceEnd, Done(p, p.tokens))
  {
  }

  /** Going on from `rest` to `tail`. */
  lemma DonePastRest(p: P, rest: seq<Token>, tail: seq<Token>)
    requires |tail| <= |rest| <= |p.tokens|
    ensures var q := Past(p, rest);
            && q.tokens == rest && q.state == p.state && q.states == p.states && q.marks == p.marks
            && q.tagDirectives == p.tagDirectives
            && (p.states != [] ==> Done(q, tail) == Done(p, tail))
            && (p.states != [] && p.marks != [] ==> DoneBoth(q, tail) == DoneBoth(p, tail))
  {
  }

  lemma {:induction false} ItemsParsed(items: seq<Tree>, p: P, tail: seq<Token>)
    requires ShapedItems(items, p.tagDirectives) && ReadItems(items) && p.states != [] && p.marks != []
    requires p.tokens == PrintItems(items, [BlockEndToken] + tail) && p.state == BlockSequenceEntryState
    ensures |tail| <= |p.tokens|
    ensures Steps(p, FlattenItems(Meanings(items, p.tagDirectives)) + [SequenceEnd], DoneBoth(p, tail))
    decreases items, 0
  {
    hide Print, Shaped, Read, Meaning, Flatten, ParserSpec.Step, Steps, Yields, FlattenItems;
    var ds := p.tagDirectives;
    if items == [] {
      NothingMeant(ds);
      SequenceStops(p, tail);
      YieldsOne(SequenceEnd, DoneBoth(p, tail));
      StepYields(p, [SequenceEnd], DoneBoth(p, tail));
    } else {
      var rest := PrintItems(items[1..], [BlockEndToken] + tail);
      ItemStep(items[0], p, rest);
      DonePastRest(p, rest, tail);
      hide Past, Done, DoneBoth;
      ItemsParsed(items[1..], Past(p, rest), tail);
      StepsThen(p, Events(items[0], p), Past(p, rest), FlattenItems(Meanings(items[1..], ds)) + [SequenceEnd], DoneBoth(p, tail));
      ItemsFlattened(items, ds, [SequenceEnd]);
    }
  }

  lemma NothingMeant(ds: seq<TagDirective>)
    ensures FlattenItems(Meanings([], ds)) + [SequenceEnd] == [SequenceEnd]
    ensures FlattenItems(ItemsMeant([], ds)) + [SequenceEnd] == [SequenceEnd]
    ensures FlattenPairs(PairsMeant([], ds)) + [MappingEnd] == [MappingEnd]
  {
  }

  lemma ItemsFlattened(items: seq<Tree>, ds: seq<TagDirective>, es: seq<Event>)
    requires items != []
    ensures FlattenItems(Meanings(items, ds)) + es
         == Flatten(Meaning(items[0], ds)) + (FlattenItems(Meanings(items[1..], ds)) + es)
  {
    assert Meanings(items, ds)[1..] == Meanings(items[1..], ds);
  }

  lemma ItemDispatch(n: Tree, p: P)
    requires p.state == BlockSequenceEntryState || p.state == IndentlessSequenceEntryState
    requires |p.tokens| >= 2 && p.tokens[0].BlockEntryToken?
    requires if n.Omitted? then StopsItem(p.state, p.tokens[1]) else Starts(p.tokens[1], false)
    ensures ParserSpec.Step(p) == DueResult(n, p.Skip(), p.state, true, false)
  {
    hide ParseNode;
  }

  predicate StopsItem(s: ParserState, k: Token) {
    k.BlockEntryToken? || if s == BlockSequenceEntryState then k.BlockEndToken? else EndsBlockNode(k)
  }

  /** BLOCK-ENTRY block_node?, in either kind of block sequence. */
  lemma {:induction false} ItemStep(n: Tree, p: P, rest: seq<Token>)
    requires p.state == BlockSequenceEntryState || p.state == IndentlessSequenceEntryState
    requires Shaped(n, true, false, p.tagDirectives) && Read(n)
    requires p.tokens == [BlockEntryToken] + Print(n, rest) && rest != [] && StopsItem(p.state, rest[0])
    ensures |rest| <= |p.tokens| && Steps(p, Events(n, p), Past(p, rest))
    decreases n, 4
  {
    hide Print, Shaped, Read, Meaning, Flatten, Steps, Yields, ParserSpec.Step, DueResult;
    SkipTo(p, BlockEntryToken, Print(n, rest));
    NodeHead(n, rest, true, false, p.tagDirectives);
    DueParsed(n, p.Skip(), rest, p.state, true, false);
    ItemDispatch(n, p);
    StepYields(p, Events(n, p), Past(p, rest));
  }

  lemma {:induction false} IndentlessParsed(items: seq<Tree>, p: P, tail: seq<Token>)
    requires ShapedItems(items, p.tagDirectives) && ReadItems(items) && p.states != []
    requires p.tokens == PrintItems(items, tail) && p.state == IndentlessSequenceEntryState
    requires tail != [] && EndsBlockNode(tail[0])
    ensures |tail| <= |p.tokens|
    ensures Steps(p, FlattenItems(Meanings(items, p.tagDirectives)) + [SequenceEnd], Done(p, tail))
    decreases items, 0
  {
    hide Print, Shaped, Read, Meaning, Flatten, ParserSpec.Step, Steps, Yields, FlattenItems;
    var ds := p.tagDirectives;
    if items == [] {
      NothingMeant(ds);
      IndentlessStops(p);
      YieldsOne(SequenceEnd, Done(p, tail));
      StepYields(p, [SequenceEnd], Done(p, tail));
    } else {
      var rest := PrintItems(items[1..], tail);
      ItemStep(items[0], p, rest);
      DonePastRest(p, rest, tail);
      hide Past, Done, EndsBlockNode;
      IndentlessParsed(items[1..], Past(p, rest), tail);
      StepsThen(p, Events(items[0], p), Past(p, rest), FlattenItems(Meanings(items[1..], ds)) + [SequenceEnd], Done(p, tail));
      ItemsFlattened(items, ds, [SequenceEnd]);
    }
  }

  // ---- Pairs ----

  datatype Kind = BlockPair | FlowPair | SinglePair

  function ValueState(kind: Kind): ParserState {
    match kind
    case BlockPair => BlockMappingValueState
    case FlowPair => FlowMappingValueState
    case SinglePair => FlowSequenceEntryMappingValueState
  }

  function NextState(kind: Kind): ParserState {
    match kind
    case BlockPair => BlockMappingKeyState
    case FlowPair => FlowMappingKeyState
    case SinglePair => FlowSequenceEntryMappingEndState
  }

  /** The tokens after a pair. */
  predicate ClosesPair(kind: Kind, k: Token) {
    match kind
    case BlockPair => EndsBlockNode(k)
    case FlowPair => k.FlowEntryToken? || k.FlowMappingEndToken?
    case SinglePair => k.FlowEntryToken? || k.FlowSequenceEndToken?
  }

  ghost predicate PairFits(e: Entry, p: P, tail: seq<Token>, kind: Kind) {
    && ShapedEntry(e, kind.BlockPair?, p.tagDirectives) && ReadEntry(e)
    && tail != [] && ClosesPair(kind, tail[0]) && (!e.valued ==> !tail[0].ValueToken?)
  }

  lemma ValueDispatch(e: Entry, p: P, kind: Kind)
    requires p.state == ValueState(kind) && p.tokens != [] && (!e.valued ==> e.value.Omitted?)
    requires if e.valued then
               && |p.tokens| >= 2 && p.tokens[0].ValueToken?
               && (if e.value.Omitted? then ClosesPair(kind, p.tokens[1]) else Starts(p.tokens[1], kind.BlockPair?))
             else ClosesPair(kind, p.tokens[0]) && !p.tokens[0].ValueToken?
    ensures ParserSpec.Step(p) == DueResult(e.value, if e.valued then p.Skip() else p, NextState(kind), kind.BlockPair?, kind.BlockPair?)
  {
    hide ParseNode;
  }

  lemma ClosedPairFollows(kind: Kind, tail: seq<Token>)
    requires tail != [] && ClosesPair(kind, tail[0])
    ensures Follows(tail, kind.BlockPair?)
  {
  }

  lemma {:induction false} ValueParsed(e: Entry, p: P, tail: seq<Token>, kind: Kind)
    requires PairFits(e, p, tail, kind)
    requires p.tokens == PrintValue(e, tail) && p.state == ValueState(kind)
    ensures |tail| <= |p.tokens| && Steps(p, Events(e.value, p), Past(p, tail).To(NextState(kind)))
    decreases e, 0
  {
    hide Print, Shaped, Read, Meaning, Flatten, Steps, Yields, ParserSpec.Step, DueResult, ClosesPair, Follows, NextState, ValueState;
    var block := kind.BlockPair?;
    var q := if e.valued then p.Skip() else p;
    if e.valued {
      SkipTo(p, ValueToken, Print(e.value, tail));
      NodeHead(e.value, tail, block, block, p.tagDirectives);
    } else {
      OmittedPrint(tail);
    }
    ClosedPairFollows(kind, tail);
    DueParsed(e.value, q, tail, NextState(kind), block, block);
    ValueDispatch(e, p, kind);
    NotEnd(kind);
    StepYields(p, Events(e.value, p), Past(p, tail).To(NextState(kind)));
  }

  lemma OmittedPrint(tail: seq<Token>)
    ensures Print(Omitted, tail) == tail && Read(Omitted)
  {
  }

  lemma NotEnd(kind: Kind)
    ensures ValueState(kind) != EndState && NextState(kind) != EndState
    ensures ValueState(kind) != FlowSequenceEntryMappingKeyState
  {
  }

  /** After KEY. */
  lemma {:induction false} PairParsed(e: Entry, p: P, tail: seq<Token>, kind: Kind)
    requires PairFits(e, p, tail, kind) && p.tokens == Print(e.key, PrintValue(e, tail))
    ensures |tail| <= |p.tokens|
    ensures Yields(DueResult(e.key, p, ValueState(kind), kind.BlockPair?, kind.BlockPair?),
                   FlattenPair(PairMeant(e, p.tagDirectives)), Past(p, tail).To(NextState(kind)))
    decreases e, 1
  {
    hide Print, Shaped, Read, Meaning, Flatten, Steps, Yields, DueResult, ClosesPair, Follows, NextState, ValueState, PrintValue;
    hide FlattenPair, PairMeant;
    KeyFollows(e, tail, kind);
    PairFlattened(e, p.tagDirectives);
    var rest := PrintValue(e, tail);
    var q := Past(p, rest).To(ValueState(kind));
    DueParsed(e.key, p, rest, ValueState(kind), kind.BlockPair?, kind.BlockPair?);
    ValueParsed(e, q, tail, kind);
    YieldsThen(DueResult(e.key, p, ValueState(kind), kind.BlockPair?, kind.BlockPair?),
               Events(e.key, p), q, Events(e.value, p), Past(p, tail).To(NextState(kind)));
  }

  lemma PairFlattened(e: Entry, ds: seq<TagDirective>)
    ensures FlattenPair(PairMeant(e, ds)) == Flatten(Meaning(e.key, ds)) + Flatten(Meaning(e.value, ds))
  {
    hide Flatten, Meaning;
  }

  lemma KeyFollows(e: Entry, tail: seq<Token>, kind: Kind)
    requires tail != [] && ClosesPair(kind, tail[0])
    ensures Follows(PrintValue(e, tail), kind.BlockPair?)
    ensures var k := PrintValue(e, tail)[0]; k.ValueToken? || ClosesPair(kind, k)
  {
  }

  lemma PairsFlattened(es: seq<Entry>, ds: seq<TagDirective>, fs: seq<Event>)
    requires es != []
    ensures FlattenPairs(PairsMeant(es, ds)) + fs
         == FlattenPair(PairMeant(es[0], ds)) + (FlattenPairs(PairsMeant(es[1..], ds)) + fs)
  {
    assert PairsMeant(es, ds)[1..] == PairsMeant(es[1..], ds);
  }

  // ---- Block mappings ----

  lemma BlockMappingParsed(es: seq<Entry>, p: P, tail: seq<Token>)
    requires ShapedEntries(es, true, p.tagDirectives) && ReadBlockEntries(es) && p.states != []
    requires p.tokens == [BlockMappingStartToken] + PrintEntries(es, [BlockEndToken] + tail)
    ensures |tail| <= |p.tokens|
    ensures Steps(p.To(BlockMappingFirstKeyState),
                  FlattenPairs(PairsMeant(es, p.tagDirectives)) + [MappingEnd], Done(p, tail))
    decreases es, 1
  {
    hide Print, Shaped, Read, Meaning, Flatten, ParseNode, Steps, Yields, PrintEntries, ShapedEntries, ReadBlockEntries, PairsMeant, FlattenPairs;
    var rest := PrintEntries(es, [BlockEndToken] + tail);
    SkipTo(p, BlockMappingStartToken, rest);
    DoneMarked(p, BlockMappingStartToken, rest, BlockMappingKeyState, tail);
    var q := p.Mark().Skip().To(BlockMappingKeyState);
    EntriesParsed(es, q, tail);
    FirstBlockEntry(p);
    hide ParserSpec.Step;
    SameStep(p.To(BlockMappingFirstKeyState), q, FlattenPairs(PairsMeant(es, p.tagDirectives)) + [MappingEnd], Done(p, tail));
  }

  lemma {:induction false} EntriesParsed(es: seq<Entry>, p: P, tail: seq<Token>)
    requires ShapedEntries(es, true, p.tagDirectives) && ReadBlockEntries(es) && p.states != [] && p.marks != []
    requires p.tokens == PrintEntries(es, [BlockEndToken] + tail) && p.state == BlockMappingKeyState
    ensures |tail| <= |p.tokens|
    ensures Steps(p, FlattenPairs(PairsMeant(es, p.tagDirectives)) + [MappingEnd], DoneBoth(p, tail))
    decreases es, 0
  {
    hide FlattenPair, PairMeant;
    hide Print, Shaped, Read, Meaning, Flatten, ParseNode, Steps, Yields, FlattenPairs, PrintEntry, PrintValue, ShapedEntry, ReadEntry, PairsMeant;
    var ds := p.tagDirectives;
    if es == [] {
      NothingMeant(ds);
      SkipTo(p, BlockEndToken, tail);
      YieldsOne(MappingEnd, DoneBoth(p, tail));
      StepYields(p, [MappingEnd], DoneBoth(p, tail));
    } else {
      var rest := PrintEntries(es[1..], [BlockEndToken] + tail);
      EntriesHead(es[1..], true, p.tagDirectives, [BlockEndToken] + tail);
      EntryStep(es[0], p, rest);
      EntriesParsed(es[1..], Past(p, rest), tail);
      StepsThen(p, FlattenPair(PairMeant(es[0], ds)), Past(p, rest),
                FlattenPairs(PairsMeant(es[1..], ds)) + [MappingEnd], DoneBoth(p, tail));
      PairsFlattened(es, ds, [MappingEnd]);
    }
  }

  lemma EntriesHead(es: seq<Entry>, keyed: bool, ds: seq<TagDirective>, tail: seq<Token>)
    requires ShapedEntries(es, true, ds) && tail != [] && tail[0].BlockEndToken?
    requires keyed && es != [] ==> es[0].keyed
    ensures var r := PrintEntries(es, tail); r != [] && EndsBlockNode(r[0]) && (keyed ==> !r[0].ValueToken?)
  {
    hide Shaped;
    if es != [] && !es[0].keyed {
      OmittedPrint(PrintValue(es[0], PrintEntries(es[1..], tail)));
    }
  }

  lemma EntryDispatch(e: Entry, p: P)
    requires p.state == BlockMappingKeyState && |p.tokens| >= 2 && p.tokens[0].KeyToken?
    requires if e.key.Omitted? then EndsBlockNode(p.tokens[1]) else Starts(p.tokens[1], true)
    ensures ParserSpec.Step(p) == DueResult(e.key, p.Skip(), BlockMappingValueState, true, true)
  {
    hide ParseNode;
  }

  lemma {:induction false} EntryStep(e: Entry, p: P, rest: seq<Token>)
    requires PairFits(e, p, rest, BlockPair) && e.keyed
    requires p.tokens == PrintEntry(e, rest) && p.state == BlockMappingKeyState
    ensures |rest| <= |p.tokens|
    ensures Steps(p, FlattenPair(PairMeant(e, p.tagDirectives)), Past(p, rest))
    decreases e, 2
  {
    hide FlattenPair, PairMeant, Print, Shaped, Read, Meaning, Flatten, Steps, Yields, ParserSpec.Step, DueResult, PrintValue;
    KeyFollows(e, rest, BlockPair);
    var tail := PrintValue(e, rest);
    SkipTo(p, KeyToken, Print(e.key, tail));
    NodeHead(e.key, tail, true, true, p.tagDirectives);
    PairParsed(e, p.Skip(), rest, BlockPair);
    EntryDispatch(e, p);
    StepYields(p, FlattenPair(PairMeant(e, p.tagDirectives)), Past(p, rest));
  }

  // ---- Flow mappings ----

  lemma {:induction false} FlowMappingParsed(es: seq<Entry>, trailing: bool, p: P, tail: seq<Token>)
    requires ShapedEntries(es, false, p.tagDirectives) && ReadMapping(es) && p.states != []
    requires p.tokens == [FlowMappingStartToken] + PrintFirst(es, trailing, [FlowMappingEndToken] + tail)
    ensures |tail| <= |p.tokens|
    ensures Steps(p.To(FlowMappingFirstKeyState),
                  FlattenPairs(PairsMeant(es, p.tagDirectives)) + [MappingEnd], Done(p, tail))
    decreases es, 1
  {
    hide FlattenPair, PairMeant, Print, Shaped, Read, Meaning, Flatten, ParseNode, Steps, Yields, ParserSpec.Step;
    hide FlattenPairs, PrintEntry, PrintValue, PrintMore, ShapedEntry, ReadEntry, PairsMeant, FlowMappingItem;
    var ds := p.tagDirectives;
    var first := p.To(FlowMappingFirstKeyState);
    var close := [FlowMappingEndToken] + tail;
    var q := p.Mark().Skip();
    SkipTo(p, FlowMappingStartToken, PrintFirst(es, trailing, close));
    DoneMarked(p, FlowMappingStartToken, PrintFirst(es, trailing, close), FlowMappingKeyState, tail);
    if es == [] {
      NothingMeant(ds);
      FirstMappingEnd(p, tail);
      YieldsOne(MappingEnd, Done(p, tail));
      StepYields(first, [MappingEnd], Done(p, tail));
    } else {
      var rest := PrintMore(es[1..], trailing, close);
      MoreHead(es[1..], trailing, close);
      MappingItem(es[0], q, rest);
      FirstMappingItem(p);
      ItemsIgnoreState(q, FlowMappingFirstKeyState);
      var r := Past(q, rest).To(FlowMappingKeyState);
      StepYields(first, FlattenPair(PairMeant(es[0], ds)), r);
      MappingMore(es[1..], trailing, r, tail);
      DoneBothPast(q, rest, FlowMappingKeyState, tail);
      StepsThen(first, FlattenPair(PairMeant(es[0], ds)), r,
                FlattenPairs(PairsMeant(es[1..], ds)) + [MappingEnd], Done(p, tail));
      PairsFlattened(es, ds, [MappingEnd]);
    }
  }

  lemma DoneBothPast(p: P, rest: seq<Token>, s: ParserState, tail: seq<Token>)
    requires |tail| <= |rest| <= |p.tokens| && p.states != [] && p.marks != []
    ensures DoneBoth(Past(p, rest).To(s), tail) == DoneBoth(p.To(s), tail)
  {
  }

  lemma FirstMappingEnd(p: P, tail: seq<Token>)
    requires p.tokens == [FlowMappingStartToken] + ([FlowMappingEndToken] + tail) && p.states != []
    ensures ParserSpec.Step(p.To(FlowMappingFirstKeyState)) == Emit(MappingEnd, Done(p, tail))
  {
    SkipTo(p, FlowMappingStartToken, [FlowMappingEndToken] + tail);
    SkipTo(p.Mark().Skip(), FlowMappingEndToken, tail);
    assert (p.marks + [p.parsed])[..|p.marks|] == p.marks;
  }

  lemma FirstSequenceEnd(p: P, tail: seq<Token>)
    requires p.tokens == [FlowSequenceStartToken] + ([FlowSequenceEndToken] + tail) && p.states != []
    ensures ParserSpec.Step(p.To(FlowSequenceFirstEntryState)) == Emit(SequenceEnd, Done(p, tail))
  {
    SkipTo(p, FlowSequenceStartToken, [FlowSequenceEndToken] + tail);
    SkipTo(p.Mark().Skip(), FlowSequenceEndToken, tail);
    assert (p.marks + [p.parsed])[..|p.marks|] == p.marks;
  }

  lemma MoreHead(es: seq<Entry>, trailing: bool, tail: seq<Token>)
    requires tail != []
    ensures var r := PrintMore(es, trailing, tail); r != [] && (r[0].FlowEntryToken? || r[0] == tail[0])
  {
  }

  /** The closing bracket, maybe after a comma. */
  lemma MappingCloses(p: P, trailing: bool, tail: seq<Token>)
    requires p.state == FlowMappingKeyState && p.states != [] && p.marks != []
    requires p.tokens == PrintMore([], trailing, [FlowMappingEndToken] + tail)
    ensures |tail| <= |p.tokens| && ParserSpec.Step(p) == Emit(MappingEnd, DoneBoth(p, tail))
  {
    if trailing {
      SkipTo(p, FlowEntryToken, [FlowMappingEndToken] + tail);
      SkipTo(p.Skip(), FlowMappingEndToken, tail);
    } else {
      SkipTo(p, FlowMappingEndToken, tail);
    }
  }

  lemma SequenceCloses(p: P, trailing: bool, tail: seq<Token>)
    requires p.state == FlowSequenceEntryState && p.states != [] && p.marks != []
    requires p.tokens == PrintMore([], trailing, [FlowSequenceEndToken] + tail)
    ensures |tail| <= |p.tokens| && ParserSpec.Step(p) == Emit(SequenceEnd, DoneBoth(p, tail))
  {
    if trailing {
      SkipTo(p, FlowEntryToken, [FlowSequenceEndToken] + tail);
      SkipTo(p.Skip(), FlowSequenceEndToken, tail);
    } else {
      SkipTo(p, FlowSequenceEndToken, tail);
    }
  }

  lemma AfterComma(p: P)
    requires p.tokens != [] && p.Head().FlowEntryToken?
    ensures p.state == FlowMappingKeyState ==> ParserSpec.Step(p) == FlowMappingItem(p.Skip())
    ensures p.state == FlowSequenceEntryState ==> ParserSpec.Step(p) == FlowSequenceItem(p.Skip())
  {
    hide FlowMappingItem, FlowSequenceItem;
  }

  lemma {:induction false} MappingMore(es: seq<Entry>, trailing: bool, p: P, tail: seq<Token>)
    requires ShapedEntries(es, false, p.tagDirectives) && ReadMapping(es) && p.states != [] && p.marks != []
    requires p.tokens == PrintMore(es, trailing, [FlowMappingEndToken] + tail) && p.state == FlowMappingKeyState
    ensures |tail| <= |p.tokens|
    ensures Steps(p, FlattenPairs(PairsMeant(es, p.tagDirectives)) + [MappingEnd], DoneBoth(p, tail))
    decreases es, 0
  {
    hide FlattenPair, PairMeant, Print, Shaped, Read, Meaning, Flatten, ParseNode, Steps, Yields, ParserSpec.Step;
    hide FlattenPairs, PrintEntry, PrintValue, ShapedEntry, ReadEntry, PairsMeant, FlowMappingItem;
    var ds := p.tagDirectives;
    var close := [FlowMappingEndToken] + tail;
    if es == [] {
      NothingMeant(ds);
      MappingCloses(p, trailing, tail);
      YieldsOne(MappingEnd, DoneBoth(p, tail));
      StepYields(p, [MappingEnd], DoneBoth(p, tail));
    } else {
      var rest := PrintMore(es[1..], trailing, close);
      MoreHead(es[1..], trailing, close);
      MappingStep(es[0], p, rest);
      var r := Past(p, rest);
      DonePastRest(p, rest, tail);
      hide Past, Done, DoneBoth;
      MappingMore(es[1..], trailing, r, tail);
      StepsThen(p, FlattenPair(PairMeant(es[0], ds)), r,
                FlattenPairs(PairsMeant(es[1..], ds)) + [MappingEnd], DoneBoth(p, tail));
      PairsFlattened(es, ds, [MappingEnd]);
    }
  }

  lemma {:induction false} MappingStep(e: Entry, p: P, rest: seq<Token>)
    requires PairFits(e, p, rest, FlowPair) && p.tokens == [FlowEntryToken] + PrintEntry(e, rest)
    requires p.state == FlowMappingKeyState
    ensures |rest| <= |p.tokens| && Steps(p, FlattenPair(PairMeant(e, p.tagDirectives)), Past(p, rest))
    decreases e, 3
  {
    hide FlattenPair, PairMeant, Steps, Yields, ParserSpec.Step, PrintEntry, FlowMappingItem, ShapedEntry, ReadEntry;
    SkipTo(p, FlowEntryToken, PrintEntry(e, rest));
    AfterComma(p);
    MappingItem(e, p.Skip(), rest);
    StepYields(p, FlattenPair(PairMeant(e, p.tagDirectives)), Past(p, rest));
  }

  lemma MappingItemDispatch(e: Entry, p: P)
    requires p.tokens != []
    requires if !e.keyed then !e.key.Omitted? && Starts(p.tokens[0], false)
             else
               && |p.tokens| >= 2 && p.tokens[0].KeyToken?
               && if e.key.Omitted? then EndsFlowPair(p.tokens[1]) else Starts(p.tokens[1], false)
    ensures FlowMappingItem(p) == if e.keyed then DueResult(e.key, p.Skip(), FlowMappingValueState, false, false)
                                  else DueResult(e.key, p, FlowMappingEmptyValueState, false, false)
  {
    hide ParseNode;
  }

  lemma {:induction false} MappingItem(e: Entry, p: P, rest: seq<Token>)
    requires PairFits(e, p, rest, FlowPair) && p.tokens == PrintEntry(e, rest)
    ensures |rest| <= |p.tokens| && p.tokens != [] && !p.Head().FlowMappingEndToken?
    ensures Yields(FlowMappingItem(p), FlattenPair(PairMeant(e, p.tagDirectives)), Past(p, rest).To(FlowMappingKeyState))
    decreases e, 2
  {
    hide FlattenPair, PairMeant, Print, Shaped, Read, Meaning, Flatten, ParseNode, Steps, Yields, ParserSpec.Step, PrintValue;
    hide DueResult, FlowMappingItem;
    var tail := PrintValue(e, rest);
    KeyFollows(e, rest, FlowPair);
    NodeHead(e.key, tail, false, false, p.tagDirectives);
    if e.keyed {
      SkipTo(p, KeyToken, Print(e.key, tail));
      MappingItemDispatch(e, p);
      PairParsed(e, p.Skip(), rest, FlowPair);
    } else {
      var q := Past(p, rest).To(FlowMappingEmptyValueState);
      var r := Past(p, rest).To(FlowMappingKeyState);
      NoValue(e, rest);
      MappingItemDispatch(e, p);
      DueParsed(e.key, p, rest, FlowMappingEmptyValueState, false, false);
      EmptyValue(q);
      YieldsOne(NULL_SCALAR, r);
      StepYields(q, [NULL_SCALAR], r);
      YieldsThen(FlowMappingItem(p), Events(e.key, p), q, [NULL_SCALAR], r);
      PairFlattened(e, p.tagDirectives);
      LeafMeant(e.value, p.tagDirectives);
    }
  }

  lemma NoValue(e: Entry, tail: seq<Token>)
    requires !e.valued
    ensures PrintValue(e, tail) == tail
  {
  }

  lemma EmptyValue(q: P)
    requires q.state == FlowMappingEmptyValueState && q.tokens != []
    ensures ParserSpec.Step(q) == Emit(NULL_SCALAR, q.To(FlowMappingKeyState))
  {
  }

  // ---- Flow sequences ----

  lemma {:induction false} FlowSequenceParsed(es: seq<Entry>, trailing: bool, p: P, tail: seq<Token>)
    requires ShapedEntries(es, false, p.tagDirectives) && ReadSequence(es, trailing) && p.states != []
    requires p.tokens == [FlowSequenceStartToken] + PrintFirst(es, trailing, [FlowSequenceEndToken] + tail)
    ensures |tail| <= |p.tokens|
    ensures Steps(p.To(FlowSequenceFirstEntryState),
                  FlattenItems(ItemsMeant(es, p.tagDirectives)) + [SequenceEnd], Done(p, tail))
    decreases es, 1
  {
    hide Print, Shaped, Read, Meaning, Flatten, ParseNode, Steps, Yields, ParserSpec.Step;
    hide FlattenItems, PrintEntry, PrintValue, PrintMore, ShapedEntry, ReadEntry, ItemsMeant, ItemMeant, FlowSequenceItem, BadPair;
    var ds := p.tagDirectives;
    var first := p.To(FlowSequenceFirstEntryState);
    var close := [FlowSequenceEndToken] + tail;
    var q := p.Mark().Skip();
    SkipTo(p, FlowSequenceStartToken, PrintFirst(es, trailing, close));
    DoneMarked(p, FlowSequenceStartToken, PrintFirst(es, trailing, close), FlowSequenceEntryState, tail);
    if es == [] {
      NothingMeant(ds);
      FirstSequenceEnd(p, tail);
      YieldsOne(SequenceEnd, Done(p, tail));
      StepYields(first, [SequenceEnd], Done(p, tail));
    } else {
      var comma := SequenceItem(es[0], es[1..], trailing, q, tail);
      var rest := PrintMore(es[1..], comma, close);
      FirstSequenceItem(p);
      ItemsIgnoreState(q, FlowSequenceFirstEntryState);
      var r := Past(q, rest).To(FlowSequenceEntryState);
      StepYields(first, Flatten(ItemMeant(es[0], ds)), r);
      ReadRest(es[1..], trailing, comma);
      SequenceMore(es[1..], comma, r, tail);
      DoneBothPast(q, rest, FlowSequenceEntryState, tail);
      StepsThen(first, Flatten(ItemMeant(es[0], ds)), r,
                FlattenItems(ItemsMeant(es[1..], ds)) + [SequenceEnd], Done(p, tail));
      EntriesFlattened(es, ds, [SequenceEnd]);
    }
  }

  lemma ReadRest(es: seq<Entry>, trailing: bool, comma: bool)
    requires ReadSequence(es, trailing) && (comma == trailing || es == [])
    ensures ReadSequence(es, comma)
  {
  }

  lemma EntriesFlattened(es: seq<Entry>, ds: seq<TagDirective>, fs: seq<Event>)
    requires es != []
    ensures FlattenItems(ItemsMeant(es, ds)) + fs
         == Flatten(ItemMeant(es[0], ds)) + (FlattenItems(ItemsMeant(es[1..], ds)) + fs)
  {
    assert ItemsMeant(es, ds)[1..] == ItemsMeant(es[1..], ds);
  }

  lemma {:induction false} SequenceMore(es: seq<Entry>, trailing: bool, p: P, tail: seq<Token>)
    requires ShapedEntries(es, false, p.tagDirectives) && ReadSequence(es, trailing) && p.states != [] && p.marks != []
    requires p.tokens == PrintMore(es, trailing, [FlowSequenceEndToken] + tail) && p.state == FlowSequenceEntryState
    ensures |tail| <= |p.tokens|
    ensures Steps(p, FlattenItems(ItemsMeant(es, p.tagDirectives)) + [SequenceEnd], DoneBoth(p, tail))
    decreases es, 0
  {
    hide Print, Shaped, Read, Meaning, Flatten, ParseNode, Steps, Yields, ParserSpec.Step;
    hide FlattenItems, PrintEntry, PrintValue, ShapedEntry, ReadEntry, ItemsMeant, ItemMeant, FlowSequenceItem, BadPair;
    var ds := p.tagDirectives;
    var close := [FlowSequenceEndToken] + tail;
    if es == [] {
      NothingMeant(ds);
      SequenceCloses(p, trailing, tail);
      YieldsOne(SequenceEnd, DoneBoth(p, tail));
      StepYields(p, [SequenceEnd], DoneBoth(p, tail));
    } else {
      var comma := SequenceStep(es[0], es[1..], trailing, p, tail);
      var r := Past(p, PrintMore(es[1..], comma, close));
      ReadRest(es[1..], trailing, comma);
      SequenceMore(es[1..], comma, r, tail);
      StepsThen(p, Flatten(ItemMeant(es[0], ds)), r,
                FlattenItems(ItemsMeant(es[1..], ds)) + [SequenceEnd], DoneBoth(p, tail));
      EntriesFlattened(es, ds, [SequenceEnd]);
    }
  }

  lemma {:induction false} SequenceStep(e: Entry, es: seq<Entry>, trailing: bool, p: P, tail: seq<Token>) returns (comma: bool)
    requires ShapedEntry(e, false, p.tagDirectives) && ReadEntry(e) && !BadPair(e, es == [], trailing)
    requires p.tokens == [FlowEntryToken] + PrintEntry(e, PrintMore(es, trailing, [FlowSequenceEndToken] + tail))
    requires p.state == FlowSequenceEntryState
    ensures comma == trailing || es == []
    ensures var rest := PrintMore(es, comma, [FlowSequenceEndToken] + tail);
            |rest| <= |p.tokens| && Steps(p, Flatten(ItemMeant(e, p.tagDirectives)), Past(p, rest))
    decreases e, 5
  {
    hide Flatten, ItemMeant, Steps, Yields, ParserSpec.Step, PrintEntry, PrintMore, FlowSequenceItem, ShapedEntry, ReadEntry;
    SkipTo(p, FlowEntryToken, PrintEntry(e, PrintMore(es, trailing, [FlowSequenceEndToken] + tail)));
    AfterComma(p);
    comma := SequenceItem(e, es, trailing, p.Skip(), tail);
    StepYields(p, Flatten(ItemMeant(e, p.tagDirectives)), Past(p, PrintMore(es, comma, [FlowSequenceEndToken] + tail)));
  }

  lemma SequenceItemDispatch(e: Entry, p: P)
    requires p.tokens != []
    requires if e.keyed then p.Head().KeyToken? else !e.key.Omitted? && Starts(p.Head(), false)
    ensures FlowSequenceItem(p)
         == if e.keyed then Emit(MappingStart([], [], true, Flow), p.Skip().To(FlowSequenceEntryMappingKeyState))
            else DueResult(e.key, p, FlowSequenceEntryState, false, false)
  {
    hide ParseNode;
  }

  /** One entry. The parser is then before the rest of the sequence, from which a comma that
      ended a single pair without a key is already gone. */
  lemma {:induction false} SequenceItem(e: Entry, es: seq<Entry>, trailing: bool, p: P, tail: seq<Token>) returns (comma: bool)
    requires ShapedEntry(e, false, p.tagDirectives) && ReadEntry(e) && !BadPair(e, es == [], trailing)
    requires p.tokens == PrintEntry(e, PrintMore(es, trailing, [FlowSequenceEndToken] + tail))
    ensures p.tokens != [] && !p.Head().FlowSequenceEndToken? && (comma == trailing || es == [])
    ensures var rest := PrintMore(es, comma, [FlowSequenceEndToken] + tail);
            && |rest| <= |p.tokens|
            && Yields(FlowSequenceItem(p), Flatten(ItemMeant(e, p.tagDirectives)), Past(p, rest).To(FlowSequenceEntryState))
    decreases e, 4
  {
    hide FlattenPair, PairMeant, Print, Shaped, Read, Meaning, Flatten, ParseNode, Steps, Yields, ParserSpec.Step, PrintValue, PrintMore;
    hide DueResult, FlowSequenceItem;
    var ds := p.tagDirectives;
    var close := [FlowSequenceEndToken] + tail;
    var rest := PrintMore(es, trailing, close);
    MoreHead(es, trailing, close);
    KeyFollows(e, rest, SinglePair);
    NodeHead(e.key, PrintValue(e, rest), false, false, ds);
    comma := trailing;
    if !e.keyed {
      NoValue(e, rest);
      SequenceItemDispatch(e, p);
      DueParsed(e.key, p, rest, FlowSequenceEntryState, false, false);
    } else {
      SkipTo(p, KeyToken, Print(e.key, PrintValue(e, rest)));
      SequenceItemDispatch(e, p);
      var q := p.Skip().To(FlowSequenceEntryMappingKeyState);
      if e.key.Omitted? {
        comma := SkippedKey(e, q, es, trailing, tail);
      } else {
        PresentKey(e, q, rest);
      }
      SinglePairEnds(e, q, PrintMore(es, comma, close));
    }
  }

  lemma SinglePairEnds(e: Entry, q: P, rest: seq<Token>)
    requires e.keyed && rest != [] && |rest| <= |q.tokens|
    requires Steps(q, FlattenPair(PairMeant(e, q.tagDirectives)), Past(q, rest).To(FlowSequenceEntryMappingEndState))
    ensures Yields(Emit(MappingStart([], [], true, Flow), q), Flatten(ItemMeant(e, q.tagDirectives)),
                   Past(q, rest).To(FlowSequenceEntryState))
  {
    hide FlattenPair, PairMeant, ItemMeant, Flatten, Steps, Yields;
    var ds := q.tagDirectives;
    var m := Past(q, rest).To(FlowSequenceEntryMappingEndState);
    var r := Past(q, rest).To(FlowSequenceEntryState);
    YieldsOne(MappingEnd, r);
    StepYields(m, [MappingEnd], r);
    StepsThen(q, FlattenPair(PairMeant(e, ds)), m, [MappingEnd], r);
    EmitThen(MappingStart([], [], true, Flow), q, FlattenPair(PairMeant(e, ds)) + [MappingEnd], r);
    SinglePairFlattened(e, ds);
  }

  lemma SinglePairFlattened(e: Entry, ds: seq<TagDirective>)
    requires e.keyed
    ensures Flatten(ItemMeant(e, ds)) == [MappingStart([], [], true, Flow)] + (FlattenPair(PairMeant(e, ds)) + [MappingEnd])
  {
    hide FlattenPair, PairMeant, Flatten;
    var pair := PairMeant(e, ds);
    MappingFlattened(MappingStart([], [], true, Flow), [pair]);
    assert [pair][1..] == [];
    assert FlattenPairs([pair]) == FlattenPair(pair) + [];
  }

  lemma KeyDispatch(e: Entry, q: P)
    requires q.state == FlowSequenceEntryMappingKeyState && q.tokens != []
    requires !e.key.Omitted? && Starts(q.Head(), false)
    ensures ParserSpec.Step(q) == DueResult(e.key, q, FlowSequenceEntryMappingValueState, false, false)
  {
    hide ParseNode;
  }

  lemma {:induction false} PresentKey(e: Entry, q: P, rest: seq<Token>)
    requires PairFits(e, q, rest, SinglePair) && !e.key.Omitted?
    requires q.tokens == Print(e.key, PrintValue(e, rest)) && q.state == FlowSequenceEntryMappingKeyState
    ensures |rest| <= |q.tokens|
    ensures Steps(q, FlattenPair(PairMeant(e, q.tagDirectives)), Past(q, rest).To(FlowSequenceEntryMappingEndState))
    decreases e, 2
  {
    hide FlattenPair, PairMeant, Print, Shaped, Read, Meaning, Flatten, ParseNode, Steps, Yields, ParserSpec.Step, PrintValue;
    hide DueResult;
    KeyFollows(e, rest, SinglePair);
    NodeHead(e.key, PrintValue(e, rest), false, false, q.tagDirectives);
    PairParsed(e, q, rest, SinglePair);
    KeyDispatch(e, q);
    StepYields(q, FlattenPair(PairMeant(e, q.tagDirectives)), Past(q, rest).To(FlowSequenceEntryMappingEndState));
  }

  /** The two cases in which the skipped token does no harm. */
  lemma SkippedKey(e: Entry, q: P, es: seq<Entry>, trailing: bool, tail: seq<Token>) returns (comma: bool)
    requires e.keyed && e.key.Omitted? && (!e.valued ==> e.value.Omitted?) && !BadPair(e, es == [], trailing)
    requires q.state == FlowSequenceEntryMappingKeyState
    requires q.tokens == Print(e.key, PrintValue(e, PrintMore(es, trailing, [FlowSequenceEndToken] + tail)))
    ensures comma == trailing || es == []
    ensures var rest := PrintMore(es, comma, [FlowSequenceEndToken] + tail);
            && |rest| <= |q.tokens|
            && Steps(q, FlattenPair(PairMeant(e, q.tagDirectives)), Past(q, rest).To(FlowSequenceEntryMappingEndState))
  {
    hide FlattenPair, PairMeant, Read, Meaning, Flatten, Steps, Yields;
    var close := [FlowSequenceEndToken] + tail;
    comma := e.valued && trailing;
    var rest := PrintMore(es, comma, close);
    MoreHead(es, comma, close);
    SkipTo(q, if e.valued then ValueToken else FlowEntryToken, rest);
    SkipsToken(q);
    PairFlattened(e, q.tagDirectives);
    LeafMeant(e.key, q.tagDirectives);
    LeafMeant(e.value, q.tagDirectives);
  }

  /** With an empty key, the next token is skipped. */
  lemma SkipsToken(q: P)
    requires q.state == FlowSequenceEntryMappingKeyState && |q.tokens| >= 2 && !q.tokens[1].ValueToken?
    requires (q.tokens[0].ValueToken? || q.tokens[0].FlowEntryToken?) && !LosesToken(q)
    ensures Steps(q, [NULL_SCALAR] + [NULL_SCALAR], q.Skip().To(FlowSequenceEntryMappingEndState))
  {
    hide Steps, Yields;
    var v := q.Skip().To(FlowSequenceEntryMappingValueState);
    var m := v.To(FlowSequenceEntryMappingEndState);
    YieldsOne(NULL_SCALAR, v);
    StepYields(q, [NULL_SCALAR], v);
    YieldsOne(NULL_SCALAR, m);
    StepYields(v, [NULL_SCALAR], m);
    StepsThen(q, [NULL_SCALAR], v, [NULL_SCALAR], m);
  }
}
