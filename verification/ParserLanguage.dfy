/** The language of the parser: whatever it parses to the end is the printing of a stream of the grammar,
    unless it has skipped a token behind an empty key. */
module ParserLanguage {
  import opened Utf8
  import opened EventGrammar
  import opened ParserSpec
  import opened ParserSoundness
  import opened ParserRuns
  import opened TokenPrinter
  import opened ParserInverse
  import opened StreamInverse
  import L = ParserLimits

  /** The run from here comes to the end of the stream without such a step. */
  ghost predicate Regular(p: P)
    requires Inv(p)
    decreases Potential(p)
  {
    p.state == EndState
    || (StepSound(p);
        StepDecreases(p);
        !LosesToken(p) && ParserSpec.Step(p).Emit? && Regular(ParserSpec.Step(p).next))
  }

  /** The run from `p` is regular, and shorter than one from `bound`. */
  ghost predicate Goes(p: P, bound: int) {
    Inv(p) && Regular(p) && Potential(p) <= bound
  }

  /** A result from which the run goes on. */
  ghost predicate GoesOn(r: Result, bound: int) {
    r.Emit? && Goes(r.next, bound)
  }

  lemma RegularStep(p: P, bound: int)
    requires Goes(p, bound) && p.state != EndState
    ensures GoesOn(ParserSpec.Step(p), bound - 1) && !LosesToken(p)
  {
    StepSound(p);
    StepDecreases(p);
    hide Inv, ParserSpec.Step, Abs;
  }

  /** The scanner gives no anchor without a name. */
  ghost predicate NamedAnchors(ts: seq<Token>) {
    forall i | 0 <= i < |ts| && ts[i].AnchorToken? :: ts[i].value != []
  }

  lemma NamedAfter(p: P)
    requires NamedAnchors(p.tokens) && p.tokens != []
    ensures NamedAnchors(p.Skip().tokens) && (p.Head().AnchorToken? ==> p.Head().value != [])
    ensures p.Skip() == Past(p, p.tokens[1..]) && p.tokens == [p.Head()] + p.tokens[1..]
  {
  }

  // ---- Nodes ----

  /** A node has been found: its tokens come before `tail`. */
  ghost predicate IsNode(p: P, n: Tree, tail: seq<Token>, block: bool, indentless: bool) {
    && p.tokens == Print(n, tail) && |tail| <= |p.tokens| && !n.Omitted?
    && Shaped(n, block, indentless, p.tagDirectives) && Read(n) && NamedAnchors(tail)
  }

  /** An anchor, then perhaps a tag. */
  lemma AnchorFound(p: P) returns (props: Props, body: seq<Token>)
    requires NamedAnchors(p.tokens) && ReadProperties(p).Properties? && p.tokens != [] && p.Head().AnchorToken?
    ensures var r := ReadProperties(p);
            && p.tokens == PropTokens(props, body) && |body| <= |p.tokens| && body != [] && NamedAnchors(body)
            && r == Properties(props.anchor, props.tag, Past(p, body))
  {
    NamedAfter(p);
    var q := p.Skip();
    NamedAfter(q);
    if q.Head().TagToken? {
      props, body := Props(p.Head().value, TagRef(q.Head().handle, q.Head().suffix), false), q.tokens[1..];
      assert p.tokens == [p.Head()] + [q.Head()] + body;
    } else {
      props, body := Props(p.Head().value, NoTag, false), q.tokens;
      assert p.tokens == [p.Head()] + [] + body;
    }
  }

  /** A tag, then perhaps an anchor. */
  lemma TagFound(p: P) returns (props: Props, body: seq<Token>)
    requires NamedAnchors(p.tokens) && ReadProperties(p).Properties? && p.tokens != [] && p.Head().TagToken?
    ensures var r := ReadProperties(p);
            && p.tokens == PropTokens(props, body) && |body| <= |p.tokens| && body != [] && NamedAnchors(body)
            && r == Properties(props.anchor, props.tag, Past(p, body))
  {
    NamedAfter(p);
    var q := p.Skip();
    NamedAfter(q);
    if q.Head().AnchorToken? {
      props, body := Props(q.Head().value, TagRef(p.Head().handle, p.Head().suffix), true), q.tokens[1..];
      assert p.tokens == [p.Head()] + [q.Head()] + body;
    } else {
      props, body := Props([], TagRef(p.Head().handle, p.Head().suffix), false), q.tokens;
      assert p.tokens == [] + [p.Head()] + body;
    }
  }

  /** The properties that the parser has read, and what is left. */
  lemma PropsFound(p: P) returns (props: Props, body: seq<Token>)
    requires NamedAnchors(p.tokens) && ReadProperties(p).Properties?
    ensures var r := ReadProperties(p);
            && p.tokens == PropTokens(props, body) && |body| <= |p.tokens| && body != [] && NamedAnchors(body)
            && r == Properties(props.anchor, props.tag, Past(p, body))
            && (!p.Head().AnchorToken? && !p.Head().TagToken? ==> props.anchor == [] && props.tag == NoTag)
  {
    if p.Head().AnchorToken? {
      hide PropTokens, NamedAnchors, ReadProperties;
      props, body := AnchorFound(p);
    } else if p.Head().TagToken? {
      hide PropTokens, NamedAnchors, ReadProperties;
      props, body := TagFound(p);
    } else {
      props, body := Props([], NoTag, false), p.tokens;
      assert p.tokens == [] + [] + body;
    }
  }

  /** The node after its properties. */
  lemma ContentFound(props: Props, p: P, body: seq<Token>, block: bool, indentless: bool)
    requires p.tokens != [] && !p.Head().AliasToken? && |body| <= |p.tokens| && body != []
    requires ReadProperties(p) == Properties(props.anchor, props.tag, Past(p, body))
    ensures ParseNode(p, block, indentless)
         == if GoodTag(p.tagDirectives, props.tag) then
              NodeContent(Past(p, body), props.anchor, TagMeant(p.tagDirectives, props.tag), block, indentless)
            else Error
  {
    TagIsMeant(p.tagDirectives, props.tag);
    hide ResolveTag, TagMeant, GoodTag, ReadProperties, NodeContent;
  }

  /** What NodeContent does where no collection starts. */
  lemma LeafContent(p: P, anchor: Text, tag: Text, block: bool, indentless: bool)
    requires p.tokens != [] && p.states != [] && NamedAnchors(p.tokens)
    requires NodeContent(p, anchor, tag, block, indentless).Emit?
    ensures var r := NodeContent(p, anchor, tag, block, indentless);
            match p.Head()
            case ScalarToken(_, _) => r.next == Done(p, p.tokens[1..]) && NamedAnchors(p.tokens[1..])
            case FlowSequenceStartToken => r.next == p.To(FlowSequenceFirstEntryState)
            case FlowMappingStartToken => r.next == p.To(FlowMappingFirstKeyState)
            case BlockEntryToken =>
              if indentless then r.next == p.To(IndentlessSequenceEntryState)
              else r.next == Done(p, p.tokens) && (anchor != [] || tag != [])
            case BlockSequenceStartToken =>
              if block then r.next == p.To(BlockSequenceFirstEntryState)
              else r.next == Done(p, p.tokens) && (anchor != [] || tag != [])
            case BlockMappingStartToken =>
              if block then r.next == p.To(BlockMappingFirstKeyState)
              else r.next == Done(p, p.tokens) && (anchor != [] || tag != [])
            case _ => r.next == Done(p, p.tokens) && (anchor != [] || tag != [])
  {
    NamedAfter(p);
  }

  lemma PastNothing(p: P)
    ensures Past(p, p.tokens) == p
  {
  }

  lemma {:induction false} NodeFound(p: P, block: bool, indentless: bool, bound: nat) returns (n: Tree, tail: seq<Token>)
    requires NamedAnchors(p.tokens) && p.states != [] && GoesOn(ParseNode(p, block, indentless), bound)
    ensures IsNode(p, n, tail, block, indentless) && Goes(Done(p, tail), bound)
    decreases bound, 2
  {
    hide Goes, ParseNode, NodeContent, ReadProperties, PropTokens, TagMeant, GoodTag, NamedAnchors, IsNode, Done;
    NodeRead(p, block, indentless);
    if p.Head().AliasToken? {
      n, tail := AliasTree(p.Head().value), p.tokens[1..];
      AliasFound(p, block, indentless);
    } else {
      var props, body := PropsFound(p);
      ContentFound(props, p, body, block, indentless);
      var q := Past(p, body);
      var tag := TagMeant(p.tagDirectives, props.tag);
      LeafContent(q, props.anchor, tag, block, indentless);
      if body[0].ScalarToken? {
        n, tail := ScalarTree(props, body[0].value, body[0].style), body[1..];
        DonePast(p, body, tail);
        ScalarFound(props, p, body, block, indentless);
      } else if body[0].BlockSequenceStartToken? && block {
        n, tail := BlockSequenceFound(props, p, body, indentless, bound);
      } else if body[0].BlockMappingStartToken? && block {
        n, tail := BlockMappingFound(props, p, body, indentless, bound);
      } else if body[0].BlockEntryToken? && indentless {
        n, tail := IndentlessFound(props, p, body, block, bound);
      } else if body[0].FlowSequenceStartToken? {
        n, tail := FlowSequenceFound(props, p, body, block, indentless, bound);
      } else if body[0].FlowMappingStartToken? {
        n, tail := FlowMappingFound(props, p, body, block, indentless, bound);
      } else {
        n, tail := EmptyTree(props), body;
        DonePast(p, body, body);
        EmptyFound(props, p, body, block, indentless);
      }
    }
  }

  lemma NodeRead(p: P, block: bool, indentless: bool)
    requires ParseNode(p, block, indentless).Emit?
    ensures p.tokens != [] && (!p.Head().AliasToken? ==> ReadProperties(p).Properties?)
  {
    hide NodeContent;
  }

  lemma AliasFound(p: P, block: bool, indentless: bool)
    requires NamedAnchors(p.tokens) && p.tokens != [] && p.states != [] && p.Head().AliasToken?
    ensures IsNode(p, AliasTree(p.Head().value), p.tokens[1..], block, indentless)
    ensures ParseNode(p, block, indentless) == Emit(Alias(p.Head().value), Done(p, p.tokens[1..]))
  {
    NamedAfter(p);
    AliasDispatch(p.Head().value, p, p.tokens[1..], block, indentless);
  }

  lemma ScalarFound(props: Props, p: P, body: seq<Token>, block: bool, indentless: bool)
    requires p.tokens == PropTokens(props, body) && |body| <= |p.tokens| && body != [] && body[0].ScalarToken? && NamedAnchors(body)
    requires GoodTag(p.tagDirectives, props.tag)
    ensures IsNode(p, ScalarTree(props, body[0].value, body[0].style), body[1..], block, indentless)
  {
    assert body == [body[0]] + body[1..];
    NamedAfter(Past(p, body));
    hide PropTokens, GoodTag, NamedAnchors;
  }

  lemma EmptyFound(props: Props, p: P, body: seq<Token>, block: bool, indentless: bool)
    requires p.tokens == PropTokens(props, body) && |body| <= |p.tokens| && NamedAnchors(body) && GoodTag(p.tagDirectives, props.tag)
    requires props.anchor != [] || TagMeant(p.tagDirectives, props.tag) != []
    ensures IsNode(p, EmptyTree(props), body, block, indentless)
  {
    hide PropTokens, GoodTag, NamedAnchors;
  }

  // ---- Places for nodes ----

  /** What comes at a place for a node, which may be omitted. */
  ghost predicate IsDue(p: P, n: Tree, tail: seq<Token>, block: bool, indentless: bool) {
    && p.tokens == Print(n, tail) && |tail| <= |p.tokens|
    && Shaped(n, block, indentless, p.tagDirectives) && Read(n) && NamedAnchors(tail)
  }

  /** The production emits an empty scalar if the next token stops it, and parses a node otherwise. */
  function PlaceResult(p: P, t: ParserState, stop: bool, block: bool, indentless: bool): Result {
    if stop then EmptyScalar(p.To(t)) else ParseNode(p.Push(t), block, indentless)
  }

  lemma {:induction false} PlaceFound(p: P, t: ParserState, stop: bool, block: bool, indentless: bool, bound: nat)
    returns (n: Tree, tail: seq<Token>)
    requires NamedAnchors(p.tokens) && GoesOn(PlaceResult(p, t, stop, block, indentless), bound)
    ensures IsDue(p, n, tail, block, indentless) && (n.Omitted? <==> stop) && Goes(Past(p, tail).To(t), bound)
    decreases bound, 3
  {
    hide Goes, ParseNode, NamedAnchors, Print, Shaped, Read, Done;
    if stop {
      n, tail := Omitted, p.tokens;
      OmittedFits(p, block, indentless);
    } else {
      n, tail := NodeFound(p.Push(t), block, indentless, bound);
      DonePushed(p, t, tail);
    }
  }

  lemma OmittedFits(p: P, block: bool, indentless: bool)
    ensures Print(Omitted, p.tokens) == p.tokens && Shaped(Omitted, block, indentless, p.tagDirectives) && Read(Omitted)
    ensures Past(p, p.tokens) == p
  {
  }

  // ---- Block sequences ----

  lemma {:induction false} BlockSequenceFound(props: Props, p: P, body: seq<Token>, indentless: bool, bound: nat)
    returns (n: Tree, tail: seq<Token>)
    requires p.tokens == PropTokens(props, body) && |body| <= |p.tokens| && p.states != [] && NamedAnchors(body)
    requires GoodTag(p.tagDirectives, props.tag) && body != [] && body[0].BlockSequenceStartToken?
    requires Goes(Past(p, body).To(BlockSequenceFirstEntryState), bound)
    ensures IsNode(p, n, tail, true, indentless) && Goes(Done(p, tail), bound)
    decreases bound, 0
  {
    hide Goes, PropTokens, GoodTag, NamedAnchors, PrintItems, ShapedItems, ReadItems, ParserSpec.Step, Done;
    var q := Past(p, body);
    NamedAfter(q);
    RegularStep(q.To(BlockSequenceFirstEntryState), bound);
    FirstBlockEntry(q);
    var m := q.Mark().Skip().To(BlockSequenceEntryState);
    StepIsShorter(q.To(BlockSequenceFirstEntryState), bound);
    var items;
    items, tail := BlockItemsFound(m, bound - 1);
    n := BlockSequence(props, items);
    DoneMarked(q, body[0], body[1..], BlockSequenceEntryState, tail);
    DonePast(p, body, tail);
    GoesLonger(Done(p, tail), bound - 1, bound);
    PrintShrinks(body[0], PrintItems(items, [BlockEndToken] + tail), tail);
  }

  lemma GoesLonger(p: P, a: int, b: int)
    requires Goes(p, a) && a <= b
    ensures Goes(p, b)
  {
    hide Regular, Inv;
  }

  lemma StepIsShorter(p: P, bound: nat)
    requires Goes(p, bound) && p.state != EndState && GoesOn(ParserSpec.Step(p), bound - 1)
    ensures bound > 0
  {
    hide Regular, Inv, ParserSpec.Step;
  }

  lemma PrintShrinks(k: Token, r: seq<Token>, tail: seq<Token>)
    requires |r| >= |tail|
    ensures |[k] + r| >= |tail|
  {
  }

  lemma ItemResult(m: P)
    requires m.state == BlockSequenceEntryState || m.state == IndentlessSequenceEntryState
    requires ParserSpec.Step(m).Emit?
    ensures m.tokens != []
    ensures m.tokens[0].BlockEntryToken? ==>
              |m.tokens| >= 2 && ParserSpec.Step(m) == PlaceResult(m.Skip(), m.state, StopsItem(m.state, m.tokens[1]), true, false)
    ensures m.state == BlockSequenceEntryState && !m.tokens[0].BlockEntryToken? ==> m.tokens[0].BlockEndToken? && m.marks != []
  {
    hide ParseNode;
  }

  lemma {:induction false} BlockItemsFound(m: P, bound: nat) returns (items: seq<Tree>, tail: seq<Token>)
    requires m.state == BlockSequenceEntryState && m.states != [] && NamedAnchors(m.tokens) && GoesOn(ParserSpec.Step(m), bound)
    ensures m.tokens == PrintItems(items, [BlockEndToken] + tail) && |tail| <= |m.tokens| && NamedAnchors(tail)
    ensures ShapedItems(items, m.tagDirectives) && ReadItems(items) && m.marks != [] && Goes(DoneBoth(m, tail), bound)
    decreases bound, 4
  {
    hide Goes, NamedAnchors, ParserSpec.Step, Print, Shaped, Read, Done, DoneBoth, PlaceResult, StopsItem;
    ItemResult(m);
    NamedAfter(m);
    if m.Head().BlockEntryToken? {
      var q := m.Skip();
      var n, rest := PlaceFound(q, m.state, StopsItem(m.state, m.tokens[1]), true, false, bound);
      var m2 := Past(m, rest);
      assert Past(q, rest).To(m.state) == m2;
      RegularStep(m2, bound);
      StepIsShorter(m2, bound);
      var more;
      more, tail := BlockItemsFound(m2, bound - 1);
      items := [n] + more;
      assert items[1..] == more;
      DonePastRest(m, rest, tail);
      GoesLonger(DoneBoth(m, tail), bound - 1, bound);
    } else {
      items, tail := [], m.tokens[1..];
      SequenceStops(m, tail);
    }
  }

  // ---- Indentless sequences ----

  lemma {:induction false} IndentlessFound(props: Props, p: P, body: seq<Token>, block: bool, bound: nat)
    returns (n: Tree, tail: seq<Token>)
    requires p.tokens == PropTokens(props, body) && |body| <= |p.tokens| && p.states != [] && NamedAnchors(body)
    requires GoodTag(p.tagDirectives, props.tag) && body != [] && body[0].BlockEntryToken?
    requires Goes(Past(p, body).To(IndentlessSequenceEntryState), bound)
    ensures IsNode(p, n, tail, block, true) && Goes(Done(p, tail), bound)
    decreases bound, 0
  {
    hide Goes, PropTokens, GoodTag, NamedAnchors, PrintItems, ShapedItems, ReadItems, ParserSpec.Step, Done;
    var m := Past(p, body).To(IndentlessSequenceEntryState);
    RegularStep(m, bound);
    StepIsShorter(m, bound);
    var items;
    items, tail := IndentlessItemsFound(m, bound - 1);
    n := IndentlessSequence(props, items);
    DonePast(p, body, tail);
    GoesLonger(Done(p, tail), bound - 1, bound);
  }

  lemma {:induction false} IndentlessItemsFound(m: P, bound: nat) returns (items: seq<Tree>, tail: seq<Token>)
    requires m.state == IndentlessSequenceEntryState && m.states != [] && NamedAnchors(m.tokens) && GoesOn(ParserSpec.Step(m), bound)
    ensures m.tokens == PrintItems(items, tail) && |tail| <= |m.tokens| && NamedAnchors(tail)
    ensures ShapedItems(items, m.tagDirectives) && ReadItems(items) && Goes(Done(m, tail), bound)
    ensures m.tokens != [] && (m.tokens[0].BlockEntryToken? ==> items != [])
    decreases bound, 4
  {
    hide Goes, NamedAnchors, ParserSpec.Step, Print, Shaped, Read, Done, PlaceResult, StopsItem;
    ItemResult(m);
    NamedAfter(m);
    if m.Head().BlockEntryToken? {
      var q := m.Skip();
      var n, rest := PlaceFound(q, m.state, StopsItem(m.state, m.tokens[1]), true, false, bound);
      var m2 := Past(m, rest);
      assert Past(q, rest).To(m.state) == m2;
      RegularStep(m2, bound);
      StepIsShorter(m2, bound);
      var more;
      more, tail := IndentlessItemsFound(m2, bound - 1);
      items := [n] + more;
      assert items[1..] == more;
      DonePastRest(m, rest, tail);
      GoesLonger(Done(m, tail), bound - 1, bound);
    } else {
      items, tail := [], m.tokens;
      IndentlessStops(m);
    }
  }

  // ---- Values ----

  lemma ValueResult(m: P, kind: Kind)
    requires m.state == ValueState(kind) && ParserSpec.Step(m).Emit?
    ensures m.tokens != []
    ensures m.tokens[0].ValueToken? ==>
              |m.tokens| >= 2
              && ParserSpec.Step(m) == PlaceResult(m.Skip(), NextState(kind), ClosesPair(kind, m.tokens[1]), kind.BlockPair?, kind.BlockPair?)
    ensures !m.tokens[0].ValueToken? ==> ParserSpec.Step(m) == Emit(NULL_SCALAR, m.To(NextState(kind)))
  {
    hide ParseNode;
  }

  /** The value of a pair, with or without VALUE. */
  lemma {:induction false} ValueFound(m: P, kind: Kind, bound: nat) returns (valued: bool, value: Tree, tail: seq<Token>)
    requires m.state == ValueState(kind) && NamedAnchors(m.tokens) && GoesOn(ParserSpec.Step(m), bound)
    ensures m.tokens == (if valued then [ValueToken] + Print(value, tail) else tail) && |tail| <= |m.tokens| && NamedAnchors(tail)
    ensures Shaped(value, kind.BlockPair?, kind.BlockPair?, m.tagDirectives) && Read(value) && (!valued ==> value.Omitted?)
    ensures Goes(Past(m, tail).To(NextState(kind)), bound)
    ensures m.tokens != [] && (valued <==> m.tokens[0].ValueToken?)
    decreases bound, 4
  {
    hide Goes, NamedAnchors, ParserSpec.Step, Print, Shaped, Read, PlaceResult, ClosesPair;
    ValueResult(m, kind);
    NamedAfter(m);
    if m.Head().ValueToken? {
      valued := true;
      var q := m.Skip();
      value, tail := PlaceFound(q, NextState(kind), ClosesPair(kind, m.tokens[1]), kind.BlockPair?, kind.BlockPair?, bound);
      assert Past(q, tail).To(NextState(kind)) == Past(m, tail).To(NextState(kind));
    } else {
      valued, value, tail := false, Omitted, m.tokens;
      OmittedFits(m, kind.BlockPair?, kind.BlockPair?);
    }
  }

  // ---- Pairs with a key ----

  /** A pair has been found, from its KEY on or from its node on. */
  ghost predicate IsEntry(p: P, e: Entry, tail: seq<Token>, block: bool) {
    && p.tokens == PrintEntry(e, tail) && |tail| <= |p.tokens| && NamedAnchors(tail)
    && ShapedEntry(e, block, p.tagDirectives) && ReadEntry(e)
  }

  /** The key after KEY, and the value. */
  lemma {:induction false} PairFound(p: P, stop: bool, kind: Kind, bound: nat) returns (e: Entry, tail: seq<Token>)
    requires p.tokens != [] && p.tokens[0].KeyToken? && NamedAnchors(p.tokens)
    requires GoesOn(PlaceResult(p.Skip(), ValueState(kind), stop, kind.BlockPair?, kind.BlockPair?), bound)
    ensures IsEntry(p, e, tail, kind.BlockPair?) && e.keyed && (e.key.Omitted? <==> stop)
    ensures Goes(Past(p, tail).To(NextState(kind)), bound)
    decreases bound, 5
  {
    hide *;
    NamedAfter(p);
    var q := p.Skip();
    var k, rest := PlaceFound(q, ValueState(kind), stop, kind.BlockPair?, kind.BlockPair?, bound);
    ValuePlace(p, k, rest, kind, bound);
    var m := Past(q, rest).To(ValueState(kind));
    var valued, v;
    valued, v, tail := ValueFound(m, kind, bound - 1);
    e := Entry(true, k, valued, v);
    PairIsEntry(p, e, rest, tail, kind, bound);
  }

  lemma ValuePlace(p: P, k: Tree, rest: seq<Token>, kind: Kind, bound: nat)
    requires p.tokens != [] && IsDue(p.Skip(), k, rest, kind.BlockPair?, kind.BlockPair?)
    requires Goes(Past(p.Skip(), rest).To(ValueState(kind)), bound)
    ensures |rest| <= |p.Skip().tokens|
    ensures var m := Past(p.Skip(), rest).To(ValueState(kind));
            && m.state == ValueState(kind) && m.tokens == rest && NamedAnchors(m.tokens) && m.tagDirectives == p.tagDirectives
            && GoesOn(ParserSpec.Step(m), bound - 1) && bound > 0
  {
    hide Goes, NamedAnchors, ParserSpec.Step, Print, Shaped, Read;
    var m := Past(p.Skip(), rest).To(ValueState(kind));
    NotEnd(kind);
    RegularStep(m, bound);
    StepIsShorter(m, bound);
  }

  lemma PairIsEntry(p: P, e: Entry, rest: seq<Token>, tail: seq<Token>, kind: Kind, bound: nat)
    requires p.tokens != [] && p.tokens[0].KeyToken? && e.keyed && (!e.valued ==> e.value.Omitted?)
    requires IsDue(p.Skip(), e.key, rest, kind.BlockPair?, kind.BlockPair?)
    requires rest == (if e.valued then [ValueToken] + Print(e.value, tail) else tail) && |tail| <= |rest| && NamedAnchors(tail)
    requires Shaped(e.value, kind.BlockPair?, kind.BlockPair?, p.tagDirectives) && Read(e.value) && bound > 0
    requires Goes(Past(Past(p.Skip(), rest).To(ValueState(kind)), tail).To(NextState(kind)), bound - 1)
    ensures IsEntry(p, e, tail, kind.BlockPair?) && Goes(Past(p, tail).To(NextState(kind)), bound)
  {
    hide Goes, NamedAnchors, Print, Shaped, Read, PrintEntry;
    PairPrinted(p, e, rest, tail);
    GoesLonger(Past(p, tail).To(NextState(kind)), bound - 1, bound);
  }

  lemma PairPrinted(p: P, e: Entry, rest: seq<Token>, tail: seq<Token>)
    requires p.tokens != [] && p.tokens[0].KeyToken? && e.keyed && p.Skip().tokens == Print(e.key, rest)
    requires rest == if e.valued then [ValueToken] + Print(e.value, tail) else tail
    ensures p.tokens == PrintEntry(e, tail)
  {
    assert PrintValue(e, tail) == rest;
    assert PrintEntry(e, tail) == [KeyToken] + Print(e.key, rest);
    hide PrintEntry, PrintValue, Print;
    assert p.tokens == [KeyToken] + p.Skip().tokens;
  }

  // ---- Block mappings ----

  lemma {:induction false} BlockMappingFound(props: Props, p: P, body: seq<Token>, indentless: bool, bound: nat)
    returns (n: Tree, tail: seq<Token>)
    requires p.tokens == PropTokens(props, body) && |body| <= |p.tokens| && p.states != [] && NamedAnchors(body)
    requires GoodTag(p.tagDirectives, props.tag) && body != [] && body[0].BlockMappingStartToken?
    requires Goes(Past(p, body).To(BlockMappingFirstKeyState), bound)
    ensures IsNode(p, n, tail, true, indentless) && Goes(Done(p, tail), bound)
    decreases bound, 0
  {
    hide Goes, PropTokens, GoodTag, NamedAnchors, PrintEntries, ShapedEntries, ReadBlockEntries, ParserSpec.Step, Done;
    var q := Past(p, body);
    NamedAfter(q);
    RegularStep(q.To(BlockMappingFirstKeyState), bound);
    FirstBlockEntry(q);
    var m := q.Mark().Skip().To(BlockMappingKeyState);
    StepIsShorter(q.To(BlockMappingFirstKeyState), bound);
    var entries;
    entries, tail := BlockEntriesFound(m, bound - 1);
    n := BlockMapping(props, entries);
    DoneMarked(q, body[0], body[1..], BlockMappingKeyState, tail);
    DonePast(p, body, tail);
    GoesLonger(Done(p, tail), bound - 1, bound);
    PrintShrinks(body[0], PrintEntries(entries, [BlockEndToken] + tail), tail);
  }

  lemma BlockKeyResult(m: P)
    requires m.state == BlockMappingKeyState && ParserSpec.Step(m).Emit? && m.states != []
    ensures m.tokens != []
    ensures m.tokens[0].KeyToken? ==>
              |m.tokens| >= 2
              && ParserSpec.Step(m) == PlaceResult(m.Skip(), ValueState(BlockPair), EndsBlockNode(m.tokens[1]), true, true)
    ensures !m.tokens[0].KeyToken? ==>
              m.tokens[0].BlockEndToken? && m.marks != [] && ParserSpec.Step(m) == Emit(MappingEnd, DoneBoth(m, m.tokens[1..]))
  {
    hide ParseNode;
  }

  lemma {:induction false} BlockEntriesFound(m: P, bound: nat) returns (es: seq<Entry>, tail: seq<Token>)
    requires m.state == BlockMappingKeyState && m.states != [] && NamedAnchors(m.tokens) && GoesOn(ParserSpec.Step(m), bound)
    ensures m.tokens == PrintEntries(es, [BlockEndToken] + tail) && |tail| <= |m.tokens| && NamedAnchors(tail)
    ensures ShapedEntries(es, true, m.tagDirectives) && ReadBlockEntries(es) && m.marks != [] && Goes(DoneBoth(m, tail), bound)
    decreases bound, 6
  {
    hide Goes, NamedAnchors, ParserSpec.Step, Print, ShapedEntry, ReadEntry, Done, DoneBoth, PlaceResult, PrintEntry;
    BlockKeyResult(m);
    NamedAfter(m);
    if m.Head().KeyToken? {
      var e, rest := PairFound(m, EndsBlockNode(m.tokens[1]), BlockPair, bound);
      var m2 := Past(m, rest);
      assert m2.To(NextState(BlockPair)) == m2;
      RegularStep(m2, bound);
      StepIsShorter(m2, bound);
      var more;
      more, tail := BlockEntriesFound(m2, bound - 1);
      es := [e] + more;
      assert es[1..] == more;
      DonePastRest(m, rest, tail);
      GoesLonger(DoneBoth(m, tail), bound - 1, bound);
    } else {
      es, tail := [], m.tokens[1..];
    }
  }

  // ---- Flow mappings ----

  lemma {:induction false} FlowMappingFound(props: Props, p: P, body: seq<Token>, block: bool, indentless: bool, bound: nat)
    returns (n: Tree, tail: seq<Token>)
    requires p.tokens == PropTokens(props, body) && |body| <= |p.tokens| && p.states != [] && NamedAnchors(body)
    requires GoodTag(p.tagDirectives, props.tag) && body != [] && body[0].FlowMappingStartToken?
    requires Goes(Past(p, body).To(FlowMappingFirstKeyState), bound)
    ensures IsNode(p, n, tail, block, indentless) && Goes(Done(p, tail), bound)
    decreases bound, 1
  {
    hide *;
    var es, trailing;
    es, trailing, tail := FlowMappingBody(p, body, bound);
    n := FlowMapping(props, es, trailing);
    FlowMappingIsNode(props, p, body, es, trailing, tail, block, indentless);
  }

  lemma FlowMappingIsNode(props: Props, p: P, body: seq<Token>, es: seq<Entry>, trailing: bool, tail: seq<Token>, block: bool, indentless: bool)
    requires p.tokens == PropTokens(props, body) && |body| <= |p.tokens| && GoodTag(p.tagDirectives, props.tag)
    requires body == [FlowMappingStartToken] + PrintFirst(es, trailing, [FlowMappingEndToken] + tail) && NamedAnchors(tail)
    requires ShapedEntries(es, false, p.tagDirectives) && ReadMapping(es)
    ensures IsNode(p, FlowMapping(props, es, trailing), tail, block, indentless)
  {
    hide PropTokens, GoodTag, NamedAnchors, PrintFirst, ShapedEntries, ReadSequence, ReadMapping;
    PrintShrinks(body[0], PrintFirst(es, trailing, [FlowMappingEndToken] + tail), tail);
  }

  /** The tokens of a flow mapping from its opening bracket on. */
  lemma {:induction false} FlowMappingBody(p: P, body: seq<Token>, bound: nat) returns (es: seq<Entry>, trailing: bool, tail: seq<Token>)
    requires |body| <= |p.tokens| && p.states != [] && NamedAnchors(body) && body != [] && body[0].FlowMappingStartToken?
    requires Goes(Past(p, body).To(FlowMappingFirstKeyState), bound)
    ensures body == [FlowMappingStartToken] + PrintFirst(es, trailing, [FlowMappingEndToken] + tail) && NamedAnchors(tail) && |tail| <= |p.tokens|
    ensures ShapedEntries(es, false, p.tagDirectives) && ReadMapping(es) && Goes(Done(p, tail), bound)
    decreases bound, 0
  {
    hide Goes, NamedAnchors, PrintFirst, ShapedEntries, ReadSequence, ReadMapping, ParserSpec.Step, Done, DoneBoth, FlowMappingItem;
    var q := Past(p, body);
    NamedAfter(q);
    var f := q.To(FlowMappingFirstKeyState);
    RegularStep(f, bound);
    StepIsShorter(f, bound);
    FirstMappingResult(q);
    var m := q.Mark().Skip().To(FlowMappingKeyState);
    if body[1].FlowMappingEndToken? {
      es, trailing, tail := [], false, body[2..];
      FirstMappingEnd(q, tail);
      NamedAfter(q.Skip());
      DonePast(p, body, tail);
      NoEntries(body, tail, FlowMappingEndToken, p.tagDirectives);
    } else {
      es, trailing, tail := FlowEntriesFound(m, bound - 1);
      DoneMarked(q, body[0], body[1..], FlowMappingKeyState, tail);
      DonePast(p, body, tail);
    }
    GoesLonger(Done(p, tail), bound - 1, bound);
  }

  lemma NoEntries(body: seq<Token>, tail: seq<Token>, end: Token, ds: seq<TagDirective>)
    requires |body| >= 2 && body[1] == end && tail == body[2..]
    ensures body[1..] == PrintFirst([], false, [end] + tail) && |tail| <= |body|
    ensures ShapedEntries([], false, ds) && ReadMapping([]) && ReadSequence([], false)
  {
  }

  lemma FirstMappingResult(q: P)
    requires q.tokens != [] && ParserSpec.Step(q.To(FlowMappingFirstKeyState)).Emit?
    ensures |q.tokens| >= 2
    ensures !q.tokens[1].FlowMappingEndToken? ==>
              ParserSpec.Step(q.To(FlowMappingFirstKeyState)) == FlowMappingItem(q.Mark().Skip().To(FlowMappingKeyState))
  {
    if |q.tokens| >= 2 && !q.tokens[1].FlowMappingEndToken? {
      FirstMappingItem(q);
      ItemsIgnoreState(q.Mark().Skip().To(FlowMappingKeyState), FlowMappingFirstKeyState);
    }
    hide FlowMappingItem;
  }

  lemma MappingItemResult(q: P)
    requires FlowMappingItem(q).Emit? && q.states != []
    ensures q.tokens != []
    ensures q.tokens[0].KeyToken? ==>
              |q.tokens| >= 2
              && FlowMappingItem(q) == PlaceResult(q.Skip(), ValueState(FlowPair), EndsFlowPair(q.tokens[1]), false, false)
    ensures !q.tokens[0].KeyToken? ==>
              if q.tokens[0].FlowMappingEndToken? then q.marks != [] && FlowMappingItem(q) == Emit(MappingEnd, DoneBoth(q, q.tokens[1..]))
              else FlowMappingItem(q) == PlaceResult(q, FlowMappingEmptyValueState, false, false, false)
  {
    hide ParseNode;
  }

  /** A node alone as an entry. */
  lemma KeylessEntry(q: P, n: Tree, rest: seq<Token>)
    requires IsDue(q, n, rest, false, false) && !n.Omitted?
    ensures IsEntry(q, Entry(false, n, false, Omitted), rest, false)
  {
    OmittedFits(q, false, false);
    assert PrintEntry(Entry(false, n, false, Omitted), rest) == Print(n, rest);
    hide NamedAnchors;
  }

  lemma EmptyValueResult(m: P)
    requires m.state == FlowMappingEmptyValueState && ParserSpec.Step(m).Emit?
    ensures ParserSpec.Step(m) == Emit(NULL_SCALAR, m.To(FlowMappingKeyState))
  {
    hide ParseNode;
  }

  /** One entry of a flow mapping. */
  lemma {:induction false} FlowEntryFound(q: P, bound: nat) returns (e: Entry, rest: seq<Token>)
    requires NamedAnchors(q.tokens) && q.states != [] && GoesOn(FlowMappingItem(q), bound)
    requires q.tokens != [] && !q.tokens[0].FlowMappingEndToken?
    ensures IsEntry(q, e, rest, false) && Goes(Past(q, rest).To(FlowMappingKeyState), bound)
    decreases bound, 6
  {
    hide Goes, NamedAnchors, ParserSpec.Step, Print, Shaped, Read, PlaceResult, FlowMappingItem;
    MappingItemResult(q);
    if q.tokens[0].KeyToken? {
      e, rest := PairFound(q, EndsFlowPair(q.tokens[1]), FlowPair, bound);
    } else {
      var n;
      n, rest := PlaceFound(q, FlowMappingEmptyValueState, false, false, false, bound);
      var m := Past(q, rest).To(FlowMappingEmptyValueState);
      RegularStep(m, bound);
      EmptyValueResult(m);
      e := Entry(false, n, false, Omitted);
      KeylessEntry(q, n, rest);
      GoesLonger(m.To(FlowMappingKeyState), bound - 1, bound);
      assert m.To(FlowMappingKeyState) == Past(q, rest).To(FlowMappingKeyState);
    }
  }

  /** The entries from the first one on. */
  lemma {:induction false} FlowEntriesFound(q: P, bound: nat) returns (es: seq<Entry>, trailing: bool, tail: seq<Token>)
    requires q.state == FlowMappingKeyState && NamedAnchors(q.tokens) && q.states != [] && GoesOn(FlowMappingItem(q), bound)
    requires q.tokens != [] && !q.tokens[0].FlowMappingEndToken?
    ensures es != [] && q.tokens == PrintFirst(es, trailing, [FlowMappingEndToken] + tail) && |tail| <= |q.tokens| && NamedAnchors(tail)
    ensures ShapedEntries(es, false, q.tagDirectives) && ReadMapping(es) && q.marks != [] && Goes(DoneBoth(q, tail), bound)
    decreases bound, 7
  {
    hide Goes, NamedAnchors, ParserSpec.Step, PrintEntry, ShapedEntry, ReadEntry, FlowMappingItem, PrintMore, Done, DoneBoth;
    var e, rest := FlowEntryFound(q, bound);
    var m := Past(q, rest);
    assert m.To(FlowMappingKeyState) == m;
    RegularStep(m, bound);
    StepIsShorter(m, bound);
    var more;
    more, trailing, tail := FlowMoreFound(m, bound - 1);
    es := [e] + more;
    assert es[1..] == more;
    DonePastRest(q, rest, tail);
    GoesLonger(DoneBoth(q, tail), bound - 1, bound);
  }

  lemma MappingMoreResult(m: P)
    requires m.state == FlowMappingKeyState && ParserSpec.Step(m).Emit? && m.states != []
    ensures m.tokens != []
    ensures if m.tokens[0].FlowMappingEndToken? then m.marks != [] && ParserSpec.Step(m) == Emit(MappingEnd, DoneBoth(m, m.tokens[1..]))
            else m.tokens[0].FlowEntryToken? && ParserSpec.Step(m) == FlowMappingItem(m.Skip())
  {
    hide FlowMappingItem;
  }

  /** The entries after one, up to the closing bracket. */
  lemma {:induction false} FlowMoreFound(m: P, bound: nat) returns (es: seq<Entry>, trailing: bool, tail: seq<Token>)
    requires m.state == FlowMappingKeyState && NamedAnchors(m.tokens) && m.states != [] && GoesOn(ParserSpec.Step(m), bound)
    ensures m.tokens == PrintMore(es, trailing, [FlowMappingEndToken] + tail) && |tail| <= |m.tokens| && NamedAnchors(tail)
    ensures ShapedEntries(es, false, m.tagDirectives) && ReadMapping(es) && m.marks != [] && Goes(DoneBoth(m, tail), bound)
    decreases bound, 8
  {
    hide Goes, NamedAnchors, ParserSpec.Step, PrintEntry, ShapedEntry, ReadEntry, FlowMappingItem, Done, DoneBoth;
    MappingMoreResult(m);
    NamedAfter(m);
    if m.Head().FlowMappingEndToken? {
      es, trailing, tail := [], false, m.tokens[1..];
    } else {
      var q := m.Skip();
      MappingItemResult(q);
      if q.Head().FlowMappingEndToken? {
        es, trailing, tail := [], true, q.tokens[1..];
        NamedAfter(q);
        DonePastRest(m, q.tokens, tail);
      } else {
        es, trailing, tail := FlowEntriesFound(q, bound);
        DonePastRest(m, q.tokens, tail);
        FirstIsMore(es, trailing, [FlowMappingEndToken] + tail);
      }
    }
  }

  /** Entries after a comma are the first ones behind it. */
  lemma FirstIsMore(es: seq<Entry>, trailing: bool, tail: seq<Token>)
    requires es != []
    ensures PrintMore(es, trailing, tail) == [FlowEntryToken] + PrintFirst(es, trailing, tail)
  {
    hide PrintEntry;
  }

  // ---- Flow sequences ----

  lemma {:induction false} FlowSequenceFound(props: Props, p: P, body: seq<Token>, block: bool, indentless: bool, bound: nat)
    returns (n: Tree, tail: seq<Token>)
    requires p.tokens == PropTokens(props, body) && |body| <= |p.tokens| && p.states != [] && NamedAnchors(body)
    requires GoodTag(p.tagDirectives, props.tag) && body != [] && body[0].FlowSequenceStartToken?
    requires Goes(Past(p, body).To(FlowSequenceFirstEntryState), bound)
    ensures IsNode(p, n, tail, block, indentless) && Goes(Done(p, tail), bound)
    decreases bound, 1
  {
    hide *;
    var es, trailing;
    es, trailing, tail := FlowSequenceBody(p, body, bound);
    n := FlowSequence(props, es, trailing);
    FlowSequenceIsNode(props, p, body, es, trailing, tail, block, indentless);
  }

  lemma FlowSequenceIsNode(props: Props, p: P, body: seq<Token>, es: seq<Entry>, trailing: bool, tail: seq<Token>, block: bool, indentless: bool)
    requires p.tokens == PropTokens(props, body) && |body| <= |p.tokens| && GoodTag(p.tagDirectives, props.tag)
    requires body == [FlowSequenceStartToken] + PrintFirst(es, trailing, [FlowSequenceEndToken] + tail) && NamedAnchors(tail)
    requires ShapedEntries(es, false, p.tagDirectives) && ReadSequence(es, trailing)
    ensures IsNode(p, FlowSequence(props, es, trailing), tail, block, indentless)
  {
    hide PropTokens, GoodTag, NamedAnchors, PrintFirst, ShapedEntries, ReadSequence, ReadMapping;
    PrintShrinks(body[0], PrintFirst(es, trailing, [FlowSequenceEndToken] + tail), tail);
  }

  /** The tokens of a flow sequence from its opening bracket on. */
  lemma {:induction false} FlowSequenceBody(p: P, body: seq<Token>, bound: nat) returns (es: seq<Entry>, trailing: bool, tail: seq<Token>)
    requires |body| <= |p.tokens| && p.states != [] && NamedAnchors(body) && body != [] && body[0].FlowSequenceStartToken?
    requires Goes(Past(p, body).To(FlowSequenceFirstEntryState), bound)
    ensures body == [FlowSequenceStartToken] + PrintFirst(es, trailing, [FlowSequenceEndToken] + tail) && NamedAnchors(tail) && |tail| <= |p.tokens|
    ensures ShapedEntries(es, false, p.tagDirectives) && ReadSequence(es, trailing) && Goes(Done(p, tail), bound)
    decreases bound, 0
  {
    hide Goes, NamedAnchors, PrintFirst, ShapedEntries, ReadSequence, ReadMapping, ParserSpec.Step, Done, DoneBoth, FlowSequenceItem;
    var q := Past(p, body);
    NamedAfter(q);
    var f := q.To(FlowSequenceFirstEntryState);
    RegularStep(f, bound);
    StepIsShorter(f, bound);
    FirstSequenceResult(q);
    var m := q.Mark().Skip().To(FlowSequenceEntryState);
    if body[1].FlowSequenceEndToken? {
      es, trailing, tail := [], false, body[2..];
      FirstSequenceEnd(q, tail);
      NamedAfter(q.Skip());
      DonePast(p, body, tail);
      NoEntries(body, tail, FlowSequenceEndToken, p.tagDirectives);
    } else {
      es, trailing, tail := SequenceEntriesFound(m, bound - 1);
      DoneMarked(q, body[0], body[1..], FlowSequenceEntryState, tail);
      DonePast(p, body, tail);
    }
    GoesLonger(Done(p, tail), bound - 1, bound);
  }

  lemma FirstSequenceResult(q: P)
    requires q.tokens != [] && ParserSpec.Step(q.To(FlowSequenceFirstEntryState)).Emit?
    ensures |q.tokens| >= 2
    ensures !q.tokens[1].FlowSequenceEndToken? ==>
              ParserSpec.Step(q.To(FlowSequenceFirstEntryState)) == FlowSequenceItem(q.Mark().Skip().To(FlowSequenceEntryState))
  {
    if |q.tokens| >= 2 && !q.tokens[1].FlowSequenceEndToken? {
      FirstSequenceItem(q);
      ItemsIgnoreState(q.Mark().Skip().To(FlowSequenceEntryState), FlowSequenceFirstEntryState);
    }
    hide FlowSequenceItem;
  }

  lemma SequenceItemResult(q: P)
    requires FlowSequenceItem(q).Emit? && q.states != []
    ensures q.tokens != []
    ensures q.tokens[0].KeyToken? ==> FlowSequenceItem(q).next == q.Skip().To(FlowSequenceEntryMappingKeyState)
    ensures !q.tokens[0].KeyToken? ==>
              if q.tokens[0].FlowSequenceEndToken? then q.marks != [] && FlowSequenceItem(q) == Emit(SequenceEnd, DoneBoth(q, q.tokens[1..]))
              else FlowSequenceItem(q) == PlaceResult(q, FlowSequenceEntryState, false, false, false)
  {
    hide ParseNode;
  }

  predicate StopsKey(k: Token) {
    k.ValueToken? || k.FlowEntryToken? || k.FlowSequenceEndToken?
  }

  lemma SingleKeyResult(m: P)
    requires m.state == FlowSequenceEntryMappingKeyState && ParserSpec.Step(m).Emit?
    ensures m.tokens != []
    ensures if StopsKey(m.tokens[0]) then ParserSpec.Step(m) == Emit(NULL_SCALAR, m.Skip().To(FlowSequenceEntryMappingValueState))
            else ParserSpec.Step(m) == PlaceResult(m, ValueState(SinglePair), false, false, false)
  {
    hide ParseNode;
  }

  lemma SingleEndResult(m: P)
    requires m.state == FlowSequenceEntryMappingEndState && ParserSpec.Step(m).Emit?
    ensures ParserSpec.Step(m) == Emit(MappingEnd, m.To(FlowSequenceEntryState))
  {
  }

  /** A single pair after its KEY. Behind an empty key without VALUE a comma has been taken, which
      belongs before the closing bracket. */
  lemma {:induction false} SinglePairFound(m: P, bound: nat) returns (e: Entry, rest: seq<Token>, comma: bool)
    requires m.state == FlowSequenceEntryMappingKeyState && NamedAnchors(m.tokens) && Goes(m, bound)
    ensures e.keyed && ShapedEntry(e, false, m.tagDirectives) && ReadEntry(e)
    ensures m.tokens == Print(e.key, PrintValue(e, (if comma then [FlowEntryToken] else []) + rest))
    ensures |rest| <= |m.tokens| && NamedAnchors(rest) && (comma ==> rest != [] && rest[0].FlowSequenceEndToken?)
    ensures e.key.Omitted? ==> if e.valued then e.value.Omitted? else comma
    ensures Goes(Past(m, rest).To(FlowSequenceEntryState), bound)
    decreases bound, 6
  {
    hide Goes, NamedAnchors, ParserSpec.Step, Print, Shaped, Read, PlaceResult;
    RegularStep(m, bound);
    StepIsShorter(m, bound);
    SingleKeyResult(m);
    NamedAfter(m);
    comma := false;
    if StopsKey(m.tokens[0]) {
      e, rest, comma := EmptyKeyFound(m, bound);
    } else {
      var k, more := PlaceFound(m, ValueState(SinglePair), false, false, false, bound - 1);
      var v := Past(m, more).To(ValueState(SinglePair));
      RegularStep(v, bound - 1);
      StepIsShorter(v, bound - 1);
      var valued, value;
      valued, value, rest := ValueFound(v, SinglePair, bound - 2);
      e := Entry(true, k, valued, value);
      assert [] + rest == rest;
      PairEnds(Past(v, rest).To(NextState(SinglePair)), bound - 2);
      GoesLonger(Past(m, rest).To(FlowSequenceEntryState), bound - 2, bound);
    }
  }

  /** The end of a single pair. */
  lemma PairEnds(m: P, bound: nat)
    requires m.state == FlowSequenceEntryMappingEndState && Goes(m, bound)
    ensures Goes(m.To(FlowSequenceEntryState), bound)
  {
    RegularStep(m, bound);
    SingleEndResult(m);
    GoesLonger(m.To(FlowSequenceEntryState), bound - 1, bound);
  }

  lemma EmptyKeyFound(m: P, bound: nat) returns (e: Entry, rest: seq<Token>, comma: bool)
    requires m.state == FlowSequenceEntryMappingKeyState && NamedAnchors(m.tokens) && m.tokens != [] && StopsKey(m.tokens[0])
    requires !LosesToken(m) && Goes(m, bound)
    ensures e.keyed && ShapedEntry(e, false, m.tagDirectives) && ReadEntry(e)
    ensures m.tokens == Print(e.key, PrintValue(e, (if comma then [FlowEntryToken] else []) + rest))
    ensures |rest| <= |m.tokens| && NamedAnchors(rest) && (comma ==> rest != [] && rest[0].FlowSequenceEndToken?)
    ensures e.key.Omitted? && if e.valued then e.value.Omitted? else comma
    ensures Goes(Past(m, rest).To(FlowSequenceEntryState), bound)
  {
    hide Goes, NamedAnchors, ParserSpec.Step;
    NamedAfter(m);
    RegularStep(m, bound);
    SingleKeyResult(m);
    var v := m.Skip().To(FlowSequenceEntryMappingValueState);
    StepIsShorter(m, bound);
    RegularStep(v, bound - 1);
    ValueResult(v, SinglePair);
    StepIsShorter(v, bound - 1);
    PairEnds(v.To(FlowSequenceEntryMappingEndState), bound - 2);
    rest := v.tokens;
    comma := m.tokens[0].FlowEntryToken?;
    e := Entry(true, Omitted, !comma, Omitted);
    GoesLonger(Past(m, rest).To(FlowSequenceEntryState), bound - 2, bound);
  }

  /** One entry of a flow sequence. */
  lemma {:induction false} SequenceEntryFound(q: P, bound: nat) returns (e: Entry, rest: seq<Token>, comma: bool)
    requires NamedAnchors(q.tokens) && q.states != [] && GoesOn(FlowSequenceItem(q), bound)
    requires q.tokens != [] && !q.tokens[0].FlowSequenceEndToken?
    ensures IsEntry(q, e, (if comma then [FlowEntryToken] else []) + rest, false) && |rest| <= |q.tokens| && NamedAnchors(rest)
    ensures comma ==> rest != [] && rest[0].FlowSequenceEndToken?
    ensures e.keyed && e.key.Omitted? ==> if e.valued then e.value.Omitted? else comma
    ensures Goes(Past(q, rest).To(FlowSequenceEntryState), bound)
    decreases bound, 7
  {
    hide Goes, ParserSpec.Step, Print, Shaped, Read, PlaceResult, FlowSequenceItem;
    SequenceItemResult(q);
    comma := false;
    if q.tokens[0].KeyToken? {
      NamedAfter(q);
      var m := q.Skip().To(FlowSequenceEntryMappingKeyState);
      e, rest, comma := SinglePairFound(m, bound);
      assert Past(m, rest).To(FlowSequenceEntryState) == Past(q, rest).To(FlowSequenceEntryState);
      assert q.tokens == [KeyToken] + m.tokens;
    } else {
      var n;
      n, rest := PlaceFound(q, FlowSequenceEntryState, false, false, false, bound);
      e := Entry(false, n, false, Omitted);
      KeylessEntry(q, n, rest);
      assert [] + rest == rest;
    }
  }

  /** The entries from the first one on. */
  lemma {:induction false} SequenceEntriesFound(q: P, bound: nat) returns (es: seq<Entry>, trailing: bool, tail: seq<Token>)
    requires q.state == FlowSequenceEntryState && NamedAnchors(q.tokens) && q.states != [] && GoesOn(FlowSequenceItem(q), bound)
    requires q.tokens != [] && !q.tokens[0].FlowSequenceEndToken?
    ensures es != [] && q.tokens == PrintFirst(es, trailing, [FlowSequenceEndToken] + tail) && |tail| <= |q.tokens| && NamedAnchors(tail)
    ensures ShapedEntries(es, false, q.tagDirectives) && ReadSequence(es, trailing) && q.marks != [] && Goes(DoneBoth(q, tail), bound)
    decreases bound, 8
  {
    hide Goes, NamedAnchors, ParserSpec.Step, PrintEntry, ShapedEntry, ReadEntry, FlowSequenceItem, Done, DoneBoth;
    var e, rest, comma := SequenceEntryFound(q, bound);
    var m := Past(q, rest);
    assert m.To(FlowSequenceEntryState) == m;
    RegularStep(m, bound);
    StepIsShorter(m, bound);
    var more, last;
    more, last, tail := SequenceMoreFound(m, bound - 1);
    es, trailing := [e] + more, comma || last;
    FirstAndMore(e, more, comma, last, rest, [FlowSequenceEndToken] + tail);
    DonePastRest(q, rest, tail);
    GoesLonger(DoneBoth(q, tail), bound - 1, bound);
  }

  lemma FirstAndMore(e: Entry, more: seq<Entry>, comma: bool, last: bool, rest: seq<Token>, tail: seq<Token>)
    requires rest == PrintMore(more, last, tail) && (comma ==> more == [] && !last)
    ensures ([e] + more)[1..] == more && ([e] + more)[0] == e
    ensures PrintFirst([e] + more, comma || last, tail) == PrintEntry(e, (if comma then [FlowEntryToken] else []) + rest)
  {
    hide PrintEntry;
    assert ([e] + more)[1..] == more;
    assert [] + rest == rest;
  }

  lemma SequenceMoreResult(m: P)
    requires m.state == FlowSequenceEntryState && ParserSpec.Step(m).Emit? && m.states != []
    ensures m.tokens != []
    ensures if m.tokens[0].FlowSequenceEndToken? then m.marks != [] && ParserSpec.Step(m) == Emit(SequenceEnd, DoneBoth(m, m.tokens[1..]))
            else m.tokens[0].FlowEntryToken? && ParserSpec.Step(m) == FlowSequenceItem(m.Skip())
  {
    hide FlowSequenceItem;
  }

  /** The entries after one, up to the closing bracket. */
  lemma {:induction false} SequenceMoreFound(m: P, bound: nat) returns (es: seq<Entry>, trailing: bool, tail: seq<Token>)
    requires m.state == FlowSequenceEntryState && NamedAnchors(m.tokens) && m.states != [] && GoesOn(ParserSpec.Step(m), bound)
    ensures m.tokens == PrintMore(es, trailing, [FlowSequenceEndToken] + tail) && |tail| <= |m.tokens| && NamedAnchors(tail)
    ensures ShapedEntries(es, false, m.tagDirectives) && ReadSequence(es, trailing) && m.marks != [] && Goes(DoneBoth(m, tail), bound)
    ensures m.tokens != [] && (m.tokens[0].FlowSequenceEndToken? ==> es == [] && !trailing)
    decreases bound, 9
  {
    hide Goes, NamedAnchors, ParserSpec.Step, PrintEntry, ShapedEntry, ReadEntry, FlowSequenceItem, Done, DoneBoth;
    SequenceMoreResult(m);
    NamedAfter(m);
    if m.Head().FlowSequenceEndToken? {
      es, trailing, tail := [], false, m.tokens[1..];
    } else {
      var q := m.Skip();
      SequenceItemResult(q);
      if q.Head().FlowSequenceEndToken? {
        es, trailing, tail := [], true, q.tokens[1..];
        NamedAfter(q);
        DonePastRest(m, q.tokens, tail);
      } else {
        es, trailing, tail := SequenceEntriesFound(q, bound);
        DonePastRest(m, q.tokens, tail);
        FirstIsMore(es, trailing, [FlowSequenceEndToken] + tail);
      }
    }
  }

  // ---- Documents ----

  /** DOCUMENT-END tokens. */
  lemma {:induction false} EndsFound(p: P) returns (n: nat, body: seq<Token>)
    requires NamedAnchors(p.tokens)
    ensures p.tokens == Repeat(DocumentEndToken, n, body) && |body| <= |p.tokens| && NamedAnchors(body)
    ensures SkipDocumentEnds(p) == Past(p, body) && (body != [] ==> !body[0].DocumentEndToken?)
    decreases |p.tokens|
  {
    if p.tokens != [] && p.Head().DocumentEndToken? {
      NamedAfter(p);
      n, body := EndsFound(p.Skip());
      n := n + 1;
    } else {
      n, body := 0, p.tokens;
    }
  }

  /** The directives before the first other token. */
  lemma {:induction false} DirectivesFound(ts: seq<Token>) returns (ks: seq<Token>, rest: seq<Token>)
    requires NamedAnchors(ts)
    ensures ts == ks + rest && (forall i | 0 <= i < |ks| :: IsDirective(ks[i])) && NamedAnchors(rest)
    ensures rest != [] ==> !IsDirective(rest[0])
    decreases |ts|
  {
    if ts != [] && IsDirective(ts[0]) {
      assert forall i | 0 <= i < |ts| - 1 :: ts[1..][i] == ts[i + 1];
      ks, rest := DirectivesFound(ts[1..]);
      ks := [ts[0]] + ks;
    } else {
      ks, rest := [], ts;
    }
  }

  /** Good directives are processed up to the next token, which is then looked at. */
  lemma {:induction false} DirectivesDone(ks: seq<Token>, p: P, version: Version, tags: seq<TagDirective>, rest: seq<Token>)
    requires p.tokens == ks + rest && (forall i | 0 <= i < |ks| :: IsDirective(ks[i]))
    requires rest != [] ==> !IsDirective(rest[0])
    requires ProcessDirectives(p, version, tags).Directives?
    ensures rest != [] && |rest| <= |p.tokens| && GoodAfter(ks, version.Version?, p.tagDirectives)
    ensures ProcessDirectives(p, version, tags).next.tokens == rest
    decreases |ks|
  {
    if !GoodAfter(ks, version.Version?, p.tagDirectives) {
      DirectivesRefused(ks, p, version, tags, rest);
    }
    if ks == [] {
      assert p.tokens == rest;
    } else {
      assert p.tokens == [ks[0]] + (ks[1..] + rest);
      SkipTo(p, ks[0], ks[1..] + rest);
      OneDirective(p, version, tags);
      assert IsDirective(ks[0]) && forall i | 0 <= i < |ks| - 1 :: ks[1..][i] == ks[i + 1];
      hide GoodAfter, ProcessDirectives, WithDefaults;
      match ks[0]
      case VersionDirectiveToken(major, minor) => DirectivesDone(ks[1..], p.Skip(), Version(1, 1), tags, rest);
      case TagDirectiveToken(handle, prefix) =>
        var d := TagDirective(handle, prefix);
        DirectivesDone(ks[1..], p.(tagDirectives := p.tagDirectives + [d]).Skip(), version, tags + [d], rest);
    }
  }

  /** An explicit document has begun. */
  lemma ExplicitFound(p: P, n: nat, body: seq<Token>) returns (ks: seq<Token>, rest: seq<Token>)
    requires p.states == [] && p.tagDirectives == [] && NamedAnchors(body)
    requires p.tokens == Repeat(DocumentEndToken, n, body) && body != [] && !body[0].DocumentEndToken? && !body[0].StreamEndToken?
    requires |body| <= |p.tokens| && SkipDocumentEnds(p) == Past(p, body)
    requires p.state == DocumentStartState || (p.state == ImplicitDocumentStartState && n == 0 && (IsDirective(body[0]) || body[0].DocumentStartToken?))
    requires ParserSpec.Step(p).Emit?
    ensures body == ks + ([DocumentStartToken] + rest) && GoodDirectives(ks) && NamedAnchors(rest) && |rest| <= |p.tokens|
    ensures ParserSpec.Step(p).next == Past(p, rest).(state := DocumentContentState, states := [DocumentEndState],
                                                      tagDirectives := WithDefaults(DirectiveTags(ks)))
  {
    hide NamedAnchors, WithDefaults;
    var more;
    ks, more := DirectivesFound(body);
    ExplicitResult(p, n, body);
    DirectivesDone(ks, Past(p, body), NoVersion, [], more);
    NamedAfter(Past(p, more));
    rest := more[1..];
    assert more == [DocumentStartToken] + rest;
    ExplicitStart(ks, p, n, rest);
    hide ProcessDirectives, Repeat, SkipDocumentEnds, GoodDirectives;
  }

  lemma ExplicitResult(p: P, n: nat, body: seq<Token>)
    requires body != [] && !body[0].DocumentEndToken? && !body[0].StreamEndToken?
    requires p.tokens == Repeat(DocumentEndToken, n, body) && |body| <= |p.tokens| && SkipDocumentEnds(p) == Past(p, body)
    requires p.state == DocumentStartState || (p.state == ImplicitDocumentStartState && n == 0 && (IsDirective(body[0]) || body[0].DocumentStartToken?))
    requires ParserSpec.Step(p).Emit?
    ensures var r := ProcessDirectives(Past(p, body), NoVersion, []);
            r.Directives? && (r.next.tokens != [] ==> r.next.Head().DocumentStartToken?)
  {
    hide ProcessDirectives, SkipDocumentEnds;
    if n == 0 {
      PastNothing(p);
    }
  }

  /** The root of a document. */
  lemma RootFound(m: P, bound: nat) returns (root: Tree, tail: seq<Token>)
    requires m.state == DocumentContentState || m.state == BlockNodeState
    requires m.states == [DocumentEndState] && NamedAnchors(m.tokens) && Goes(m, bound)
    ensures m.tokens == Print(root, tail) && |tail| <= |m.tokens| && NamedAnchors(tail)
    ensures Shaped(root, true, false, m.tagDirectives) && Read(root) && (m.state == BlockNodeState ==> !root.Omitted?)
    ensures Goes(Past(m, tail).(state := DocumentEndState, states := []), bound)
  {
    hide Goes, NamedAnchors, ParserSpec.Step, Print, Shaped, Read, Done, ParseNode;
    RegularStep(m, bound);
    StepIsShorter(m, bound);
    RootResult(m);
    if ParserSpec.Step(m) == ParseNode(m, true, false) {
      root, tail := NodeFound(m, true, false, bound - 1);
      DoneRoot(m, tail);
    } else {
      root, tail := Omitted, m.tokens;
      OmittedFits(m, true, false);
    }
    GoesLonger(Past(m, tail).(state := DocumentEndState, states := []), bound - 1, bound);
  }

  lemma RootResult(m: P)
    requires (m.state == DocumentContentState || m.state == BlockNodeState) && m.states == [DocumentEndState]
    ensures || ParserSpec.Step(m) == ParseNode(m, true, false)
            || ParserSpec.Step(m) == Error
            || (m.state == DocumentContentState && ParserSpec.Step(m) == Emit(NULL_SCALAR, m.(state := DocumentEndState, states := [])))
  {
    hide ParseNode;
    assert [DocumentEndState][..0] == [];
  }

  /** Before a document or the end of the stream. */
  lemma StartFound(p: P) returns (n: nat, body: seq<Token>)
    requires p.state == DocumentStartState || p.state == ImplicitDocumentStartState
    requires NamedAnchors(p.tokens) && ParserSpec.Step(p).Emit?
    ensures p.tokens == Repeat(DocumentEndToken, n, body) && |body| <= |p.tokens| && NamedAnchors(body) && body != []
    ensures p.state == ImplicitDocumentStartState ==> n == 0 && body == p.tokens
    ensures p.state == DocumentStartState ==> SkipDocumentEnds(p) == Past(p, body) && !body[0].DocumentEndToken?
  {
    hide NamedAnchors, ProcessDirectives;
    if p.state == ImplicitDocumentStartState {
      n, body := 0, p.tokens;
    } else {
      n, body := EndsFound(p);
    }
  }

  /** A document has begun, with or without directives and DOCUMENT-START. */
  lemma BeginningFound(p: P, n: nat, body: seq<Token>) returns (explicit: bool, ks: seq<Token>, rest: seq<Token>)
    requires p.state == DocumentStartState || p.state == ImplicitDocumentStartState
    requires p.states == [] && p.tagDirectives == [] && ParserSpec.Step(p).Emit?
    requires p.tokens == Repeat(DocumentEndToken, n, body) && |body| <= |p.tokens| && NamedAnchors(body) && body != []
    requires p.state == ImplicitDocumentStartState ==> n == 0 && body == p.tokens
    requires p.state == DocumentStartState ==> SkipDocumentEnds(p) == Past(p, body) && !body[0].DocumentEndToken?
    requires !body[0].StreamEndToken?
    ensures if explicit then body == ks + ([DocumentStartToken] + rest) && GoodDirectives(ks) else ks == [] && rest == body && n == 0
    ensures NamedAnchors(rest) && |rest| <= |p.tokens| && (p.state == DocumentStartState ==> explicit)
    ensures ParserSpec.Step(p).next
         == Past(p, rest).(state := if explicit then DocumentContentState else BlockNodeState, states := [DocumentEndState],
                           tagDirectives := WithDefaults(if explicit then DirectiveTags(ks) else []))
  {
    hide NamedAnchors, WithDefaults;
    explicit := p.state == DocumentStartState || IsDirective(body[0]) || body[0].DocumentStartToken?;
    if explicit {
      ImplicitAtOnce(p, n, body);
      ks, rest := ExplicitFound(p, n, body);
    } else {
      ks, rest := [], body;
      PastNothing(p);
      assert [] + [DocumentEndState] == [DocumentEndState];
    }
  }

  lemma ImplicitAtOnce(p: P, n: nat, body: seq<Token>)
    requires p.tokens == Repeat(DocumentEndToken, n, body) && body != [] && |body| <= |p.tokens|
    requires p.state == ImplicitDocumentStartState ==> n == 0 && body == p.tokens && (IsDirective(body[0]) || body[0].DocumentStartToken?)
    requires p.state != ImplicitDocumentStartState ==> SkipDocumentEnds(p) == Past(p, body)
    ensures SkipDocumentEnds(p) == Past(p, body)
  {
    if p.state == ImplicitDocumentStartState {
      PastNothing(p);
    }
  }

  /** The root and the end of a document; `closed` if a DOCUMENT-END has been taken. */
  lemma DocumentFound(m: P, bound: nat) returns (root: Tree, closed: bool, rest: seq<Token>)
    requires m.state == DocumentContentState || m.state == BlockNodeState
    requires m.states == [DocumentEndState] && NamedAnchors(m.tokens) && Goes(m, bound)
    ensures bound >= 1 && |rest| <= |m.tokens| && NamedAnchors(rest)
    ensures m.tokens == Print(root, (if closed then [DocumentEndToken] else []) + rest)
    ensures !closed ==> rest != [] && !rest[0].DocumentEndToken?
    ensures Shaped(root, true, false, m.tagDirectives) && Read(root) && (m.state == BlockNodeState ==> !root.Omitted?)
    ensures Goes(Past(m, rest).(state := DocumentStartState, states := [], tagDirectives := []), bound - 1)
  {
    hide Goes, NamedAnchors, ParserSpec.Step, Print, Shaped, Read;
    var tail;
    root, tail := RootFound(m, bound);
    var e := Past(m, tail).(state := DocumentEndState, states := []);
    RegularStep(e, bound);
    StepIsShorter(e, bound);
    EndResult(e);
    closed := tail[0].DocumentEndToken?;
    rest := if closed then tail[1..] else tail;
    NamedAfter(e);
    assert [] + tail == tail;
    var f := Past(m, rest).(state := DocumentStartState, states := [], tagDirectives := []);
    assert f == ParserSpec.Step(e).next;
  }

  lemma EndResult(e: P)
    requires e.state == DocumentEndState && ParserSpec.Step(e).Emit?
    ensures e.tokens != []
    ensures ParserSpec.Step(e)
         == Emit(DocumentEnd(!e.Head().DocumentEndToken?),
                 (if e.Head().DocumentEndToken? then e.Skip() else e).(tagDirectives := [], state := DocumentStartState))
  {
  }

  /** The documents from here on; `n` DOCUMENT-END tokens belong to the one before. */
  lemma {:induction false} DocumentsFound(p: P, bound: nat) returns (ds: seq<DocumentTree>, n: nat, rest: seq<Token>)
    requires p.state == DocumentStartState || p.state == ImplicitDocumentStartState
    requires p.states == [] && p.tagDirectives == [] && NamedAnchors(p.tokens) && Goes(p, bound)
    ensures p.tokens == Repeat(DocumentEndToken, n, PrintDocuments(ds, [StreamEndToken] + rest))
    ensures ShapedStream(ds) && ReadStream(ds)
    ensures if p.state == DocumentStartState then ds != [] ==> ds[0].explicit else n == 0
    decreases bound
  {
    hide Goes, NamedAnchors, ParserSpec.Step, Print, Shaped, Read, Repeat, SkipDocumentEnds, PrintDocument, WithDefaults, InForce,
         GoodDirectives, Past;
    RegularStep(p, bound);
    StepIsShorter(p, bound);
    var body;
    n, body := StartFound(p);
    if body[0].StreamEndToken? {
      ds, rest := [], body[1..];
      assert body == [StreamEndToken] + rest;
    } else {
      var explicit, ks, more := BeginningFound(p, n, body);
      var m := ParserSpec.Step(p).next;
      PastFields(p, more);
      var root, closed, later := DocumentFound(m, bound - 1);
      PastFields(m, later);
      var f := Past(m, later).(state := DocumentStartState, states := [], tagDirectives := []);
      GoesNatural(f, bound - 2);
      var others, k;
      others, k, rest := DocumentsFound(f, bound - 2);
      var d := DocumentTree(explicit, ks, root, if closed then k + 1 else 0);
      DocumentPrinted(d, closed, k, PrintDocuments(others, [StreamEndToken] + rest), later, m.tokens, body);
      ds := [d] + others;
      DocumentShaped(d, m.tagDirectives);
      StreamShaped(d, others);
      DocumentsPrinted(d, others, [StreamEndToken] + rest);
    }
  }

  lemma GoesNatural(p: P, bound: int)
    requires Goes(p, bound)
    ensures bound >= 0
  {
    hide Inv, Regular;
  }

  lemma DocumentsPrinted(d: DocumentTree, others: seq<DocumentTree>, tail: seq<Token>)
    ensures PrintDocuments([d] + others, tail) == PrintDocument(d, PrintDocuments(others, tail))
  {
    hide PrintDocument;
    assert ([d] + others)[1..] == others;
  }

  lemma PastFields(p: P, rest: seq<Token>)
    requires |rest| <= |p.tokens|
    ensures Past(p, rest).tokens == rest
  {
  }

  lemma DocumentPrinted(d: DocumentTree, closed: bool, k: nat, tail: seq<Token>, later: seq<Token>, content: seq<Token>, body: seq<Token>)
    requires later == Repeat(DocumentEndToken, k, tail) && d.ends == (if closed then k + 1 else 0)
    requires !closed ==> later != [] && !later[0].DocumentEndToken?
    requires content == Print(d.root, (if closed then [DocumentEndToken] else []) + later)
    requires body == if d.explicit then d.directives + ([DocumentStartToken] + content) else content
    ensures body == PrintDocument(d, tail)
  {
    hide Print;
    assert [] + later == later;
    assert !closed ==> k == 0;
    assert Repeat(DocumentEndToken, d.ends, tail) == (if closed then [DocumentEndToken] else []) + later;
  }

  lemma DocumentShaped(d: DocumentTree, ds: seq<TagDirective>)
    requires ds == WithDefaults(if d.explicit then DirectiveTags(d.directives) else [])
    requires Shaped(d.root, true, false, ds) && (if d.explicit then GoodDirectives(d.directives) else !d.root.Omitted?)
    ensures ShapedDocument(d)
  {
    hide Shaped, WithDefaults, GoodDirectives;
  }

  lemma StreamShaped(d: DocumentTree, others: seq<DocumentTree>)
    requires ShapedDocument(d) && Read(d.root) && ShapedStream(others) && ReadStream(others) && (others != [] ==> others[0].explicit)
    ensures ShapedStream([d] + others) && ReadStream([d] + others)
  {
    hide ShapedDocument, Read;
  }

  // ---- Streams ----

  /** Some step of the run loses a token. */
  ghost predicate Loses(p: P)
    requires Inv(p)
    decreases Potential(p)
  {
    p.state != EndState
    && (LosesToken(p)
        || (StepSound(p);
            StepDecreases(p);
            ParserSpec.Step(p).Emit? && Loses(ParserSpec.Step(p).next)))
  }

  lemma {:induction false} RegularOrLoses(p: P)
    requires Inv(p)
    ensures Regular(p) <==> ParseAll(p).ended && !Loses(p)
    decreases Potential(p)
  {
    if p.state != EndState {
      StepSound(p);
      StepDecreases(p);
      hide ParserSpec.Step, Inv, Abs;
      if ParserSpec.Step(p).Emit? {
        RegularOrLoses(ParserSpec.Step(p).next);
      }
    }
  }

  /** The scanner delivers STREAM-END once, as its last token. */
  ghost predicate EndsOnce(ts: seq<Token>) {
    forall i | 0 <= i < |ts| - 1 :: !ts[i].StreamEndToken?
  }

  lemma {:induction false} StepsLoseNothing(p: P, es: seq<Event>, q: P)
    requires Inv(p) && Steps(p, es, q) && q.state == EndState
    ensures !Loses(p)
    decreases |es|
  {
    hide Inv, ParserSpec.Step, Abs, LosesToken;
    if es != [] {
      RunStep(p);
      StepsLoseNothing(ParserSpec.Step(p).next, es[1..], q);
    }
  }

  /** The language of the parser: what it parses to the end without losing a token is exactly the
      printings of streams of the grammar, and the events are those that the stream means. */
  lemma ParsesExactlyTheGrammar(tokens: seq<Token>)
    requires NamedAnchors(tokens) && EndsOnce(tokens)
    ensures Inv(Start(tokens))
    ensures ParseAll(Start(tokens)).ended && !Loses(Start(tokens)) <==>
            exists ds :: ShapedStream(ds) && ReadStream(ds) && tokens == PrintStream(ds)
    ensures forall ds | ShapedStream(ds) && ReadStream(ds) && tokens == PrintStream(ds) ::
              ParseAll(Start(tokens)).events == FlattenStream(StreamMeant(ds))
  {
    var p := Start(tokens);
    StartInv(p);
    RegularOrLoses(p);
    hide *;
    if ParseAll(p).ended && !Loses(p) {
      var ds := StreamFound(tokens);
    }
    forall ds | ShapedStream(ds) && ReadStream(ds) && tokens == PrintStream(ds)
      ensures ParseAll(p).ended && !Loses(p) && ParseAll(p).events == FlattenStream(StreamMeant(ds))
    {
      Inverse(ds);
      var end := StreamSteps(ds);
      StepsLoseNothing(p, FlattenStream(StreamMeant(ds)), end);
    }
  }

  lemma StreamFound(tokens: seq<Token>) returns (ds: seq<DocumentTree>)
    requires NamedAnchors(tokens) && EndsOnce(tokens) && Inv(Start(tokens)) && Regular(Start(tokens))
    ensures ShapedStream(ds) && ReadStream(ds) && tokens == PrintStream(ds)
  {
    hide Goes, Inv, Regular, ParserSpec.Step, ShapedDocument, ReadStream, PrintDocuments, Potential, NamedAnchors, EndsOnce, PrintStream;
    var p := Start(tokens);
    RegularGoes(p);
    RegularStep(p, Potential(p));
    StepIsShorter(p, Potential(p));
    StreamStartResult(p);
    NamedAfter(p);
    var q := p.To(ImplicitDocumentStartState).Skip();
    var n, rest;
    ds, n, rest := DocumentsFound(q, Potential(p) - 1);
    NothingRepeated(PrintDocuments(ds, [StreamEndToken] + rest));
    EndIsLast(ds, rest, tokens);
  }

  lemma RegularGoes(p: P)
    requires Inv(p) && Regular(p)
    ensures Goes(p, Potential(p))
  {
  }

  lemma StreamStartResult(p: P)
    requires p.state == StreamStartState && ParserSpec.Step(p).Emit?
    ensures p.tokens != [] && p.Head().StreamStartToken?
    ensures ParserSpec.Step(p).next == p.To(ImplicitDocumentStartState).Skip()
  {
  }

  lemma NothingRepeated(ts: seq<Token>)
    ensures Repeat(DocumentEndToken, 0, ts) == ts
  {
  }

  /** Nothing comes behind a STREAM-END. */
  lemma EndIsLast(ds: seq<DocumentTree>, rest: seq<Token>, tokens: seq<Token>)
    requires tokens == [StreamStartToken] + PrintDocuments(ds, [StreamEndToken] + rest) && EndsOnce(tokens)
    requires forall i | 0 <= i < |ds| :: ShapedDocument(ds[i])
    ensures rest == [] && tokens == PrintStream(ds)
  {
    var tail := [StreamEndToken] + rest;
    L.DocumentsAhead(ds, tail);
    hide PrintDocuments;
    var k := |tokens| - |tail|;
    assert tokens[k] == PrintDocuments(ds, tail)[k - 1] == tail[0];
    assert [StreamEndToken] + [] == [StreamEndToken];
  }
}
