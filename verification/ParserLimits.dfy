/** Where the parser departs from its documented grammar: a stream with a VALUE that has no KEY in
    a block mapping, or with a single pair whose missing key makes the code skip a token it needs,
    is never parsed to its end. With the inverse theorem, that is the exact condition. */
module ParserLimits {
  import opened Utf8
  import opened EventGrammar
  import opened ParserSpec
  import opened ParserSoundness
  import opened ParserRuns
  import opened ParserAccounts
  import opened TokenPrinter
  import opened ParserInverse
  import opened StreamInverse

  // ---- Going astray ----

  /** No event comes here, or the ']' of an open sequence is about to be skipped for a key. */
  ghost predicate Lost(p: P) {
    p.state != EndState &&
    (!ParserSpec.Step(p).Emit?
     || (p.state == FlowSequenceEntryMappingKeyState && p.tokens != [] && p.Head().FlowSequenceEndToken?))
  }

  /** From `p` the parser emits `es` and is then at `q`, whatever it skips on the way. */
  ghost predicate Comes(p: P, es: seq<Event>, q: P)
    decreases |es|
  {
    if es == [] then p == q
    else
      && p.state != EndState && ParserSpec.Step(p).Emit? && ParserSpec.Step(p).event == es[0]
      && Comes(ParserSpec.Step(p).next, es[1..], q)
  }

  lemma {:induction false} StepsCome(p: P, es: seq<Event>, q: P)
    requires Steps(p, es, q)
    ensures Comes(p, es, q)
    decreases |es|
  {
    hide ParserSpec.Step;
    if es != [] {
      StepsCome(ParserSpec.Step(p).next, es[1..], q);
    }
  }

  lemma {:induction false} ComesThen(p: P, es: seq<Event>, q: P, fs: seq<Event>, r: P)
    requires Comes(p, es, q) && Comes(q, fs, r)
    ensures Comes(p, es + fs, r)
    decreases |es|
  {
    hide ParserSpec.Step;
    if es == [] {
      assert es + fs == fs;
    } else {
      assert (es + fs)[1..] == es[1..] + fs;
      ComesThen(ParserSpec.Step(p).next, es[1..], q, fs, r);
    }
  }

  lemma ComesFirst(p: P, fs: seq<Event>, r: P)
    requires p.state != EndState && ParserSpec.Step(p).Emit? && Comes(ParserSpec.Step(p).next, fs, r)
    ensures Comes(p, [ParserSpec.Step(p).event] + fs, r)
  {
    hide ParserSpec.Step;
    assert ([ParserSpec.Step(p).event] + fs)[1..] == fs;
  }

  ghost predicate Strays(p: P) {
    exists es, q :: Comes(p, es, q) && Lost(q)
  }

  ghost predicate ResultStrays(r: Result) {
    !r.Emit? || Strays(r.next)
  }

  lemma LostStrays(p: P)
    requires Lost(p)
    ensures Strays(p)
  {
    assert Comes(p, [], p);
  }

  lemma StepsStray(p: P, es: seq<Event>, q: P)
    requires Steps(p, es, q) && Strays(q)
    ensures Strays(p)
  {
    hide Steps, Comes, Lost;
    var fs, r :| Comes(q, fs, r) && Lost(r);
    StepsCome(p, es, q);
    ComesThen(p, es, q, fs, r);
  }

  lemma YieldsStray(r: Result, es: seq<Event>, q: P)
    requires Yields(r, es, q) && Strays(q)
    ensures ResultStrays(r)
  {
    hide Steps;
    StepsStray(r.next, es[1..], q);
  }

  lemma StepStrays(p: P)
    requires p.state != EndState && ResultStrays(ParserSpec.Step(p))
    ensures Strays(p)
  {
    hide ParserSpec.Step, Comes;
    var r := ParserSpec.Step(p);
    if r.Emit? {
      var fs, q :| Comes(r.next, fs, q) && Lost(q);
      ComesFirst(p, fs, q);
    } else {
      LostStrays(p);
    }
  }

  // ---- Nodes ----

  ghost predicate Printed(n: Tree, p: P, tail: seq<Token>, block: bool, indentless: bool) {
    Shaped(n, block, indentless, p.tagDirectives) && p.tokens == Print(n, tail) && Follows(tail, indentless)
  }

  lemma {:induction false} NodeStrays(n: Tree, p: P, tail: seq<Token>, block: bool, indentless: bool)
    requires Printed(n, p, tail, block, indentless) && !Read(n) && p.states != []
    ensures ResultStrays(ParseNode(p, block, indentless))
    decreases n, 2
  {
    hide Strays, ParseNode, PropTokens, TagMeant, GoodProps;
    hide PrintItems, PrintEntries, PrintFirst, ShapedItems, ShapedEntries, ReadItems, ReadBlockEntries, ReadSequence, ReadMapping;
    hide SequenceOf, MappingOf;
    match n
    case BlockSequence(props, items) =>
      var body := [BlockSequenceStartToken] + PrintItems(items, [BlockEndToken] + tail);
      CollectionDispatch(props, p, body, block, indentless);
      BlockSequenceStrays(items, Past(p, body), tail);
    case IndentlessSequence(props, items) =>
      var body := PrintItems(items, tail);
      ItemsHead(items, tail);
      CollectionDispatch(props, p, body, block, indentless);
      ItemsStray(items, Past(p, body).To(IndentlessSequenceEntryState), tail);
    case BlockMapping(props, entries) =>
      var body := [BlockMappingStartToken] + PrintEntries(entries, [BlockEndToken] + tail);
      CollectionDispatch(props, p, body, block, indentless);
      BlockMappingStrays(entries, Past(p, body), tail);
    case FlowSequence(props, entries, trailing) =>
      var body := [FlowSequenceStartToken] + PrintFirst(entries, trailing, [FlowSequenceEndToken] + tail);
      CollectionDispatch(props, p, body, block, indentless);
      FlowSequenceStrays(entries, trailing, Past(p, body), tail);
    case FlowMapping(props, entries, trailing) =>
      var body := [FlowMappingStartToken] + PrintFirst(entries, trailing, [FlowMappingEndToken] + tail);
      CollectionDispatch(props, p, body, block, indentless);
      FlowMappingStrays(entries, trailing, Past(p, body), tail);
    case _ =>
  }

  lemma {:induction false} DueStrays(n: Tree, p: P, tail: seq<Token>, t: ParserState, block: bool, indentless: bool)
    requires Printed(n, p, tail, block, indentless) && !Read(n)
    ensures ResultStrays(DueResult(n, p, t, block, indentless))
    decreases n, 3
  {
    hide Strays, ParseNode, Print, Shaped, ResultStrays;
    NodeStrays(n, p.Push(t), tail, block, indentless);
  }

  // ---- Block sequences ----

  lemma {:induction false} BlockSequenceStrays(items: seq<Tree>, p: P, tail: seq<Token>)
    requires ShapedItems(items, p.tagDirectives) && !ReadItems(items)
    requires p.tokens == [BlockSequenceStartToken] + PrintItems(items, [BlockEndToken] + tail)
    ensures Strays(p.To(BlockSequenceFirstEntryState))
    decreases items, 1
  {
    hide Strays, ParserSpec.Step, PrintItems, ShapedItems, ReadItems;
    SkipTo(p, BlockSequenceStartToken, PrintItems(items, [BlockEndToken] + tail));
    var q := p.Mark().Skip().To(BlockSequenceEntryState);
    ItemsStray(items, q, [BlockEndToken] + tail);
    FirstBlockEntry(p);
    SameStrays(p.To(BlockSequenceFirstEntryState), q);
  }

  lemma SameStrays(p: P, q: P)
    requires p.state != EndState && q.state != EndState && ParserSpec.Step(p) == ParserSpec.Step(q)
    requires Strays(q) && q.state != FlowSequenceEntryMappingKeyState
    ensures Strays(p)
  {
    hide ParserSpec.Step;
    var es, r :| Comes(q, es, r) && Lost(r);
    if es == [] {
      LostStrays(p);
    } else {
      assert Comes(p, es, r);
    }
  }

  lemma {:induction false} ItemsStray(items: seq<Tree>, p: P, tail: seq<Token>)
    requires ShapedItems(items, p.tagDirectives) && !ReadItems(items)
    requires p.state == BlockSequenceEntryState || p.state == IndentlessSequenceEntryState
    requires p.tokens == PrintItems(items, tail) && tail != [] && StopsItem(p.state, tail[0])
    ensures Strays(p)
    decreases items, 0
  {
    hide Strays, Print, Shaped, Read, Steps, StopsItem, ParserSpec.Step;
    var rest := PrintItems(items[1..], tail);
    RestHead(items[1..], p.state, tail);
    if Read(items[0]) {
      ItemStep(items[0], p, rest);
      ItemsStray(items[1..], Past(p, rest), tail);
      StepsStray(p, Events(items[0], p), Past(p, rest));
    } else {
      ItemStrays(items[0], p, rest);
    }
  }

  lemma RestHead(items: seq<Tree>, s: ParserState, tail: seq<Token>)
    requires tail != [] && StopsItem(s, tail[0])
    ensures PrintItems(items, tail) != [] && StopsItem(s, PrintItems(items, tail)[0])
  {
  }

  lemma {:induction false} ItemStrays(n: Tree, p: P, rest: seq<Token>)
    requires p.state == BlockSequenceEntryState || p.state == IndentlessSequenceEntryState
    requires Shaped(n, true, false, p.tagDirectives) && !Read(n)
    requires p.tokens == [BlockEntryToken] + Print(n, rest) && rest != [] && StopsItem(p.state, rest[0])
    ensures Strays(p)
    decreases n, 4
  {
    hide Print, Shaped, Read, Strays, ParserSpec.Step, DueResult, ResultStrays;
    SkipTo(p, BlockEntryToken, Print(n, rest));
    NodeHead(n, rest, true, false, p.tagDirectives);
    DueStrays(n, p.Skip(), rest, p.state, true, false);
    ItemDispatch(n, p);
    StepStrays(p);
  }

  // ---- Pairs ----

  ghost predicate PairPrinted(e: Entry, p: P, tail: seq<Token>, kind: Kind) {
    && ShapedEntry(e, kind.BlockPair?, p.tagDirectives)
    && tail != [] && ClosesPair(kind, tail[0]) && (!e.valued ==> !tail[0].ValueToken?)
  }

  lemma OmittedIsRead()
    ensures Read(Omitted)
  {
  }

  lemma {:induction false} ValueStrays(e: Entry, p: P, tail: seq<Token>, kind: Kind)
    requires PairPrinted(e, p, tail, kind) && !Read(e.value)
    requires p.tokens == PrintValue(e, tail) && p.state == ValueState(kind)
    ensures Strays(p)
    decreases e, 0
  {
    hide Print, Shaped, Read, Strays, ResultStrays, ParserSpec.Step, DueResult, ClosesPair, Follows, NextState, ValueState;
    OmittedIsRead();
    SkipTo(p, ValueToken, Print(e.value, tail));
    NodeHead(e.value, tail, kind.BlockPair?, kind.BlockPair?, p.tagDirectives);
    ClosedPairFollows(kind, tail);
    DueStrays(e.value, p.Skip(), tail, NextState(kind), kind.BlockPair?, kind.BlockPair?);
    ValueDispatch(e, p, kind);
    NotEnd(kind);
    StepStrays(p);
  }

  lemma {:induction false} PairStrays(e: Entry, p: P, tail: seq<Token>, kind: Kind)
    requires PairPrinted(e, p, tail, kind) && !ReadEntry(e) && p.tokens == Print(e.key, PrintValue(e, tail))
    ensures ResultStrays(DueResult(e.key, p, ValueState(kind), kind.BlockPair?, kind.BlockPair?))
    decreases e, 1
  {
    hide Print, Shaped, Read, Steps, Yields, Strays, ResultStrays, DueResult, ClosesPair, Follows, NextState, ValueState, PrintValue;
    var b := kind.BlockPair?;
    var rest := PrintValue(e, tail);
    KeyFollows(e, tail, kind);
    if Read(e.key) {
      DueParsed(e.key, p, rest, ValueState(kind), b, b);
      var q := Past(p, rest).To(ValueState(kind));
      ValueStrays(e, q, tail, kind);
      YieldsStray(DueResult(e.key, p, ValueState(kind), b, b), Events(e.key, p), q);
    } else {
      DueStrays(e.key, p, rest, ValueState(kind), b, b);
    }
  }

  // ---- Block mappings ----

  lemma {:induction false} BlockMappingStrays(es: seq<Entry>, p: P, tail: seq<Token>)
    requires ShapedEntries(es, true, p.tagDirectives) && !ReadBlockEntries(es)
    requires p.tokens == [BlockMappingStartToken] + PrintEntries(es, [BlockEndToken] + tail)
    ensures Strays(p.To(BlockMappingFirstKeyState))
    decreases es, 1
  {
    hide Strays, ParserSpec.Step, PrintEntries, ShapedEntries, ReadBlockEntries;
    SkipTo(p, BlockMappingStartToken, PrintEntries(es, [BlockEndToken] + tail));
    var q := p.Mark().Skip().To(BlockMappingKeyState);
    EntriesStray(es, q, tail);
    FirstBlockEntry(p);
    SameStrays(p.To(BlockMappingFirstKeyState), q);
  }

  lemma {:induction false} EntriesStray(es: seq<Entry>, p: P, tail: seq<Token>)
    requires ShapedEntries(es, true, p.tagDirectives) && !ReadBlockEntries(es)
    requires p.tokens == PrintEntries(es, [BlockEndToken] + tail) && p.state == BlockMappingKeyState
    ensures Strays(p)
    decreases es, 0
  {
    hide Strays, Print, Shaped, Read, Steps, ParserSpec.Step, FlattenPair, PairMeant, PrintValue, PrintEntry, ShapedEntry, ReadEntry;
    var ds := p.tagDirectives;
    var rest := PrintEntries(es[1..], [BlockEndToken] + tail);
    EntriesHead(es[1..], !es[0].valued, ds, [BlockEndToken] + tail);
    if !es[0].keyed {
      ValueWithoutKey(es[0], p, rest);
    } else if ReadEntry(es[0]) {
      EntryStep(es[0], p, rest);
      EntriesStray(es[1..], Past(p, rest), tail);
      StepsStray(p, FlattenPair(PairMeant(es[0], ds)), Past(p, rest));
    } else {
      EntryStrays(es[0], p, rest);
    }
  }

  /** The code wants a KEY in front of every VALUE. */
  lemma ValueWithoutKey(e: Entry, p: P, rest: seq<Token>)
    requires ShapedEntry(e, true, p.tagDirectives) && !e.keyed
    requires p.tokens == PrintEntry(e, rest) && p.state == BlockMappingKeyState
    ensures Strays(p)
  {
    hide Strays, Shaped;
    OmittedPrint(PrintValue(e, rest));
    hide Print;
    assert p.tokens[0].ValueToken?;
    LostStrays(p);
  }

  lemma {:induction false} EntryStrays(e: Entry, p: P, rest: seq<Token>)
    requires PairPrinted(e, p, rest, BlockPair) && e.keyed && !ReadEntry(e)
    requires p.tokens == PrintEntry(e, rest) && p.state == BlockMappingKeyState
    ensures Strays(p)
    decreases e, 2
  {
    hide Print, Shaped, Read, Strays, ResultStrays, ParserSpec.Step, DueResult, PrintValue;
    KeyFollows(e, rest, BlockPair);
    var tail := PrintValue(e, rest);
    SkipTo(p, KeyToken, Print(e.key, tail));
    NodeHead(e.key, tail, true, true, p.tagDirectives);
    PairStrays(e, p.Skip(), rest, BlockPair);
    EntryDispatch(e, p);
    StepStrays(p);
  }

  // ---- Flow mappings ----

  lemma {:induction false} FlowMappingStrays(es: seq<Entry>, trailing: bool, p: P, tail: seq<Token>)
    requires ShapedEntries(es, false, p.tagDirectives) && !ReadMapping(es)
    requires p.tokens == [FlowMappingStartToken] + PrintFirst(es, trailing, [FlowMappingEndToken] + tail)
    ensures Strays(p.To(FlowMappingFirstKeyState))
    decreases es, 1
  {
    hide FlattenPair, PairMeant, Print, Shaped, Read, Steps, Yields, Strays, ResultStrays, ParserSpec.Step;
    hide PrintEntry, PrintValue, PrintMore, ShapedEntry, ReadEntry, FlowMappingItem;
    var close := [FlowMappingEndToken] + tail;
    var q := p.Mark().Skip();
    SkipTo(p, FlowMappingStartToken, PrintFirst(es, trailing, close));
    var rest := PrintMore(es[1..], trailing, close);
    MoreHead(es[1..], trailing, close);
    MappingItemHead(es[0], q, rest);
    FirstMappingItem(p);
    ItemsIgnoreState(q, FlowMappingFirstKeyState);
    if ReadEntry(es[0]) {
      MappingItem(es[0], q, rest);
      var r := Past(q, rest).To(FlowMappingKeyState);
      MappingMoreStrays(es[1..], trailing, r, tail);
      YieldsStray(FlowMappingItem(q), FlattenPair(PairMeant(es[0], q.tagDirectives)), r);
    } else {
      MappingItemStrays(es[0], q, rest);
    }
    StepStrays(p.To(FlowMappingFirstKeyState));
  }

  lemma MappingItemHead(e: Entry, p: P, rest: seq<Token>)
    requires ShapedEntry(e, false, p.tagDirectives) && rest != [] && p.tokens == PrintEntry(e, rest)
    ensures p.tokens != [] && !p.Head().FlowMappingEndToken? && !p.Head().FlowSequenceEndToken?
    ensures p.Head().KeyToken? || Starts(p.Head(), false)
  {
    hide Print, Shaped;
    NodeHead(e.key, PrintValue(e, rest), false, false, p.tagDirectives);
  }

  lemma {:induction false} MappingMoreStrays(es: seq<Entry>, trailing: bool, p: P, tail: seq<Token>)
    requires ShapedEntries(es, false, p.tagDirectives) && !ReadMapping(es)
    requires p.tokens == PrintMore(es, trailing, [FlowMappingEndToken] + tail) && p.state == FlowMappingKeyState
    ensures Strays(p)
    decreases es, 0
  {
    hide FlattenPair, PairMeant, Print, Shaped, Read, Steps, Yields, Strays, ResultStrays, ParserSpec.Step;
    hide PrintEntry, PrintValue, ShapedEntry, ReadEntry, FlowMappingItem;
    var close := [FlowMappingEndToken] + tail;
    var rest := PrintMore(es[1..], trailing, close);
    MoreHead(es[1..], trailing, close);
    if ReadEntry(es[0]) {
      MappingStep(es[0], p, rest);
      MappingMoreStrays(es[1..], trailing, Past(p, rest), tail);
      StepsStray(p, FlattenPair(PairMeant(es[0], p.tagDirectives)), Past(p, rest));
    } else {
      SkipTo(p, FlowEntryToken, PrintEntry(es[0], rest));
      AfterComma(p);
      MappingItemStrays(es[0], p.Skip(), rest);
      StepStrays(p);
    }
  }

  lemma {:induction false} MappingItemStrays(e: Entry, p: P, rest: seq<Token>)
    requires PairPrinted(e, p, rest, FlowPair) && !ReadEntry(e) && p.tokens == PrintEntry(e, rest)
    ensures ResultStrays(FlowMappingItem(p))
    decreases e, 2
  {
    hide Print, Shaped, Read, Strays, ResultStrays, PrintValue, DueResult, FlowMappingItem;
    var tail := PrintValue(e, rest);
    KeyFollows(e, rest, FlowPair);
    NodeHead(e.key, tail, false, false, p.tagDirectives);
    if e.keyed {
      SkipTo(p, KeyToken, Print(e.key, tail));
      MappingItemDispatch(e, p);
      PairStrays(e, p.Skip(), rest, FlowPair);
    } else {
      OmittedIsRead();
      NoValue(e, rest);
      MappingItemDispatch(e, p);
      DueStrays(e.key, p, rest, FlowMappingEmptyValueState, false, false);
    }
  }

  // ---- Flow sequences ----

  lemma {:induction false} FlowSequenceStrays(es: seq<Entry>, trailing: bool, p: P, tail: seq<Token>)
    requires ShapedEntries(es, false, p.tagDirectives) && !ReadSequence(es, trailing)
    requires p.tokens == [FlowSequenceStartToken] + PrintFirst(es, trailing, [FlowSequenceEndToken] + tail)
    ensures Strays(p.To(FlowSequenceFirstEntryState))
    decreases es, 1
  {
    hide Flatten, ItemMeant, Print, Shaped, Read, Steps, Yields, Strays, ResultStrays, ParserSpec.Step;
    hide PrintEntry, PrintValue, PrintMore, ShapedEntry, ReadEntry, FlowSequenceItem, BadPair;
    var close := [FlowSequenceEndToken] + tail;
    var q := p.Mark().Skip();
    SkipTo(p, FlowSequenceStartToken, PrintFirst(es, trailing, close));
    MoreHead(es[1..], trailing, close);
    MappingItemHead(es[0], q, PrintMore(es[1..], trailing, close));
    FirstSequenceItem(p);
    ItemsIgnoreState(q, FlowSequenceFirstEntryState);
    if ReadEntry(es[0]) && !BadPair(es[0], |es| == 1, trailing) {
      var comma := SequenceItem(es[0], es[1..], trailing, q, tail);
      var r := Past(q, PrintMore(es[1..], comma, close)).To(FlowSequenceEntryState);
      NotReadRest(es[1..], trailing, comma);
      SequenceMoreStrays(es[1..], comma, r, tail);
      YieldsStray(FlowSequenceItem(q), Flatten(ItemMeant(es[0], q.tagDirectives)), r);
    } else {
      SequenceItemStrays(es[0], es[1..], trailing, q, tail);
    }
    StepStrays(p.To(FlowSequenceFirstEntryState));
  }

  lemma NotReadRest(es: seq<Entry>, trailing: bool, comma: bool)
    requires !ReadSequence(es, trailing) && (comma == trailing || es == [])
    ensures !ReadSequence(es, comma)
  {
  }

  lemma {:induction false} SequenceMoreStrays(es: seq<Entry>, trailing: bool, p: P, tail: seq<Token>)
    requires ShapedEntries(es, false, p.tagDirectives) && !ReadSequence(es, trailing)
    requires p.tokens == PrintMore(es, trailing, [FlowSequenceEndToken] + tail) && p.state == FlowSequenceEntryState
    ensures Strays(p)
    decreases es, 0
  {
    hide Flatten, ItemMeant, Print, Shaped, Read, Steps, Yields, Strays, ResultStrays, ParserSpec.Step;
    hide PrintEntry, PrintValue, ShapedEntry, ReadEntry, FlowSequenceItem, BadPair;
    var close := [FlowSequenceEndToken] + tail;
    if ReadEntry(es[0]) && !BadPair(es[0], |es| == 1, trailing) {
      var comma := SequenceStep(es[0], es[1..], trailing, p, tail);
      var r := Past(p, PrintMore(es[1..], comma, close));
      NotReadRest(es[1..], trailing, comma);
      SequenceMoreStrays(es[1..], comma, r, tail);
      StepsStray(p, Flatten(ItemMeant(es[0], p.tagDirectives)), r);
    } else {
      SkipTo(p, FlowEntryToken, PrintEntry(es[0], PrintMore(es[1..], trailing, close)));
      AfterComma(p);
      SequenceItemStrays(es[0], es[1..], trailing, p.Skip(), tail);
      StepStrays(p);
    }
  }

  lemma {:induction false} SequenceItemStrays(e: Entry, es: seq<Entry>, trailing: bool, p: P, tail: seq<Token>)
    requires ShapedEntry(e, false, p.tagDirectives) && ShapedEntries(es, false, p.tagDirectives)
    requires !ReadEntry(e) || BadPair(e, es == [], trailing)
    requires p.tokens == PrintEntry(e, PrintMore(es, trailing, [FlowSequenceEndToken] + tail))
    ensures ResultStrays(FlowSequenceItem(p))
    decreases e, 4
  {
    hide Print, Shaped, Read, Strays, PrintValue, PrintMore, DueResult, FlowSequenceItem, ShapedEntries;
    var close := [FlowSequenceEndToken] + tail;
    var rest := PrintMore(es, trailing, close);
    MoreHead(es, trailing, close);
    KeyFollows(e, rest, SinglePair);
    NodeHead(e.key, PrintValue(e, rest), false, false, p.tagDirectives);
    OmittedIsRead();
    if !e.keyed {
      NoValue(e, rest);
      SequenceItemDispatch(e, p);
      DueStrays(e.key, p, rest, FlowSequenceEntryState, false, false);
    } else {
      SkipTo(p, KeyToken, Print(e.key, PrintValue(e, rest)));
      SequenceItemDispatch(e, p);
      var q := p.Skip().To(FlowSequenceEntryMappingKeyState);
      if e.key.Omitted? {
        OmittedPrint(PrintValue(e, rest));
        BadPairStrays(e, q, es, trailing, tail);
      } else {
        PresentKeyStrays(e, q, rest);
      }
    }
  }

  lemma {:induction false} PresentKeyStrays(e: Entry, q: P, rest: seq<Token>)
    requires PairPrinted(e, q, rest, SinglePair) && !e.key.Omitted? && !ReadEntry(e)
    requires q.tokens == Print(e.key, PrintValue(e, rest)) && q.state == FlowSequenceEntryMappingKeyState
    ensures Strays(q)
    decreases e, 2
  {
    hide Print, Shaped, Read, Strays, ResultStrays, ParserSpec.Step, PrintValue, DueResult;
    KeyFollows(e, rest, SinglePair);
    NodeHead(e.key, PrintValue(e, rest), false, false, q.tagDirectives);
    PairStrays(e, q, rest, SinglePair);
    KeyDispatch(e, q);
    StepStrays(q);
  }

  /** A key is missing, and the token skipped for it is missed later. */
  lemma BadPairStrays(e: Entry, q: P, es: seq<Entry>, trailing: bool, tail: seq<Token>)
    requires BadPair(e, es == [], trailing) && q.state == FlowSequenceEntryMappingKeyState
    requires ShapedEntry(e, false, q.tagDirectives) && ShapedEntries(es, false, q.tagDirectives)
    requires q.tokens == PrintValue(e, PrintMore(es, trailing, [FlowSequenceEndToken] + tail))
    ensures Strays(q)
  {
    hide Strays, Shaped, Print;
    var close := [FlowSequenceEndToken] + tail;
    var rest := PrintMore(es, trailing, close);
    MoreHead(es, trailing, close);
    if e.valued {
      NodeHead(e.value, rest, false, false, q.tagDirectives);
      SkipTo(q, ValueToken, Print(e.value, rest));
      ContentLeftOver(q);
    } else if es == [] {
      assert q.Head().FlowSequenceEndToken?;
      LostStrays(q);
    } else {
      var more := PrintMore(es[1..], trailing, close);
      SkipTo(q, FlowEntryToken, PrintEntry(es[0], more));
      MoreHead(es[1..], trailing, close);
      MappingItemHead(es[0], q.Skip(), more);
      ContentLeftOver(q);
    }
  }

  lemma ContentLeftOver(q: P)
    requires q.state == FlowSequenceEntryMappingKeyState && |q.tokens| >= 2
    requires q.tokens[0].ValueToken? || q.tokens[0].FlowEntryToken?
    requires Starts(q.tokens[1], false) || q.tokens[1].KeyToken?
    ensures Strays(q)
  {
    hide Strays;
    var v := q.Skip().To(FlowSequenceEntryMappingValueState);
    var m := q.Skip().To(FlowSequenceEntryMappingEndState);
    var s := q.Skip().To(FlowSequenceEntryState);
    LeftOverSteps(q, v, m, s);
    hide ParserSpec.Step;
    LostStrays(s);
    StepStrays(m);
    StepStrays(v);
    StepStrays(q);
  }

  lemma LeftOverSteps(q: P, v: P, m: P, s: P)
    requires q.state == FlowSequenceEntryMappingKeyState && |q.tokens| >= 2
    requires q.tokens[0].ValueToken? || q.tokens[0].FlowEntryToken?
    requires Starts(q.tokens[1], false) || q.tokens[1].KeyToken?
    requires v == q.Skip().To(FlowSequenceEntryMappingValueState) && m == q.Skip().To(FlowSequenceEntryMappingEndState)
    requires s == q.Skip().To(FlowSequenceEntryState)
    ensures ParserSpec.Step(q) == Emit(NULL_SCALAR, v) && ParserSpec.Step(v) == Emit(NULL_SCALAR, m)
    ensures ParserSpec.Step(m) == Emit(MappingEnd, s) && Lost(s)
  {
    hide ParseNode;
  }

  // ---- Printed tokens are balanced ----

  /** `r` is `tail` with tokens in front that hold `b` more ']' than '[', and no STREAM-END. */
  ghost predicate Ahead(r: seq<Token>, tail: seq<Token>, b: int) {
    && |tail| <= |r| && r[|r| - |tail|..] == tail
    && Brackets(r) == Brackets(tail) + b && Stops(r) == Stops(tail)
  }

  lemma AheadHere(tail: seq<Token>)
    ensures Ahead(tail, tail, 0)
  {
  }

  lemma AheadOne(k: Token, tail: seq<Token>)
    requires !k.StreamEndToken?
    ensures Ahead([k] + tail, tail, Bracket(k))
  {
    assert ([k] + tail)[1..] == tail;
  }

  lemma AheadThen(r: seq<Token>, m: seq<Token>, tail: seq<Token>, a: int, b: int)
    requires Ahead(r, m, a) && Ahead(m, tail, b)
    ensures Ahead(r, tail, a + b)
  {
    hide Brackets, Stops;
    assert r[|r| - |m|..][|m| - |tail|..] == r[|r| - |tail|..];
  }

  /** One more token in front. */
  lemma AheadMore(k: Token, r: seq<Token>, tail: seq<Token>, b: int)
    requires !k.StreamEndToken? && Ahead(r, tail, b)
    ensures Ahead([k] + r, tail, Bracket(k) + b)
  {
    hide Ahead;
    AheadOne(k, r);
    AheadThen([k] + r, r, tail, Bracket(k), b);
  }

  lemma PropsAhead(props: Props, r: seq<Token>, tail: seq<Token>, b: int)
    requires Ahead(r, tail, b)
    ensures Ahead(PropTokens(props, r), tail, b)
  {
    hide Ahead;
    var a := AnchorToken(props.anchor);
    if props.tag.NoTag? {
      AheadMore(a, r, tail, b);
      assert PropTokens(props, r) == if props.anchor == [] then r else [a] + r;
    } else {
      var t := TagToken(props.tag.handle, props.tag.suffix);
      AheadMore(a, r, tail, b);
      AheadMore(t, r, tail, b);
      AheadMore(a, [t] + r, tail, b);
      AheadMore(t, [a] + r, tail, b);
      assert PropTokens(props, r) == if props.anchor == [] then [t] + r
                                     else if props.tagFirst then [t] + ([a] + r) else [a] + ([t] + r);
    }
  }

  lemma {:induction false} PrintAhead(n: Tree, tail: seq<Token>)
    ensures Ahead(Print(n, tail), tail, 0)
    decreases n, 2
  {
    hide Ahead, PropTokens, PrintItems, PrintEntries, PrintFirst;
    AheadHere(tail);
    match n
    case Omitted =>
    case AliasTree(name) => AheadOne(AliasToken(name), tail);
    case ScalarTree(props, value, style) =>
      AheadOne(ScalarToken(value, style), tail);
      PropsAhead(props, [ScalarToken(value, style)] + tail, tail, 0);
    case EmptyTree(props) => PropsAhead(props, tail, tail, 0);
    case BlockSequence(props, items) =>
      var body := PrintItems(items, [BlockEndToken] + tail);
      AheadOne(BlockEndToken, tail);
      ItemsAhead(items, [BlockEndToken] + tail);
      AheadThen(body, [BlockEndToken] + tail, tail, 0, 0);
      AheadMore(BlockSequenceStartToken, body, tail, 0);
      PropsAhead(props, [BlockSequenceStartToken] + body, tail, 0);
    case IndentlessSequence(props, items) =>
      ItemsAhead(items, tail);
      PropsAhead(props, PrintItems(items, tail), tail, 0);
    case BlockMapping(props, entries) =>
      var body := PrintEntries(entries, [BlockEndToken] + tail);
      AheadOne(BlockEndToken, tail);
      EntriesAhead(entries, [BlockEndToken] + tail);
      AheadThen(body, [BlockEndToken] + tail, tail, 0, 0);
      AheadMore(BlockMappingStartToken, body, tail, 0);
      PropsAhead(props, [BlockMappingStartToken] + body, tail, 0);
    case FlowSequence(props, entries, trailing) =>
      var body := PrintFirst(entries, trailing, [FlowSequenceEndToken] + tail);
      AheadOne(FlowSequenceEndToken, tail);
      FirstAhead(entries, trailing, [FlowSequenceEndToken] + tail);
      AheadThen(body, [FlowSequenceEndToken] + tail, tail, 0, 1);
      AheadMore(FlowSequenceStartToken, body, tail, 1);
      PropsAhead(props, [FlowSequenceStartToken] + body, tail, 0);
    case FlowMapping(props, entries, trailing) =>
      var body := PrintFirst(entries, trailing, [FlowMappingEndToken] + tail);
      AheadOne(FlowMappingEndToken, tail);
      FirstAhead(entries, trailing, [FlowMappingEndToken] + tail);
      AheadThen(body, [FlowMappingEndToken] + tail, tail, 0, 0);
      AheadMore(FlowMappingStartToken, body, tail, 0);
      PropsAhead(props, [FlowMappingStartToken] + body, tail, 0);
  }

  lemma {:induction false} ItemsAhead(items: seq<Tree>, tail: seq<Token>)
    ensures Ahead(PrintItems(items, tail), tail, 0)
    decreases items, 0
  {
    hide Ahead, Print;
    AheadHere(tail);
    if items != [] {
      var rest := PrintItems(items[1..], tail);
      ItemsAhead(items[1..], tail);
      PrintAhead(items[0], rest);
      AheadThen(Print(items[0], rest), rest, tail, 0, 0);
      AheadMore(BlockEntryToken, Print(items[0], rest), tail, 0);
    }
  }

  lemma {:induction false} EntryAhead(e: Entry, tail: seq<Token>)
    ensures Ahead(PrintEntry(e, tail), tail, 0)
    decreases e, 0
  {
    hide Ahead, Print;
    AheadHere(tail);
    var rest := PrintValue(e, tail);
    if e.valued {
      PrintAhead(e.value, tail);
      AheadMore(ValueToken, Print(e.value, tail), tail, 0);
    }
    PrintAhead(e.key, rest);
    AheadThen(Print(e.key, rest), rest, tail, 0, 0);
    AheadMore(KeyToken, Print(e.key, rest), tail, 0);
  }

  lemma {:induction false} EntriesAhead(es: seq<Entry>, tail: seq<Token>)
    ensures Ahead(PrintEntries(es, tail), tail, 0)
    decreases es, 0
  {
    hide Ahead, PrintEntry;
    AheadHere(tail);
    if es != [] {
      var rest := PrintEntries(es[1..], tail);
      EntriesAhead(es[1..], tail);
      EntryAhead(es[0], rest);
      AheadThen(PrintEntry(es[0], rest), rest, tail, 0, 0);
    }
  }

  lemma {:induction false} FirstAhead(es: seq<Entry>, trailing: bool, tail: seq<Token>)
    ensures Ahead(PrintFirst(es, trailing, tail), tail, 0)
    decreases es, 1
  {
    hide Ahead, PrintEntry, PrintMore;
    AheadHere(tail);
    if es != [] {
      var rest := PrintMore(es[1..], trailing, tail);
      MoreAhead(es[1..], trailing, tail);
      EntryAhead(es[0], rest);
      AheadThen(PrintEntry(es[0], rest), rest, tail, 0, 0);
    }
  }

  lemma {:induction false} MoreAhead(es: seq<Entry>, trailing: bool, tail: seq<Token>)
    ensures Ahead(PrintMore(es, trailing, tail), tail, 0)
    decreases es, 0
  {
    hide Ahead, PrintEntry;
    AheadHere(tail);
    AheadOne(FlowEntryToken, tail);
    if es != [] {
      var rest := PrintMore(es[1..], trailing, tail);
      MoreAhead(es[1..], trailing, tail);
      EntryAhead(es[0], rest);
      AheadThen(PrintEntry(es[0], rest), rest, tail, 0, 0);
      AheadMore(FlowEntryToken, PrintEntry(es[0], rest), tail, 0);
    }
  }

  lemma {:induction false} RepeatAhead(n: nat, tail: seq<Token>)
    ensures Ahead(Repeat(DocumentEndToken, n, tail), tail, 0)
  {
    hide Ahead;
    AheadHere(tail);
    if n > 0 {
      RepeatAhead(n - 1, tail);
      AheadMore(DocumentEndToken, Repeat(DocumentEndToken, n - 1, tail), tail, 0);
    }
  }

  lemma {:induction false} DirectivesAhead(ks: seq<Token>, tail: seq<Token>)
    requires forall i | 0 <= i < |ks| :: IsDirective(ks[i])
    ensures Ahead(ks + tail, tail, 0)
    decreases |ks|
  {
    hide Ahead;
    AheadHere(tail);
    if ks == [] {
      assert ks + tail == tail;
    } else {
      assert IsDirective(ks[0]) && forall i | 0 <= i < |ks| - 1 :: ks[1..][i] == ks[i + 1];
      DirectivesAhead(ks[1..], tail);
      AheadMore(ks[0], ks[1..] + tail, tail, 0);
      assert ks + tail == [ks[0]] + (ks[1..] + tail);
    }
  }

  lemma DocumentAhead(d: DocumentTree, tail: seq<Token>)
    requires ShapedDocument(d)
    ensures Ahead(PrintDocument(d, tail), tail, 0)
  {
    hide Ahead, Print, Repeat, Shaped;
    var ends := Repeat(DocumentEndToken, d.ends, tail);
    var body := Print(d.root, ends);
    RepeatAhead(d.ends, tail);
    PrintAhead(d.root, ends);
    AheadThen(body, ends, tail, 0, 0);
    if d.explicit {
      AheadMore(DocumentStartToken, body, tail, 0);
      DirectivesAhead(d.directives, [DocumentStartToken] + body);
      AheadThen(PrintDocument(d, tail), [DocumentStartToken] + body, tail, 0, 0);
    }
  }

  lemma {:induction false} DocumentsAhead(ds: seq<DocumentTree>, tail: seq<Token>)
    requires forall i | 0 <= i < |ds| :: ShapedDocument(ds[i])
    ensures Ahead(PrintDocuments(ds, tail), tail, 0)
  {
    hide Ahead, ShapedDocument, PrintDocument;
    AheadHere(tail);
    if ds != [] {
      var rest := PrintDocuments(ds[1..], tail);
      DocumentsAhead(ds[1..], tail);
      DocumentAhead(ds[0], rest);
      AheadThen(PrintDocument(ds[0], rest), rest, tail, 0, 0);
    }
  }

  lemma StreamComplete(ds: seq<DocumentTree>)
    requires ShapedStream(ds)
    ensures var p := Start(PrintStream(ds)); Inv(p) && Complete(p) && Excess(p) == 0
  {
    hide PrintDocuments, ShapedDocument, Inv;
    var tail := [StreamEndToken];
    var r := PrintDocuments(ds, tail);
    DocumentsAhead(ds, tail);
    AheadMore(StreamStartToken, r, tail, 0);
    StartInv(Start(PrintStream(ds)));
    var all := PrintStream(ds);
    assert all[|all| - 1] == all[|all| - 1..][0];
    assert tail[1..] == [];
  }

  // ---- Streams ----

  lemma BodyStrays(d: DocumentTree, p: P, tail: seq<Token>)
    requires Shaped(d.root, true, false, InForce(d)) && !Read(d.root) && tail != [] && BetweenDocuments(tail[0])
    requires p.tokens == Print(d.root, Repeat(DocumentEndToken, d.ends, tail))
    requires p.states == [DocumentEndState] && p.tagDirectives == InForce(d)
    requires p.state == DocumentContentState || p.state == BlockNodeState
    ensures Strays(p)
  {
    hide Print, Shaped, Read, Strays, ResultStrays, ParserSpec.Step, InForce, Repeat, ParseNode;
    var rest := Repeat(DocumentEndToken, d.ends, tail);
    OmittedIsRead();
    RepeatHead(d.ends, tail);
    NodeHead(d.root, rest, true, false, InForce(d));
    RootDispatch(d.root, p, rest);
    NodeStrays(d.root, p, rest, true, false);
    StepStrays(p);
  }

  lemma DocumentStrays(d: DocumentTree, p: P, n: nat, tail: seq<Token>)
    requires ShapedDocument(d) && !Read(d.root) && tail != [] && BetweenDocuments(tail[0])
    requires p.states == [] && p.tagDirectives == []
    requires p.tokens == Repeat(DocumentEndToken, n, PrintDocument(d, tail))
    requires (p.state == DocumentStartState && d.explicit) || (p.state == ImplicitDocumentStartState && n == 0)
    ensures Strays(p)
  {
    hide Print, Shaped, Read, Strays, ParserSpec.Step, WithDefaults, GoodDirectives, DirectiveTags, DirectiveVersion;
    var body := Print(d.root, Repeat(DocumentEndToken, d.ends, tail));
    RepeatHead(d.ends, tail);
    NodeHead(d.root, Repeat(DocumentEndToken, d.ends, tail), true, false, InForce(d));
    if d.explicit {
      ExplicitStart(d.directives, p, n, body);
    } else {
      ImplicitStart(p);
    }
    BodyStrays(d, ParserSpec.Step(p).next, tail);
    StepStrays(p);
  }

  lemma {:induction false} DocumentsStray(ds: seq<DocumentTree>, p: P, n: nat)
    requires ShapedStream(ds) && !ReadStream(ds) && p.states == [] && p.tagDirectives == []
    requires p.tokens == Repeat(DocumentEndToken, n, PrintDocuments(ds, [StreamEndToken]))
    requires if p.state == ImplicitDocumentStartState then n == 0
             else p.state == DocumentStartState && (ds != [] ==> ds[0].explicit)
    ensures Strays(p)
    decreases |ds|
  {
    hide Read, ShapedDocument, Past, Shaped, Steps, Strays, ParserSpec.Step, DocumentEvents, PrintDocument;
    PastEnd(p);
    var tail := PrintDocuments(ds[1..], [StreamEndToken]);
    var d := ds[0];
    DocumentsHead(ds[1..]);
    if Read(d.root) {
      DocumentParsed(d, p, n, tail);
      var q := Past(p, AfterEnd(d.ends, tail)).To(DocumentStartState);
      var k := if d.ends == 0 then 0 else d.ends - 1;
      assert AfterEnd(d.ends, tail) == Repeat(DocumentEndToken, k, tail);
      hide AfterEnd, Repeat, PrintDocuments;
      DocumentsStray(ds[1..], q, k);
      StepsStray(p, DocumentEvents(d), q);
    } else {
      DocumentStrays(d, p, n, tail);
    }
  }

  lemma {:induction false} StepsAccount(p: P, es: seq<Event>, q: P)
    requires Inv(p) && Complete(p) && Comes(p, es, q)
    ensures Inv(q) && Complete(q) && Excess(q) <= Excess(p) && ParseAll(p).ended == ParseAll(q).ended
    decreases |es|
  {
    hide ParserSpec.Step, Inv, Complete, Excess, ParseAll;
    if es != [] {
      RunStep(p);
      StepAccounts(p);
      CompleteStep(p);
      StepsAccount(ParserSpec.Step(p).next, es[1..], q);
    }
  }

  lemma StrayRunFails(p: P)
    requires Inv(p) && Complete(p) && Excess(p) <= 0 && Strays(p)
    ensures !ParseAll(p).ended
  {
    hide Inv, Complete, Excess, Comes, ParserSpec.Step, ParseAll;
    var es, q :| Comes(p, es, q) && Lost(q);
    StepsAccount(p, es, q);
    LostRunFails(q);
  }

  lemma LostRunFails(q: P)
    requires Inv(q) && Complete(q) && Excess(q) <= 0 && Lost(q)
    ensures !ParseAll(q).ended
  {
    hide Inv, Complete, Excess;
    if !ParserSpec.Step(q).Emit? {
      hide ParserSpec.Step;
      NoEventNoEnd(q);
    } else {
      ClosingSkipped(q);
      hide ParserSpec.Step, Potential, ParseAll;
      StepSound(q);
      CompleteStep(q);
      RunStep(q);
      ShortRunFails(ParserSpec.Step(q).next);
    }
  }

  lemma NoEventNoEnd(q: P)
    requires Inv(q) && q.state != EndState && !ParserSpec.Step(q).Emit?
    ensures !ParseAll(q).ended
  {
    hide Inv, ParserSpec.Step, Potential;
    StepSound(q);
  }

  lemma ClosingSkipped(q: P)
    requires q.state == FlowSequenceEntryMappingKeyState && q.tokens != [] && q.Head().FlowSequenceEndToken?
    ensures ParserSpec.Step(q).Emit? && Excess(ParserSpec.Step(q).next) == Excess(q) - 1
  {
    hide AllHeld;
    Skipped(q);
  }

  /** The printed tokens of a stream are parsed into its events, to the end and without error, if
      and only if no single pair of a flow sequence lacks its key in a harmful way and no entry of
      a block mapping has a VALUE without a KEY. */
  lemma ParsesExactlyIfRead(ds: seq<DocumentTree>)
    requires ShapedStream(ds)
    ensures Inv(Start(PrintStream(ds)))
    ensures ParseAll(Start(PrintStream(ds))) == Parsed(FlattenStream(StreamMeant(ds)), true) <==> ReadStream(ds)
    ensures !ReadStream(ds) ==> !ParseAll(Start(PrintStream(ds))).ended
  {
    hide ReadStream, ShapedStream, Inv, ParseAll, PrintDocuments, FlattenStream, StreamMeant, Complete, Excess, Strays, ParserSpec.Step;
    StreamComplete(ds);
    if ReadStream(ds) {
      Inverse(ds);
    } else {
      var p := Start(PrintStream(ds));
      SkipTo(p, StreamStartToken, PrintDocuments(ds, [StreamEndToken]));
      DocumentsStray(ds, p.To(ImplicitDocumentStartState).Skip(), 0);
      StreamStartStep(p);
      StepStrays(p);
      StrayRunFails(p);
    }
  }

  lemma StreamStartStep(p: P)
    requires p.state == StreamStartState && p.tokens != [] && p.Head().StreamStartToken?
    ensures ParserSpec.Step(p) == Emit(StreamStart, p.To(ImplicitDocumentStartState).Skip())
  {
  }

  // ---- Where the condition fails ----

  const NONE: Props := Props([], NoTag, false)

  const X: Tree := ScalarTree(NONE, [0x78], Plain)

  /** '[? : x]' */
  const EMPTY_KEY: Tree := FlowSequence(NONE, [Entry(true, Omitted, true, X)], false)

  /** ': x' */
  const NO_KEY: Tree := BlockMapping(NONE, [Entry(false, Omitted, true, X)])

  function Alone(root: Tree): seq<DocumentTree> {
    [DocumentTree(true, [], root, 0)]
  }

  /** What a document with nothing but its root is printed as, and what it takes to be one. */
  lemma AloneIs(root: Tree)
    ensures PrintStream(Alone(root)) == [StreamStartToken, DocumentStartToken] + Print(root, [StreamEndToken])
    ensures ShapedStream(Alone(root)) <==> Shaped(root, true, false, WithDefaults([]))
    ensures ReadStream(Alone(root)) <==> Read(root)
  {
    hide Print, Shaped, Read;
    var ds := Alone(root);
    assert ds[1..] == [];
    assert PrintDocuments([], [StreamEndToken]) == [StreamEndToken];
    assert Repeat(DocumentEndToken, 0, [StreamEndToken]) == [StreamEndToken];
    assert [] + ([DocumentStartToken] + Print(root, [StreamEndToken])) == [DocumentStartToken] + Print(root, [StreamEndToken]);
    assert DirectiveTags([]) == [];
  }

  lemma XPrinted(tail: seq<Token>)
    ensures Print(X, tail) == [ScalarToken([0x78], Plain)] + tail
    ensures forall block, ds :: Shaped(X, block, block, ds)
  {
    assert [] + [] + ([ScalarToken([0x78], Plain)] + tail) == [ScalarToken([0x78], Plain)] + tail;
  }

  /** A single pair without a key: the code skips the VALUE, takes 'x' for no value of the pair, and
      does not get to the end of the stream. */
  lemma EmptyKeyIsNotParsed()
    ensures ShapedStream(Alone(EMPTY_KEY)) && Inv(Start(PrintStream(Alone(EMPTY_KEY))))
    ensures PrintStream(Alone(EMPTY_KEY))
         == [StreamStartToken, DocumentStartToken, FlowSequenceStartToken, KeyToken, ValueToken, ScalarToken([0x78], Plain),
             FlowSequenceEndToken, StreamEndToken]
    ensures !ParseAll(Start(PrintStream(Alone(EMPTY_KEY)))).ended
  {
    AloneIs(EMPTY_KEY);
    EmptyKeyTree();
    hide ShapedStream, ReadStream, PrintStream, Print, Shaped, Read, Inv, ParseAll;
    ParsesExactlyIfRead(Alone(EMPTY_KEY));
  }

  lemma EmptyKeyTree()
    ensures Shaped(EMPTY_KEY, true, false, WithDefaults([])) && !Read(EMPTY_KEY)
    ensures Print(EMPTY_KEY, [StreamEndToken])
         == [FlowSequenceStartToken, KeyToken, ValueToken, ScalarToken([0x78], Plain), FlowSequenceEndToken, StreamEndToken]
  {
    var ds := WithDefaults([]);
    var es := EMPTY_KEY.entries;
    var close := [FlowSequenceEndToken, StreamEndToken];
    XPrinted(close);
    hide Print, Shaped, WithDefaults;
    assert es[1..] == [];
    assert ShapedEntries([], false, ds);
    OmittedIs(close, ds);
    assert ShapedEntry(es[0], false, ds);
    assert ShapedEntries(es, false, ds);
    assert PrintMore([], false, close) == close;
    FlowSequenceIs(es, ds, [StreamEndToken]);
    assert PrintValue(es[0], close) == [ValueToken] + ([ScalarToken([0x78], Plain)] + close);
    OmittedIs(PrintValue(es[0], close), ds);
    assert PrintEntry(es[0], close) == [KeyToken] + PrintValue(es[0], close);
    assert BadPair(es[0], true, false);
  }

  lemma OmittedIs(tail: seq<Token>, ds: seq<TagDirective>)
    ensures Print(Omitted, tail) == tail && forall block, indentless :: Shaped(Omitted, block, indentless, ds)
  {
  }

  lemma FlowSequenceIs(es: seq<Entry>, ds: seq<TagDirective>, tail: seq<Token>)
    ensures var n := FlowSequence(NONE, es, false);
            && Print(n, tail) == [FlowSequenceStartToken] + PrintFirst(es, false, [FlowSequenceEndToken] + tail)
            && (ShapedEntries(es, false, ds) ==> Shaped(n, true, false, ds))
  {
    hide PrintFirst, ShapedEntries;
    var t := [FlowSequenceStartToken] + PrintFirst(es, false, [FlowSequenceEndToken] + tail);
    assert [] + [] + t == t;
  }

  lemma BlockMappingIs(es: seq<Entry>, ds: seq<TagDirective>, tail: seq<Token>)
    ensures var n := BlockMapping(NONE, es);
            && Print(n, tail) == [BlockMappingStartToken] + PrintEntries(es, [BlockEndToken] + tail)
            && (ShapedEntries(es, true, ds) ==> Shaped(n, true, false, ds))
  {
    hide PrintEntries, ShapedEntries;
    var t := [BlockMappingStartToken] + PrintEntries(es, [BlockEndToken] + tail);
    assert [] + [] + t == t;
  }

  /** A VALUE without a KEY in a block mapping, which the documented grammar has, is an error. */
  lemma ValueAloneIsNotParsed()
    ensures ShapedStream(Alone(NO_KEY)) && Inv(Start(PrintStream(Alone(NO_KEY))))
    ensures PrintStream(Alone(NO_KEY))
         == [StreamStartToken, DocumentStartToken, BlockMappingStartToken, ValueToken, ScalarToken([0x78], Plain), BlockEndToken,
             StreamEndToken]
    ensures !ParseAll(Start(PrintStream(Alone(NO_KEY)))).ended
  {
    AloneIs(NO_KEY);
    NoKeyTree();
    hide ShapedStream, ReadStream, PrintStream, Print, Shaped, Read, Inv, ParseAll;
    ParsesExactlyIfRead(Alone(NO_KEY));
  }

  lemma NoKeyTree()
    ensures Shaped(NO_KEY, true, false, WithDefaults([])) && !Read(NO_KEY)
    ensures Print(NO_KEY, [StreamEndToken])
         == [BlockMappingStartToken, ValueToken, ScalarToken([0x78], Plain), BlockEndToken, StreamEndToken]
  {
    var ds := WithDefaults([]);
    var es := NO_KEY.entries;
    var close := [BlockEndToken, StreamEndToken];
    XPrinted(close);
    hide Print, Shaped, WithDefaults;
    assert es[1..] == [];
    assert ShapedEntries([], true, ds);
    OmittedIs(close, ds);
    assert ShapedEntry(es[0], true, ds);
    assert ShapedEntries(es, true, ds);
    assert PrintEntries([], close) == close;
    BlockMappingIs(es, ds, [StreamEndToken]);
    assert PrintValue(es[0], close) == [ValueToken] + ([ScalarToken([0x78], Plain)] + close);
    OmittedIs(PrintValue(es[0], close), ds);
    assert PrintEntry(es[0], close) == PrintValue(es[0], close);
  }
}
