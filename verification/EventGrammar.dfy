/** Events, and what a well-bracketed stream of them is: a pushdown recognizer that takes one
    event at a time, and the trees whose flattenings it accepts. */
module EventGrammar {
  import opened Utf8

  type Text = seq<Byte>

  datatype ScalarStyle = AnyStyle | Plain | SingleQuoted | DoubleQuoted | Literal | Folded

  datatype CollectionStyle = AnyCollection | Block | Flow

  datatype TagDirective = TagDirective(handle: Text, prefix: Text)

  datatype Version = NoVersion | Version(major: int, minor: int)

  /** yaml_event_t. An empty anchor or tag is an absent one. */
  datatype Event =
    | StreamStart
    | StreamEnd
    | DocumentStart(version: Version, tagDirectives: seq<TagDirective>, implicit: bool)
    | DocumentEnd(implicit: bool)
    | Alias(anchor: Text)
    | Scalar(anchor: Text, tag: Text, value: Text, implicit: bool, quotedImplicit: bool, style: ScalarStyle)
    | SequenceStart(anchor: Text, tag: Text, implicit: bool, layout: CollectionStyle)
    | SequenceEnd
    | MappingStart(anchor: Text, tag: Text, implicit: bool, layout: CollectionStyle)
    | MappingEnd

  // ---- The recognizer ----

  /** An open construct: a document before and after its root node, a sequence, a mapping
      before a key and before a value. */
  datatype Frame = Root | Rooted | InSequence | BeforeKey | BeforeValue

  datatype State = Before | Open(stack: seq<Frame>) | After | Rejected

  predicate TakesNode(f: Frame) {
    f != Rooted
  }

  /** The frame once a node has been put into it. */
  function Advance(f: Frame): Frame {
    match f
    case Root => Rooted
    case Rooted => Rooted
    case InSequence => InSequence
    case BeforeKey => BeforeValue
    case BeforeValue => BeforeKey
  }

  function Filled(s: seq<Frame>): seq<Frame>
    requires s != []
  {
    s[..|s| - 1] + [Advance(s[|s| - 1])]
  }

  function Step(g: State, e: Event): State {
    match g
    case Before => if e.StreamStart? then Open([]) else Rejected
    case After => Rejected
    case Rejected => Rejected
    case Open(s) =>
      if s == [] then
        if e.DocumentStart? then Open([Root]) else if e.StreamEnd? then After else Rejected
      else
        var top := s[|s| - 1];
        match e
        case StreamStart => Rejected
        case StreamEnd => Rejected
        case DocumentStart(_, _, _) => Rejected
        case DocumentEnd(_) => if top == Rooted then Open(s[..|s| - 1]) else Rejected
        case SequenceEnd => if top == InSequence then Open(s[..|s| - 1]) else Rejected
        case MappingEnd => if top == BeforeKey then Open(s[..|s| - 1]) else Rejected
        case Alias(_) => if TakesNode(top) then Open(Filled(s)) else Rejected
        case Scalar(_, _, _, _, _, _) => if TakesNode(top) then Open(Filled(s)) else Rejected
        case SequenceStart(_, _, _, _) => if TakesNode(top) then Open(Filled(s) + [InSequence]) else Rejected
        case MappingStart(_, _, _, _) => if TakesNode(top) then Open(Filled(s) + [BeforeKey]) else Rejected
  }

  function Run(g: State, es: seq<Event>): State
    decreases |es|
  {
    if es == [] then g else Run(Step(g, es[0]), es[1..])
  }

  lemma {:induction false} RunConcat(g: State, es: seq<Event>, fs: seq<Event>)
    ensures Run(g, es + fs) == Run(Run(g, es), fs)
    decreases |es|
  {
    if es == [] {
      assert es + fs == fs;
    } else {
      assert (es + fs)[1..] == es[1..] + fs;
      RunConcat(Step(g, es[0]), es[1..], fs);
    }
  }

  lemma RunNothing(g: State)
    ensures Run(g, []) == g
  {
  }

  lemma RunOne(g: State, e: Event)
    ensures Run(g, [e]) == Step(g, e)
  {
    assert [e][1..] == [];
  }

  lemma {:induction false} RejectedForever(es: seq<Event>)
    ensures Run(Rejected, es) == Rejected
  {
    if es != [] {
      RejectedForever(es[1..]);
    }
  }

  // ---- Trees ----

  /** A node: an alias or a scalar event, or a collection with its start event. */
  datatype Node =
    | Leaf(event: Event)
    | Sequence(start: Event, items: seq<Node>)
    | Mapping(start: Event, pairs: seq<Pair>)

  datatype Pair = Pair(key: Node, value: Node)

  datatype Document = Document(start: Event, root: Node, end: Event)

  predicate WellFormed(n: Node) {
    match n
    case Leaf(e) => e.Alias? || e.Scalar?
    case Sequence(s, items) => s.SequenceStart? && forall i | 0 <= i < |items| :: WellFormed(items[i])
    case Mapping(s, pairs) =>
      s.MappingStart? && forall i | 0 <= i < |pairs| :: WellFormed(pairs[i].key) && WellFormed(pairs[i].value)
  }

  function Flatten(n: Node): seq<Event>
    decreases n, 0
  {
    match n
    case Leaf(e) => [e]
    case Sequence(s, items) => [s] + FlattenItems(items) + [SequenceEnd]
    case Mapping(s, pairs) => [s] + FlattenPairs(pairs) + [MappingEnd]
  }

  function FlattenItems(items: seq<Node>): seq<Event>
    decreases items, 0
  {
    if items == [] then [] else Flatten(items[0]) + FlattenItems(items[1..])
  }

  function FlattenPairs(pairs: seq<Pair>): seq<Event>
    decreases pairs, 0
  {
    if pairs == [] then [] else FlattenPair(pairs[0]) + FlattenPairs(pairs[1..])
  }

  function FlattenPair(p: Pair): seq<Event>
    decreases p, 0
  {
    Flatten(p.key) + Flatten(p.value)
  }

  predicate WellFormedDocument(d: Document) {
    d.start.DocumentStart? && WellFormed(d.root) && d.end.DocumentEnd?
  }

  function FlattenDocuments(ds: seq<Document>): seq<Event> {
    if ds == [] then [] else [ds[0].start] + Flatten(ds[0].root) + [ds[0].end] + FlattenDocuments(ds[1..])
  }

  function FlattenStream(ds: seq<Document>): seq<Event> {
    [StreamStart] + FlattenDocuments(ds) + [StreamEnd]
  }

  ghost predicate WellFormedStream(ds: seq<Document>) {
    forall i | 0 <= i < |ds| :: WellFormedDocument(ds[i])
  }

  // ---- Accepted event sequences are exactly the flattenings ----

  predicate StartsNode(e: Event) {
    e.Alias? || e.Scalar? || e.SequenceStart? || e.MappingStart?
  }

  /** A node goes into the innermost open construct. */
  lemma {:induction false} AcceptsNode(n: Node, s: seq<Frame>)
    requires WellFormed(n) && s != [] && TakesNode(s[|s| - 1])
    ensures Run(Open(s), Flatten(n)) == Open(Filled(s))
    decreases n, 1
  {
    hide Run;
    match n
    case Leaf(e) =>
      RunOne(Open(s), e);
    case Sequence(e, items) =>
      var t := Filled(s) + [InSequence];
      AcceptsItems(items, t);
      RunOne(Open(s), e);
      RunConcat(Open(s), [e], FlattenItems(items));
      RunConcat(Open(s), [e] + FlattenItems(items), [SequenceEnd]);
      RunOne(Open(t), SequenceEnd);
      assert t[..|t| - 1] == Filled(s);
    case Mapping(e, pairs) =>
      var t := Filled(s) + [BeforeKey];
      AcceptsPairs(pairs, t);
      RunOne(Open(s), e);
      RunConcat(Open(s), [e], FlattenPairs(pairs));
      RunConcat(Open(s), [e] + FlattenPairs(pairs), [MappingEnd]);
      RunOne(Open(t), MappingEnd);
      assert t[..|t| - 1] == Filled(s);
  }

  lemma {:induction false} AcceptsItems(items: seq<Node>, s: seq<Frame>)
    requires forall i | 0 <= i < |items| :: WellFormed(items[i])
    requires s != [] && s[|s| - 1] == InSequence
    ensures Run(Open(s), FlattenItems(items)) == Open(s)
    decreases items, 0
  {
    hide Run;
    if items == [] {
      RunNothing(Open(s));
    } else {
      AcceptsNode(items[0], s);
      assert Filled(s) == s;
      AcceptsItems(items[1..], s);
      RunConcat(Open(s), Flatten(items[0]), FlattenItems(items[1..]));
    }
  }

  lemma {:induction false} AcceptsPairs(pairs: seq<Pair>, s: seq<Frame>)
    requires forall i | 0 <= i < |pairs| :: WellFormed(pairs[i].key) && WellFormed(pairs[i].value)
    requires s != [] && s[|s| - 1] == BeforeKey
    ensures Run(Open(s), FlattenPairs(pairs)) == Open(s)
    decreases pairs, 0
  {
    hide Run;
    if pairs == [] {
      RunNothing(Open(s));
    } else {
      AcceptsPair(pairs[0], s);
      AcceptsPairs(pairs[1..], s);
      RunConcat(Open(s), FlattenPair(pairs[0]), FlattenPairs(pairs[1..]));
    }
  }

  lemma {:induction false} AcceptsPair(p: Pair, s: seq<Frame>)
    requires WellFormed(p.key) && WellFormed(p.value)
    requires s != [] && s[|s| - 1] == BeforeKey
    ensures Run(Open(s), FlattenPair(p)) == Open(s)
    decreases p, 0
  {
    hide Run;
    AcceptsNode(p.key, s);
    AcceptsNode(p.value, Filled(s));
    assert Filled(Filled(s)) == s;
    RunConcat(Open(s), Flatten(p.key), Flatten(p.value));
  }

  lemma {:induction false} AcceptsDocuments(ds: seq<Document>)
    requires WellFormedStream(ds)
    ensures Run(Open([]), FlattenDocuments(ds)) == Open([])
  {
    hide Run;
    if ds == [] {
      RunNothing(Open([]));
    } else {
      var d := ds[0];
      assert WellFormedDocument(d);
      RunOne(Open([]), d.start);
      RunConcat(Open([]), [d.start], Flatten(d.root));
      AcceptsNode(d.root, [Root]);
      assert Filled([Root]) == [Rooted];
      RunConcat(Open([]), [d.start] + Flatten(d.root), [d.end]);
      RunOne(Open([Rooted]), d.end);
      AcceptsDocuments(ds[1..]);
      RunConcat(Open([]), [d.start] + Flatten(d.root) + [d.end], FlattenDocuments(ds[1..]));
    }
  }

  /** Every stream of documents with one root each is accepted. */
  lemma AcceptsStream(ds: seq<Document>)
    requires WellFormedStream(ds)
    ensures Run(Before, FlattenStream(ds)) == After
  {
    hide Run;
    AcceptsDocuments(ds);
    RunOne(Before, StreamStart);
    RunConcat(Before, [StreamStart], FlattenDocuments(ds));
    RunConcat(Before, [StreamStart] + FlattenDocuments(ds), [StreamEnd]);
    RunOne(Open([]), StreamEnd);
  }

  /** An accepted sequence cannot stop inside a construct, and goes on from its first event. */
  lemma Unfold(g: State, es: seq<Event>)
    requires Run(g, es) == After && g != After
    ensures es != [] && Step(g, es[0]) != Rejected && Run(Step(g, es[0]), es[1..]) == After
  {
    if es != [] {
      RejectedForever(es[1..]);
    }
  }

  lemma {:induction false} NodeOf(s: seq<Frame>, es: seq<Event>) returns (n: Node, rest: seq<Event>)
    requires s != [] && Run(Open(s), es) == After && es != [] && StartsNode(es[0])
    ensures WellFormed(n) && es == Flatten(n) + rest && |rest| < |es| && Run(Open(Filled(s)), rest) == After
    decreases |es|, 0
  {
    hide Run;
    Unfold(Open(s), es);
    var e := es[0];
    if e.SequenceStart? {
      var items;
      items, rest := ItemsOf(Filled(s), es[1..]);
      n := Sequence(e, items);
      assert es == [e] + (FlattenItems(items) + [SequenceEnd] + rest);
    } else if e.MappingStart? {
      var pairs;
      pairs, rest := PairsOf(Filled(s), es[1..]);
      n := Mapping(e, pairs);
      assert es == [e] + (FlattenPairs(pairs) + [MappingEnd] + rest);
    } else {
      n, rest := Leaf(e), es[1..];
    }
  }

  lemma {:induction false} ItemsOf(s: seq<Frame>, es: seq<Event>) returns (items: seq<Node>, rest: seq<Event>)
    requires Run(Open(s + [InSequence]), es) == After
    ensures forall i | 0 <= i < |items| :: WellFormed(items[i])
    ensures es == FlattenItems(items) + [SequenceEnd] + rest && |rest| < |es| && Run(Open(s), rest) == After
    decreases |es|, 1
  {
    hide Run;
    var t := s + [InSequence];
    Unfold(Open(t), es);
    assert t[..|t| - 1] == s;
    if es[0].SequenceEnd? {
      items, rest := [], es[1..];
      assert es == [] + [SequenceEnd] + rest;
    } else {
      var n, more := NodeOf(t, es);
      assert Filled(t) == t;
      items, rest := ItemsOf(s, more);
      assert ([n] + items)[1..] == items;
      assert es == (Flatten(n) + FlattenItems(items)) + [SequenceEnd] + rest;
      items := [n] + items;
    }
  }

  lemma {:induction false} PairsOf(s: seq<Frame>, es: seq<Event>) returns (pairs: seq<Pair>, rest: seq<Event>)
    requires Run(Open(s + [BeforeKey]), es) == After
    ensures forall i | 0 <= i < |pairs| :: WellFormed(pairs[i].key) && WellFormed(pairs[i].value)
    ensures es == FlattenPairs(pairs) + [MappingEnd] + rest && |rest| < |es| && Run(Open(s), rest) == After
    decreases |es|, 1
  {
    hide Run;
    var t := s + [BeforeKey];
    Unfold(Open(t), es);
    assert t[..|t| - 1] == s;
    if es[0].MappingEnd? {
      pairs, rest := [], es[1..];
      assert es == [] + [MappingEnd] + rest;
    } else {
      var k, more := NodeOf(t, es);
      var u := Filled(t);
      assert u == s + [BeforeValue];
      Unfold(Open(u), more);
      var v, more' := NodeOf(u, more);
      assert Filled(u) == t;
      pairs, rest := PairsOf(s, more');
      assert ([Pair(k, v)] + pairs)[1..] == pairs;
      assert es == (FlattenPair(Pair(k, v)) + FlattenPairs(pairs)) + [MappingEnd] + rest;
      pairs := [Pair(k, v)] + pairs;
    }
  }

  lemma {:induction false} DocumentsOf(es: seq<Event>) returns (ds: seq<Document>)
    requires Run(Open([]), es) == After
    ensures WellFormedStream(ds) && es == FlattenDocuments(ds) + [StreamEnd]
    decreases |es|
  {
    hide Run;
    Unfold(Open([]), es);
    if es[0].StreamEnd? {
      NothingAfter(es[1..]);
      ds := [];
      assert es == [] + [StreamEnd];
    } else {
      var d, rest := DocumentOf(es);
      ds := DocumentsOf(rest);
      assert ([d] + ds)[1..] == ds;
      assert es == ([d.start] + Flatten(d.root) + [d.end] + FlattenDocuments(ds)) + [StreamEnd];
      assert WellFormedDocument(d);
      ds := [d] + ds;
    }
  }

  lemma {:induction false} DocumentOf(es: seq<Event>) returns (d: Document, rest: seq<Event>)
    requires es != [] && es[0].DocumentStart? && Run(Open([Root]), es[1..]) == After
    ensures WellFormedDocument(d) && |rest| < |es| && Run(Open([]), rest) == After
    ensures es == [d.start] + Flatten(d.root) + [d.end] + rest
  {
    hide Run;
    Unfold(Open([Root]), es[1..]);
    var n, more := NodeOf([Root], es[1..]);
    assert Filled([Root]) == [Rooted];
    Unfold(Open([Rooted]), more);
    assert [Rooted][..0] == [];
    d := Document(es[0], n, more[0]);
    rest := more[1..];
    assert more == [more[0]] + rest;
  }

  lemma NothingAfter(es: seq<Event>)
    requires Run(After, es) == After
    ensures es == []
  {
    if es != [] {
      RejectedForever(es[1..]);
    }
  }

  /** The recognizer accepts exactly the flattenings of streams of well-formed documents. */
  lemma AcceptedIffFlattening(es: seq<Event>)
    ensures Run(Before, es) == After <==> exists ds :: WellFormedStream(ds) && es == FlattenStream(ds)
  {
    hide Run;
    if Run(Before, es) == After {
      Unfold(Before, es);
      var ds := DocumentsOf(es[1..]);
      assert es == [StreamStart] + (FlattenDocuments(ds) + [StreamEnd]);
      assert es == FlattenStream(ds);
    }
    forall ds | WellFormedStream(ds) && es == FlattenStream(ds)
      ensures Run(Before, es) == After
    {
      AcceptsStream(ds);
    }
  }

  // ---- Every sequence that was not rejected can be completed ----

  const NULL_SCALAR := Scalar([], [], [], true, false, Plain)

  /** The shortest events that close the innermost construct. */
  function Close(f: Frame): seq<Event> {
    match f
    case Root => [NULL_SCALAR, DocumentEnd(true)]
    case Rooted => [DocumentEnd(true)]
    case InSequence => [SequenceEnd]
    case BeforeKey => [MappingEnd]
    case BeforeValue => [NULL_SCALAR, MappingEnd]
  }

  function CloseAll(s: seq<Frame>): seq<Event> {
    if s == [] then [StreamEnd] else Close(s[|s| - 1]) + CloseAll(s[..|s| - 1])
  }

  lemma ClosesOne(s: seq<Frame>)
    requires s != []
    ensures Run(Open(s), Close(s[|s| - 1])) == Open(s[..|s| - 1])
  {
    hide Run;
    var c := Close(s[|s| - 1]);
    RunOne(Open(s), c[0]);
    if |c| == 2 {
      var t := Filled(s);
      assert t[..|t| - 1] == s[..|s| - 1];
      assert c == [c[0]] + [c[1]];
      RunConcat(Open(s), [c[0]], [c[1]]);
      RunOne(Open(t), c[1]);
    }
  }

  lemma {:induction false} Closes(s: seq<Frame>)
    ensures Run(Open(s), CloseAll(s)) == After
    decreases |s|
  {
    hide Run;
    if s == [] {
      RunOne(Open([]), StreamEnd);
    } else {
      ClosesOne(s);
      Closes(s[..|s| - 1]);
      RunConcat(Open(s), Close(s[|s| - 1]), CloseAll(s[..|s| - 1]));
    }
  }

  /** What the recognizer has not rejected is a prefix of a well-bracketed stream. */
  lemma PrefixOfStream(es: seq<Event>)
    requires Run(Before, es) != Rejected
    ensures exists more, ds :: WellFormedStream(ds) && es + more == FlattenStream(ds)
  {
    hide Run;
    var g := Run(Before, es);
    var more: seq<Event>;
    if g.Open? {
      more := CloseAll(g.stack);
      Closes(g.stack);
    } else if g.Before? {
      more := FlattenStream([]);
      AcceptsStream([]);
    } else {
      more := [];
      RunNothing(After);
    }
    RunConcat(Before, es, more);
    AcceptedIffFlattening(es + more);
  }
}
