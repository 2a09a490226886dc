/** Whole streams: the parser gives back the events of every stream of printed documents. */
module StreamInverse {
  import opened Utf8
  import opened EventGrammar
  import opened ParserSpec
  import opened ParserSoundness
  import opened ParserRuns
  import opened TokenPrinter
  import opened ParserInverse

  // ---- Directives ----

  /** Directives that are good after the tag directives `seen`, and after a version if `versioned`. */
  predicate GoodAfter(ks: seq<Token>, versioned: bool, seen: seq<TagDirective>) {
    && GoodDirectives(ks)
    && (forall i | 0 <= i < |ks| && ks[i].VersionDirectiveToken? :: !versioned)
    && (forall i, j | 0 <= i < |ks| && ks[i].TagDirectiveToken? && 0 <= j < |seen| :: seen[j].handle != ks[i].handle)
  }

  lemma GoodAfterFirst(ks: seq<Token>, versioned: bool, seen: seq<TagDirective>)
    requires ks != []
    ensures GoodAfter(ks, versioned, seen) <==>
              match ks[0]
              case VersionDirectiveToken(major, minor) =>
                !versioned && major == 1 && minor == 1 && GoodAfter(ks[1..], true, seen)
              case TagDirectiveToken(handle, prefix) =>
                !HasHandle(seen, handle) && GoodAfter(ks[1..], versioned, seen + [TagDirective(handle, prefix)])
              case _ => false
  {
    var rest := ks[1..];
    assert forall i | 0 <= i < |rest| :: rest[i] == ks[i + 1];
    assert forall i | 0 < i < |ks| :: ks[i] == rest[i - 1];
    if ks[0].VersionDirectiveToken? {
      VersionFirst(ks, versioned, seen);
    } else if ks[0].TagDirectiveToken? {
      TagFirst(ks, versioned, seen, seen + [TagDirective(ks[0].handle, ks[0].prefix)]);
    }
  }

  lemma VersionFirst(ks: seq<Token>, versioned: bool, seen: seq<TagDirective>)
    requires ks != [] && ks[0].VersionDirectiveToken?
    ensures GoodAfter(ks, versioned, seen) <==>
              !versioned && ks[0].major == 1 && ks[0].minor == 1 && GoodAfter(ks[1..], true, seen)
  {
    var rest := ks[1..];
    assert forall i | 0 <= i < |rest| :: rest[i] == ks[i + 1];
    assert forall i | 0 < i < |ks| :: ks[i] == rest[i - 1];
  }

  lemma TagFirst(ks: seq<Token>, versioned: bool, seen: seq<TagDirective>, more: seq<TagDirective>)
    requires ks != [] && ks[0].TagDirectiveToken? && more == seen + [TagDirective(ks[0].handle, ks[0].prefix)]
    ensures GoodAfter(ks, versioned, seen) <==> !HasHandle(seen, ks[0].handle) && GoodAfter(ks[1..], versioned, more)
  {
    var rest := ks[1..];
    assert forall i | 0 <= i < |rest| :: rest[i] == ks[i + 1];
    assert forall i | 0 < i < |ks| :: ks[i] == rest[i - 1];
    assert more[|seen|].handle == ks[0].handle;
    assert forall j | 0 <= j < |seen| :: more[j] == seen[j];
  }

  lemma {:induction false} DirectivesParsed(ks: seq<Token>, p: P, version: Version, tags: seq<TagDirective>, body: seq<Token>)
    requires GoodAfter(ks, version.Version?, p.tagDirectives)
    requires p.tokens == ks + ([DocumentStartToken] + body)
    ensures ProcessDirectives(p, version, tags)
         == Directives(if version.Version? then version else DirectiveVersion(ks), tags + DirectiveTags(ks),
                       Past(p, [DocumentStartToken] + body).(tagDirectives := WithDefaults(p.tagDirectives + DirectiveTags(ks))))
    decreases |ks|
  {
    var rest := [DocumentStartToken] + body;
    if ks == [] {
      hide WithDefaults, HasHandle, GoodDirectives;
      assert p.tokens == rest;
      assert tags + DirectiveTags(ks) == tags;
      assert p.tagDirectives + DirectiveTags(ks) == p.tagDirectives;
    } else {
      assert p.tokens == [ks[0]] + (ks[1..] + rest);
      SkipTo(p, ks[0], ks[1..] + rest);
      GoodAfterFirst(ks, version.Version?, p.tagDirectives);
      OneDirective(p, version, tags);
      hide WithDefaults, HasHandle, ProcessDirectives, GoodAfter, GoodDirectives;
      match ks[0]
      case VersionDirectiveToken(major, minor) =>
        DirectivesParsed(ks[1..], p.Skip(), Version(major, minor), tags, body);
      case TagDirectiveToken(handle, prefix) =>
        var d := TagDirective(handle, prefix);
        var q := p.(tagDirectives := p.tagDirectives + [d]).Skip();
        DirectivesParsed(ks[1..], q, version, tags + [d], body);
        Regroup(tags, d, DirectiveTags(ks[1..]));
        Regroup(p.tagDirectives, d, DirectiveTags(ks[1..]));
    }
  }

  /** Other directives are refused, whatever follows them. */
  lemma {:induction false} DirectivesRefused(ks: seq<Token>, p: P, version: Version, tags: seq<TagDirective>, rest: seq<Token>)
    requires p.tokens == ks + rest && (forall i | 0 <= i < |ks| :: IsDirective(ks[i]))
    requires !GoodAfter(ks, version.Version?, p.tagDirectives)
    ensures ProcessDirectives(p, version, tags) == BadDirectives
    decreases |ks|
  {
    assert p.tokens == [ks[0]] + (ks[1..] + rest);
    SkipTo(p, ks[0], ks[1..] + rest);
    GoodAfterFirst(ks, version.Version?, p.tagDirectives);
    OneDirective(p, version, tags);
    hide WithDefaults, HasHandle, ProcessDirectives, GoodAfter, GoodDirectives;
    assert IsDirective(ks[0]);
    match ks[0]
    case VersionDirectiveToken(major, minor) =>
      if !version.Version? && major == 1 && minor == 1 {
        DirectivesRefused(ks[1..], p.Skip(), Version(major, minor), tags, rest);
      }
    case TagDirectiveToken(handle, prefix) =>
      var d := TagDirective(handle, prefix);
      if !HasHandle(p.tagDirectives, handle) {
        DirectivesRefused(ks[1..], p.(tagDirectives := p.tagDirectives + [d]).Skip(), version, tags + [d], rest);
      }
  }

  /** A document with other directives is refused. */
  lemma DocumentRefused(ks: seq<Token>, p: P, rest: seq<Token>, implicit: bool)
    requires p.tokens == ks + rest && p.tagDirectives == [] && ks != [] && forall i | 0 <= i < |ks| :: IsDirective(ks[i])
    requires !GoodDirectives(ks)
    ensures ParseDocumentStart(p, implicit) == Error
  {
    hide ProcessDirectives, GoodDirectives;
    assert p.Head() == ks[0] && IsDirective(ks[0]);
    DirectivesRefused(ks, p, NoVersion, [], rest);
  }

  lemma Regroup(a: seq<TagDirective>, d: TagDirective, b: seq<TagDirective>)
    ensures a + [d] + b == a + ([d] + b)
  {
  }

  lemma OneDirective(p: P, version: Version, tags: seq<TagDirective>)
    requires p.tokens != []
    ensures p.Head().VersionDirectiveToken? ==>
              ProcessDirectives(p, version, tags)
              == if !version.Version? && p.Head().major == 1 && p.Head().minor == 1
                 then ProcessDirectives(p.Skip(), Version(1, 1), tags) else BadDirectives
    ensures p.Head().TagDirectiveToken? ==>
              var d := TagDirective(p.Head().handle, p.Head().prefix);
              ProcessDirectives(p, version, tags)
              == if HasHandle(p.tagDirectives, p.Head().handle) then BadDirectives
                 else ProcessDirectives(p.(tagDirectives := p.tagDirectives + [d]).Skip(), version, tags + [d])
  {
    hide WithDefaults, HasHandle;
  }

  lemma {:induction false} EndsSkipped(p: P, n: nat, tail: seq<Token>)
    requires p.tokens == Repeat(DocumentEndToken, n, tail) && tail != [] && !tail[0].DocumentEndToken?
    ensures SkipDocumentEnds(p) == Past(p, tail)
    decreases n
  {
    if n > 0 {
      SkipTo(p, DocumentEndToken, Repeat(DocumentEndToken, n - 1, tail));
      EndsSkipped(p.Skip(), n - 1, tail);
    }
  }

  // ---- One document ----

  /** What can come after a document and its DOCUMENT-END tokens. */
  predicate BetweenDocuments(k: Token) {
    IsDirective(k) || k.DocumentStartToken? || k.StreamEndToken?
  }

  /** The parser between documents. */
  ghost predicate Between(p: P) {
    p.states == [] && p.tagDirectives == [] && p.state == DocumentStartState
  }

  lemma RepeatHead(n: nat, tail: seq<Token>)
    requires tail != [] && BetweenDocuments(tail[0])
    ensures var r := Repeat(DocumentEndToken, n, tail);
            r != [] && Ends(r[0]) && (IsDirective(r[0]) || r[0].DocumentStartToken? || r[0].DocumentEndToken? || r[0].StreamEndToken?)
  {
  }

  /** The tokens left once the first DOCUMENT-END, if any, is skipped. */
  function AfterEnd(ends: nat, tail: seq<Token>): seq<Token> {
    if ends == 0 then tail else Repeat(DocumentEndToken, ends - 1, tail)
  }

  /** The root node and the end of a document. */
  lemma BodyParsed(d: DocumentTree, p: P, tail: seq<Token>)
    requires Shaped(d.root, true, false, InForce(d)) && Read(d.root) && tail != [] && BetweenDocuments(tail[0])
    requires p.tokens == Print(d.root, Repeat(DocumentEndToken, d.ends, tail))
    requires p.states == [DocumentEndState] && p.tagDirectives == InForce(d)
    requires p.state == DocumentContentState || (p.state == BlockNodeState && !d.root.Omitted?)
    ensures |AfterEnd(d.ends, tail)| <= |p.tokens|
    ensures Steps(p, Flatten(Meaning(d.root, InForce(d))) + [DocumentEnd(d.ends == 0)],
                  Past(p, AfterEnd(d.ends, tail)).(state := DocumentStartState, states := [], tagDirectives := []))
  {
    hide Print, Shaped, Read, Meaning, Flatten, Steps, Yields, ParserSpec.Step, InForce, AfterEnd, Repeat, Past, ParseNode;
    RepeatLength(d.ends, tail);
    var rest := Repeat(DocumentEndToken, d.ends, tail);
    var q := Past(p, rest).(state := DocumentEndState, states := []);
    var r := Past(p, AfterEnd(d.ends, tail)).(state := DocumentStartState, states := [], tagDirectives := []);
    RepeatHead(d.ends, tail);
    NodeHead(d.root, rest, true, false, InForce(d));
    RootDispatch(d.root, p, rest);
    PastPast(p, rest, AfterEnd(d.ends, tail));
    if d.root.Omitted? {
      LeafMeant(d.root, InForce(d));
      YieldsOne(NULL_SCALAR, q);
    } else {
      NodeParsed(d.root, p, rest, true, false);
      DoneRoot(p, rest);
    }
    StepYields(p, Flatten(Meaning(d.root, InForce(d))), q);
    EndParsed(q, d.ends, tail);
    StepsThen(p, Flatten(Meaning(d.root, InForce(d))), q, [DocumentEnd(d.ends == 0)], r);
  }

  lemma RepeatLength(n: nat, tail: seq<Token>)
    ensures |AfterEnd(n, tail)| <= |Repeat(DocumentEndToken, n, tail)|
  {
  }

  lemma DoneRoot(p: P, rest: seq<Token>)
    requires p.states == [DocumentEndState] && |rest| <= |p.tokens|
    ensures Done(p, rest) == Past(p, rest).(state := DocumentEndState, states := [])
  {
    assert [DocumentEndState][..0] == [];
  }

  lemma PastPast(p: P, rest: seq<Token>, tail: seq<Token>)
    requires |tail| <= |rest| <= |p.tokens|
    ensures Past(Past(p, rest).(state := DocumentEndState, states := []), tail)
         == Past(p, tail).(state := DocumentEndState, states := [])
    ensures rest == p.tokens ==> Past(p, rest) == p
    ensures Past(p, rest).tokens == rest && Past(p, rest).tagDirectives == p.tagDirectives
  {
  }

  lemma EndParsed(q: P, ends: nat, tail: seq<Token>)
    requires q.state == DocumentEndState && q.tokens == Repeat(DocumentEndToken, ends, tail)
    requires tail != [] && BetweenDocuments(tail[0])
    ensures |AfterEnd(ends, tail)| <= |q.tokens|
    ensures Steps(q, [DocumentEnd(ends == 0)],
                  Past(q, AfterEnd(ends, tail)).(tagDirectives := [], state := DocumentStartState))
  {
    hide Steps, Yields, ParserSpec.Step;
    var r := Past(q, AfterEnd(ends, tail)).(tagDirectives := [], state := DocumentStartState);
    if ends > 0 {
      SkipTo(q, DocumentEndToken, Repeat(DocumentEndToken, ends - 1, tail));
    }
    EndDispatch(q);
    YieldsOne(DocumentEnd(ends == 0), r);
    StepYields(q, [DocumentEnd(ends == 0)], r);
  }

  lemma EndDispatch(q: P)
    requires q.state == DocumentEndState && q.tokens != []
    ensures ParserSpec.Step(q)
         == Emit(DocumentEnd(!q.Head().DocumentEndToken?),
                 (if q.Head().DocumentEndToken? then q.Skip() else q).(tagDirectives := [], state := DocumentStartState))
  {
  }

  lemma RootDispatch(n: Tree, p: P, rest: seq<Token>)
    requires p.states == [DocumentEndState] && p.tokens != [] && |rest| <= |p.tokens|
    requires p.state == DocumentContentState || (p.state == BlockNodeState && !n.Omitted?)
    requires if n.Omitted? then
               && p.tokens == rest
               && (IsDirective(p.Head()) || p.Head().DocumentStartToken? || p.Head().DocumentEndToken? || p.Head().StreamEndToken?)
             else Starts(p.Head(), false)
    ensures ParserSpec.Step(p)
         == if n.Omitted? then Emit(NULL_SCALAR, p.(state := DocumentEndState, states := [])) else ParseNode(p, true, false)
  {
    hide ParseNode;
    assert [DocumentEndState][..0] == [];
  }

  lemma ImplicitStart(p: P)
    requires p.state == ImplicitDocumentStartState && p.states == [] && p.tagDirectives == []
    requires p.tokens != [] && Starts(p.Head(), false)
    ensures ParserSpec.Step(p)
         == Emit(DocumentStart(NoVersion, [], false),
                 p.(state := BlockNodeState, states := [DocumentEndState], tagDirectives := WithDefaults([])))
  {
    hide WithDefaults;
    assert [] + [DocumentEndState] == [DocumentEndState];
  }

  lemma ExplicitStart(ks: seq<Token>, p: P, n: nat, body: seq<Token>)
    requires GoodDirectives(ks) && p.states == [] && p.tagDirectives == []
    requires p.tokens == Repeat(DocumentEndToken, n, ks + ([DocumentStartToken] + body))
    requires p.state == DocumentStartState || (p.state == ImplicitDocumentStartState && n == 0)
    ensures |body| <= |p.tokens|
    ensures ParserSpec.Step(p)
         == Emit(DocumentStart(DirectiveVersion(ks), DirectiveTags(ks), false),
                 Past(p, body).(state := DocumentContentState, states := [DocumentEndState],
                                tagDirectives := WithDefaults(DirectiveTags(ks))))
  {
    hide WithDefaults;
    var rest := ks + ([DocumentStartToken] + body);
    var p1 := Past(p, rest);
    ExplicitHead(ks, body);
    EndsSkipped(p, n, rest);
    DirectivesParsed(ks, p1, NoVersion, [], body);
    assert [] + DirectiveTags(ks) == DirectiveTags(ks);
    SkipTo(Past(p1, [DocumentStartToken] + body), DocumentStartToken, body);
    assert [] + [DocumentEndState] == [DocumentEndState];
    hide GoodDirectives, ProcessDirectives, SkipDocumentEnds, Repeat, DirectiveTags, DirectiveVersion;
  }

  lemma ExplicitHead(ks: seq<Token>, body: seq<Token>)
    requires GoodDirectives(ks)
    ensures var r := ks + ([DocumentStartToken] + body);
            r != [] && (IsDirective(r[0]) || r[0].DocumentStartToken?)
  {
  }

  ghost function DocumentEvents(d: DocumentTree): seq<Event> {
    [DocumentMeant(d).start] + (Flatten(DocumentMeant(d).root) + [DocumentMeant(d).end])
  }

  lemma DocumentParsed(d: DocumentTree, p: P, n: nat, tail: seq<Token>)
    requires ShapedDocument(d) && Read(d.root) && tail != [] && BetweenDocuments(tail[0])
    requires p.states == [] && p.tagDirectives == []
    requires p.tokens == Repeat(DocumentEndToken, n, PrintDocument(d, tail))
    requires (p.state == DocumentStartState && d.explicit) || (p.state == ImplicitDocumentStartState && n == 0)
    ensures |AfterEnd(d.ends, tail)| <= |p.tokens|
    ensures Steps(p, DocumentEvents(d), Past(p, AfterEnd(d.ends, tail)).To(DocumentStartState))
  {
    hide Print, Shaped, Read, Meaning, Flatten, Steps, Yields, ParserSpec.Step, InForce, BetweenDocuments, AfterEnd, Repeat, PrintDocument;
    var body := Print(d.root, Repeat(DocumentEndToken, d.ends, tail));
    var m := DocumentMeant(d);
    DocumentStarts(d, p, n, tail);
    var q := AfterStart(d, p, body);
    BodyParsed(d, q, tail);
    var end := Past(p, AfterEnd(d.ends, tail)).To(DocumentStartState);
    PastStart(d, p, body, AfterEnd(d.ends, tail));
    hide Past, AfterStart, DocumentMeant, ShapedDocument;
    EmitThen(m.start, q, Flatten(m.root) + [m.end], end);
    StepYields(p, DocumentEvents(d), end);
  }

  /** The parser in front of the root of a document. */
  function AfterStart(d: DocumentTree, p: P, body: seq<Token>): P
    requires |body| <= |p.tokens|
  {
    Past(p, body).(state := if d.explicit then DocumentContentState else BlockNodeState,
                   states := [DocumentEndState], tagDirectives := InForce(d))
  }

  lemma PastStart(d: DocumentTree, p: P, body: seq<Token>, rest: seq<Token>)
    requires |rest| <= |body| <= |p.tokens| && p.states == [] && p.tagDirectives == []
    ensures Past(AfterStart(d, p, body), rest).(state := DocumentStartState, states := [], tagDirectives := [])
         == Past(p, rest).To(DocumentStartState)
  {
    hide InForce;
  }

  lemma DocumentStarts(d: DocumentTree, p: P, n: nat, tail: seq<Token>)
    requires ShapedDocument(d) && tail != [] && BetweenDocuments(tail[0])
    requires p.states == [] && p.tagDirectives == []
    requires p.tokens == Repeat(DocumentEndToken, n, PrintDocument(d, tail))
    requires (p.state == DocumentStartState && d.explicit) || (p.state == ImplicitDocumentStartState && n == 0)
    ensures var body := Print(d.root, Repeat(DocumentEndToken, d.ends, tail));
            && |body| <= |p.tokens| && (!d.explicit ==> !d.root.Omitted?)
            && ParserSpec.Step(p) == Emit(DocumentMeant(d).start, AfterStart(d, p, body))
  {
    hide Print, Shaped, Read, Meaning, Flatten, ParserSpec.Step, WithDefaults, GoodDirectives, DirectiveTags, DirectiveVersion;
    var body := Print(d.root, Repeat(DocumentEndToken, d.ends, tail));
    RepeatHead(d.ends, tail);
    NodeHead(d.root, Repeat(DocumentEndToken, d.ends, tail), true, false, InForce(d));
    if d.explicit {
      ExplicitStart(d.directives, p, n, body);
    } else {
      ImplicitStart(p);
    }
  }

  // ---- Whole streams ----

  lemma {:induction false} DocumentsHead(ds: seq<DocumentTree>)
    requires forall i | 0 <= i < |ds| :: ds[i].explicit && ShapedDocument(ds[i])
    ensures var r := PrintDocuments(ds, [StreamEndToken]); r != [] && BetweenDocuments(r[0])
  {

    if ds != [] {
      ExplicitHead(ds[0].directives, Print(ds[0].root, Repeat(DocumentEndToken, ds[0].ends, PrintDocuments(ds[1..], [StreamEndToken]))));
    }
  }

  lemma StreamEnds(p: P, n: nat)
    requires Between(p) || (p.states == [] && p.tagDirectives == [] && p.state == ImplicitDocumentStartState && n == 0)
    requires p.tokens == Repeat(DocumentEndToken, n, [StreamEndToken])
    ensures ParserSpec.Step(p) == Emit(StreamEnd, Past(p, []).To(EndState))
  {
    EndsSkipped(p, n, [StreamEndToken]);
    assert [StreamEndToken] == [StreamEndToken] + [];
    SkipTo(Past(p, [StreamEndToken]), StreamEndToken, []);
  }

  lemma DocumentsFlattened(ds: seq<DocumentTree>, es: seq<Event>)
    requires ds != []
    ensures FlattenDocuments(StreamMeant(ds)) + es == DocumentEvents(ds[0]) + (FlattenDocuments(StreamMeant(ds[1..])) + es)
  {
    hide Flatten, DocumentMeant;
    assert StreamMeant(ds)[1..] == StreamMeant(ds[1..]);
  }

  lemma {:induction false} DocumentsParsed(ds: seq<DocumentTree>, p: P, n: nat)
    requires ShapedStream(ds) && ReadStream(ds) && p.states == [] && p.tagDirectives == []
    requires p.tokens == Repeat(DocumentEndToken, n, PrintDocuments(ds, [StreamEndToken]))
    requires if p.state == ImplicitDocumentStartState then n == 0
             else p.state == DocumentStartState && (ds != [] ==> ds[0].explicit)
    ensures Steps(p, FlattenDocuments(StreamMeant(ds)) + [StreamEnd], Past(p, []).To(EndState))
    decreases |ds|
  {
    hide Read, ShapedDocument, Past, Shaped, Steps, Yields, ParserSpec.Step, FlattenDocuments, DocumentEvents, PrintDocument;
    PastEnd(p);
    if ds == [] {
      StreamEnds(p, n);
      YieldsOne(StreamEnd, Past(p, []).To(EndState));
      StepYields(p, [StreamEnd], Past(p, []).To(EndState));
      NoDocuments();
    } else {
      var tail := PrintDocuments(ds[1..], [StreamEndToken]);
      var d := ds[0];
      DocumentsHead(ds[1..]);
      DocumentParsed(d, p, n, tail);
      var q := Past(p, AfterEnd(d.ends, tail)).To(DocumentStartState);
      var k := if d.ends == 0 then 0 else d.ends - 1;
      assert AfterEnd(d.ends, tail) == Repeat(DocumentEndToken, k, tail);
      hide AfterEnd, Repeat, PrintDocuments;
      DocumentsParsed(ds[1..], q, k);
      StepsThen(p, DocumentEvents(d), q, FlattenDocuments(StreamMeant(ds[1..])) + [StreamEnd], Past(p, []).To(EndState));
      DocumentsFlattened(ds, [StreamEnd]);
    }
  }

  lemma PastEnd(p: P)
    ensures forall rest | |rest| <= |p.tokens| ::
              && Past(p, rest).tokens == rest && Past(p, rest).states == p.states && Past(p, rest).tagDirectives == p.tagDirectives
              && Past(Past(p, rest).To(DocumentStartState), []).To(EndState) == Past(p, []).To(EndState)
  {
  }

  lemma NoDocuments()
    ensures FlattenDocuments(StreamMeant([])) + [StreamEnd] == [StreamEnd]
  {
  }

  lemma RunStep(p: P)
    requires Inv(p) && p.state != EndState && ParserSpec.Step(p).Emit?
    ensures var q := ParserSpec.Step(p).next;
            && Inv(q) && Potential(q) < Potential(p)
            && ParseAll(p) == Parsed([ParserSpec.Step(p).event] + ParseAll(q).events, ParseAll(q).ended)
  {
    hide Inv, ParserSpec.Step, Abs, Potential;
    StepSound(p);
    StepDecreases(p);
  }

  /** A run that has been taken apart into steps. */
  lemma {:induction false} RunOf(p: P, es: seq<Event>, q: P)
    requires Inv(p) && Steps(p, es, q)
    ensures Inv(q) && ParseAll(p) == Parsed(es + ParseAll(q).events, ParseAll(q).ended)
    decreases |es|
  {
    hide Inv, ParserSpec.Step, Abs, ParseAll;
    if es == [] {
      assert es + ParseAll(q).events == ParseAll(q).events;
    } else {
      var r := ParserSpec.Step(p).next;
      RunStep(p);
      RunOf(r, es[1..], q);
      hide ParseAll, Steps, Yields;
      assert es + ParseAll(q).events == [es[0]] + (es[1..] + ParseAll(q).events);
    }
  }

  /** The steps of the parser on a printed stream. */
  lemma StreamSteps(ds: seq<DocumentTree>) returns (end: P)
    requires ShapedStream(ds) && ReadStream(ds)
    ensures Steps(Start(PrintStream(ds)), FlattenStream(StreamMeant(ds)), end) && end.state == EndState
  {
    hide Steps, Yields, ReadStream, ShapedStream, PrintDocuments, StreamMeant, FlattenDocuments, ParserSpec.Step;
    var p := Start(PrintStream(ds));
    var q := p.To(ImplicitDocumentStartState).Skip();
    end := Past(q, []).To(EndState);
    SkipTo(p, StreamStartToken, PrintDocuments(ds, [StreamEndToken]));
    StreamStarts(p);
    DocumentsParsed(ds, q, 0);
    var es := FlattenDocuments(StreamMeant(ds)) + [StreamEnd];
    EmitThen(StreamStart, q, es, end);
    StepYields(p, [StreamStart] + es, end);
    assert FlattenStream(StreamMeant(ds)) == [StreamStart] + es;
  }

  /** The parser inverts the printer: every stream of documents without the entries on which the
      code departs from its grammar comes back as its own events, to the end and without error. */
  lemma Inverse(ds: seq<DocumentTree>)
    requires ShapedStream(ds) && ReadStream(ds)
    ensures Inv(Start(PrintStream(ds)))
    ensures ParseAll(Start(PrintStream(ds))) == Parsed(FlattenStream(StreamMeant(ds)), true)
  {
    hide Steps, ReadStream, ShapedStream, PrintStream, StreamMeant, FlattenStream, Inv, ParseAll, ParserSpec.Step;
    var es := FlattenStream(StreamMeant(ds));
    var end := StreamSteps(ds);
    StartInv(Start(PrintStream(ds)));
    RunOf(Start(PrintStream(ds)), es, end);
    assert es + [] == es;
    NothingAfterEnd(end);
  }

  lemma NothingAfterEnd(p: P)
    requires Inv(p) && p.state == EndState
    ensures ParseAll(p) == Parsed([], true)
  {
  }

  lemma StreamStarts(p: P)
    requires p.state == StreamStartState && p.tokens != [] && p.Head().StreamStartToken?
    ensures ParserSpec.Step(p) == Emit(StreamStart, p.To(ImplicitDocumentStartState).Skip())
  {
  }

  lemma StartInv(p: P)
    requires p.state == StreamStartState && p.states == [] && p.marks == []
    ensures Inv(p)
  {
  }
}
