/** What every call of the parser takes from the token stream: STREAM-END only on entering the
    end state, and a closing ']' for no more than one flow sequence each. */
module ParserAccounts {
  import opened Utf8
  import opened EventGrammar
  import opened ParserSpec
  import opened ParserSoundness
  import opened ParserRuns

  function Stops(ks: seq<Token>): nat {
    if ks == [] then 0 else (if ks[0].StreamEndToken? then 1 else 0) + Stops(ks[1..])
  }

  function Bracket(k: Token): int {
    if k.FlowSequenceEndToken? then 1 else if k.FlowSequenceStartToken? then -1 else 0
  }

  /** Closing less opening brackets of flow sequences. */
  function Brackets(ks: seq<Token>): int {
    if ks == [] then 0 else Bracket(ks[0]) + Brackets(ks[1..])
  }

  /** Whether a state belongs to a flow sequence whose '[' has been skipped. */
  function Held(s: ParserState): nat {
    if s.FlowSequenceEntryState? || s.FlowSequenceEntryMappingKeyState?
       || s.FlowSequenceEntryMappingValueState? || s.FlowSequenceEntryMappingEndState? then 1 else 0
  }

  function AllHeld(ss: seq<ParserState>): nat {
    if ss == [] then 0 else AllHeld(ss[..|ss| - 1]) + Held(ss[|ss| - 1])
  }

  function Debt(p: P): int {
    Brackets(p.tokens) - AllHeld(p.states)
  }

  /** The ']' tokens to come beyond those that the open and coming flow sequences need. */
  function Excess(p: P): int {
    Debt(p) - Held(p.state)
  }

  // ---- One call ----

  function DropTokens(ks: seq<Token>, n: int): seq<Token>
    requires 0 <= n <= |ks|
  {
    ks[n..]
  }

  /** `q` is `p` with some tokens skipped, none of them STREAM-END. */
  predicate Came(p: P, q: P) {
    && p.parsed <= q.parsed <= p.parsed + |p.tokens|
    && q.tokens == DropTokens(p.tokens, q.parsed - p.parsed)
    && Stops(q.tokens) == Stops(p.tokens)
  }

  predicate Accounts(p0: P, bound: int, r: Result) {
    r.Emit? ==>
      var q := r.next;
      && p0.parsed <= q.parsed <= p0.parsed + |p0.tokens|
      && q.tokens == DropTokens(p0.tokens, q.parsed - p0.parsed)
      && Stops(q.tokens) + (if q.state == EndState then 1 else 0) == Stops(p0.tokens)
      && Excess(q) <= bound
  }

  lemma ErrorAccounts(p0: P, bound: int, r: Result)
    requires !r.Emit?
    ensures Accounts(p0, bound, r)
  {
  }

  lemma Skipped(p: P)
    requires p.tokens != []
    ensures Debt(p) == Debt(p.Skip()) + Bracket(p.Head())
    ensures !p.Head().StreamEndToken? ==> Came(p, p.Skip())
  {
  }

  lemma CameThen(p: P, q: P, r: P)
    requires Came(p, q) && Came(q, r)
    ensures Came(p, r)
  {
    assert p.tokens[q.parsed - p.parsed..][r.parsed - q.parsed..] == p.tokens[r.parsed - p.parsed..];
  }

  lemma CameHere(p: P)
    ensures Came(p, p)
  {
  }

  lemma AccountsFrom(p0: P, p: P, a: int, b: int, r: Result)
    requires Came(p0, p) && Accounts(p, a, r) && a <= b
    ensures Accounts(p0, b, r)
  {
    hide Stops, Excess;
    if r.Emit? {
      assert p0.tokens[p.parsed - p0.parsed..][r.next.parsed - p.parsed..] == p0.tokens[r.next.parsed - p0.parsed..];
    }
  }

  lemma PopAccounts(p: P, e: Event)
    requires Waiting(p.states)
    ensures Accounts(p, Debt(p), PopState(p, e)) && Accounts(p, Debt(p), PopBoth(p, e))
  {
    hide Stops, Brackets;
  }

  lemma ToAccounts(p: P, e: Event, s: ParserState)
    requires s != EndState
    ensures Accounts(p, Debt(p) - Held(s), Emit(e, p.To(s)))
  {
    hide Stops, Brackets, AllHeld;
  }

  lemma PropertiesCome(p: P)
    ensures var r := ReadProperties(p);
            r.Properties? ==>
              Came(p, r.next) && Debt(r.next) == Debt(p) && r.next.states == p.states && r.next.tokens != []
  {
    hide Debt, Came, DropTokens;
    CameHere(p);
    if p.tokens != [] && (p.Head().AnchorToken? || p.Head().TagToken?) {
      Skipped(p);
      var q := p.Skip();
      if q.tokens != [] && (q.Head().AnchorToken? || q.Head().TagToken?) {
        Skipped(q);
        CameThen(p, q, q.Skip());
      }
    }
  }

  lemma NoContentAccounts(p: P, anchor: Text, tag: Text)
    requires Waiting(p.states)
    ensures Accounts(p, Debt(p), NoContent(p, anchor, tag))
  {
    hide Accounts, Debt, PopState, Waiting, DropTokens;
    PopAccounts(p, Scalar(anchor, tag, [], tag == [], false, Plain));
    ErrorAccounts(p, Debt(p), Error);
  }

  lemma ContentAccounts(p: P, anchor: Text, tag: Text, block: bool, indentless: bool)
    requires Waiting(p.states) && p.tokens != []
    ensures Accounts(p, Debt(p), NodeContent(p, anchor, tag, block, indentless))
  {
    hide Accounts, Came, Debt, PopState, NoContent, Waiting, DropTokens;
    NoContentAccounts(p, anchor, tag);
    match p.Head() {
      case ScalarToken(value, style) =>
        var plain := (tag == [] && style == Plain) || tag == [0x21];
        var e := Scalar(anchor, tag, value, plain, !plain && tag == [], style);
        Skipped(p);
        PopAccounts(p.Skip(), e);
        AccountsFrom(p, p.Skip(), Debt(p.Skip()), Debt(p), PopState(p.Skip(), e));
      case BlockEntryToken => ToAccounts(p, SequenceStart(anchor, tag, tag == [], Block), IndentlessSequenceEntryState);
      case FlowSequenceStartToken => ToAccounts(p, SequenceStart(anchor, tag, tag == [], Flow), FlowSequenceFirstEntryState);
      case FlowMappingStartToken => ToAccounts(p, MappingStart(anchor, tag, tag == [], Flow), FlowMappingFirstKeyState);
      case BlockSequenceStartToken => ToAccounts(p, SequenceStart(anchor, tag, tag == [], Block), BlockSequenceFirstEntryState);
      case BlockMappingStartToken => ToAccounts(p, MappingStart(anchor, tag, tag == [], Block), BlockMappingFirstKeyState);
      case _ =>
    }
    ErrorAccounts(p, Debt(p), Error);
  }

  lemma NodeAccounts(p: P, block: bool, indentless: bool)
    requires Waiting(p.states)
    ensures Accounts(p, Debt(p), ParseNode(p, block, indentless))
  {
    hide Accounts, Came, Debt, PopState, NodeContent, ReadProperties, ResolveTag, DropTokens;
    ErrorAccounts(p, Debt(p), Error);
    if p.tokens != [] {
      if p.Head().AliasToken? {
        var e := Alias(p.Head().value);
        Skipped(p);
        PopAccounts(p.Skip(), e);
        AccountsFrom(p, p.Skip(), Debt(p.Skip()), Debt(p), PopState(p.Skip(), e));
      } else {
        PropertiesCome(p);
        match ReadProperties(p)
        case NoToken =>
        case Properties(anchor, t, q) =>
          var tag := ResolveTag(p.tagDirectives, t);
          ContentAccounts(q, anchor, tag, block, indentless);
          AccountsFrom(p, q, Debt(q), Debt(p), NodeContent(q, anchor, tag, block, indentless));
      }
    }
  }

  /** A node, or an omitted one, after which the state is `t`. */
  lemma GoesOn(p0: P, p: P, t: ParserState, block: bool, indentless: bool)
    requires Came(p0, p) && Waiting(p.states) && InCollection(t) && Debt(p) - Held(t) <= Excess(p0)
    ensures Accounts(p0, Excess(p0), ParseNode(p.Push(t), block, indentless))
    ensures Accounts(p0, Excess(p0), EmptyScalar(p.To(t)))
  {
    DebtPushed(p, t);
    hide Accounts, Came, Debt, ParseNode, DropTokens;
    NodeAccounts(p.Push(t), block, indentless);
    CamePushed(p0, p, t);
    AccountsFrom(p0, p.Push(t), Debt(p.Push(t)), Excess(p0), ParseNode(p.Push(t), block, indentless));
    ToAccounts(p, NULL_SCALAR, t);
    AccountsFrom(p0, p, Debt(p) - Held(t), Excess(p0), EmptyScalar(p.To(t)));
  }

  lemma CamePushed(p0: P, p: P, t: ParserState)
    requires Came(p0, p)
    ensures Came(p0, p.Push(t))
  {
  }

  lemma DebtPushed(p: P, t: ParserState)
    ensures Debt(p.Push(t)) == Debt(p) - Held(t)
    ensures Waiting(p.states) && InCollection(t) ==> Waiting(p.Push(t).states)
  {
    hide Brackets;
    assert (p.states + [t])[..|p.states|] == p.states;
  }

  lemma Pops(p0: P, p: P, e: Event)
    requires Came(p0, p) && Waiting(p.states) && Debt(p) <= Excess(p0)
    ensures Accounts(p0, Excess(p0), PopState(p, e)) && Accounts(p0, Excess(p0), PopBoth(p, e))
  {
    hide Accounts, Came, Debt, PopState, PopBoth, DropTokens;
    PopAccounts(p, e);
    AccountsFrom(p0, p, Debt(p), Excess(p0), PopState(p, e));
    AccountsFrom(p0, p, Debt(p), Excess(p0), PopBoth(p, e));
  }

  // ---- The productions ----

  /** Inside a collection, after its start token if `first`. */
  function Entered(p0: P, first: bool): P
    requires first ==> p0.tokens != []
  {
    if first then p0.Mark().Skip() else p0
  }

  lemma EnteredComes(p0: P, first: bool)
    requires first ==> p0.tokens != [] && !p0.Head().StreamEndToken?
    ensures Came(p0, Entered(p0, first))
    ensures Debt(Entered(p0, first)) == Debt(p0) - (if first then Bracket(p0.Head()) else 0)
    ensures Entered(p0, first).states == p0.states
  {
    CameHere(p0);
    if first {
      Skipped(p0);
    }
  }

  /** One more token, which is not a bracket. */
  lemma SkippedOn(p0: P, p: P)
    requires Came(p0, p) && p.tokens != [] && !p.Head().StreamEndToken?
    ensures Came(p0, p.Skip()) && Debt(p.Skip()) == Debt(p) - Bracket(p.Head())
  {
    Skipped(p);
    CameThen(p0, p, p.Skip());
  }

  lemma BlockEntriesAccount(p0: P, first: bool)
    requires Inv(p0)
    ensures p0.state == (if first then BlockSequenceFirstEntryState else BlockSequenceEntryState) ==>
              Accounts(p0, Excess(p0), ParseBlockSequenceEntry(p0, first))
    ensures p0.state == (if first then BlockMappingFirstKeyState else BlockMappingKeyState) ==>
              Accounts(p0, Excess(p0), ParseBlockMappingKey(p0, first))
  {
    hide Accounts, Came, Debt, ParseNode, PopState, PopBoth, DropTokens;
    ErrorAccounts(p0, Excess(p0), Error);
    ErrorAccounts(p0, Excess(p0), Panic);
    if (first ==> p0.tokens != [] && Bracket(p0.Head()) == 0 && !p0.Head().StreamEndToken?) && Waiting(p0.states) {
      EnteredComes(p0, first);
      var p := Entered(p0, first);
      if p.tokens != [] && (p.Head().BlockEntryToken? || p.Head().BlockEndToken? || p.Head().KeyToken?) {
        SkippedOn(p0, p);
        if Held(p0.state) == 0 {
          GoesOn(p0, p.Skip(), BlockSequenceEntryState, true, false);
          GoesOn(p0, p.Skip(), BlockMappingValueState, true, true);
          Pops(p0, p.Skip(), SequenceEnd);
          Pops(p0, p.Skip(), MappingEnd);
        }
      }
    }
  }

  lemma BlockValuesAccount(p: P)
    requires Inv(p)
    ensures p.state.IndentlessSequenceEntryState? ==> Accounts(p, Excess(p), ParseIndentlessSequenceEntry(p))
    ensures p.state.BlockMappingValueState? ==> Accounts(p, Excess(p), ParseBlockMappingValue(p))
  {
    hide Accounts, Came, Debt, ParseNode, PopState, PopBoth, DropTokens;
    ErrorAccounts(p, Excess(p), Error);
    CameHere(p);
    if p.tokens != [] && Waiting(p.states) && Held(p.state) == 0 {
      Pops(p, p, SequenceEnd);
      GoesOn(p, p, BlockMappingKeyState, true, true);
      if p.Head().BlockEntryToken? || p.Head().ValueToken? {
        SkippedOn(p, p);
        GoesOn(p, p.Skip(), IndentlessSequenceEntryState, true, false);
        GoesOn(p, p.Skip(), BlockMappingKeyState, true, true);
      }
    }
  }

  lemma FlowMappingItemAccounts(p0: P, q: P)
    requires Came(p0, q) && Waiting(q.states) && Debt(q) <= Excess(p0)
    ensures Accounts(p0, Excess(p0), FlowMappingItem(q))
  {
    hide Accounts, Came, Debt, ParseNode, PopState, PopBoth, DropTokens;
    ErrorAccounts(p0, Excess(p0), Error);
    if q.tokens != [] {
      GoesOn(p0, q, FlowMappingEmptyValueState, false, false);
      if q.Head().KeyToken? || q.Head().FlowMappingEndToken? {
        SkippedOn(p0, q);
        GoesOn(p0, q.Skip(), FlowMappingValueState, false, false);
        Pops(p0, q.Skip(), MappingEnd);
      }
    }
  }

  lemma OnStartToken(p: P)
    requires Inv(p) && (IsFirst(p.state) || InCollection(p.state))
    ensures Waiting(p.states) && (IsFirst(p.state) ==> p.tokens != [] && OnStart(p.state, p.Head()))
  {
  }

  lemma FlowMappingKeyAccounts(p0: P, first: bool)
    requires Inv(p0) && p0.state == (if first then FlowMappingFirstKeyState else FlowMappingKeyState)
    ensures Accounts(p0, Excess(p0), ParseFlowMappingKey(p0, first))
  {
    OnStartToken(p0);
    hide Accounts, Came, Debt, ParseNode, PopState, PopBoth, FlowMappingItem, Inv, Waiting, DropTokens;
    ErrorAccounts(p0, Excess(p0), Error);
    ErrorAccounts(p0, Excess(p0), Panic);
    EnteredComes(p0, first);
    var p := Entered(p0, first);
    if p.tokens != [] {
      if first {
        FlowMappingItemAccounts(p0, p);
      }
      if p.Head().FlowMappingEndToken? || p.Head().FlowEntryToken? {
        SkippedOn(p0, p);
        FlowMappingItemAccounts(p0, p.Skip());
        Pops(p0, p.Skip(), MappingEnd);
      }
    }
  }

  lemma FlowMappingValueAccounts(p: P, empty: bool)
    requires Inv(p) && p.state == (if empty then FlowMappingEmptyValueState else FlowMappingValueState)
    ensures Accounts(p, Excess(p), ParseFlowMappingValue(p, empty))
  {
    hide Accounts, Came, Debt, ParseNode, PopState, PopBoth, DropTokens;
    ErrorAccounts(p, Excess(p), Error);
    CameHere(p);
    GoesOn(p, p, FlowMappingKeyState, false, false);
    if p.tokens != [] && p.Head().ValueToken? {
      SkippedOn(p, p);
      GoesOn(p, p.Skip(), FlowMappingKeyState, false, false);
    }
  }

  /** After the '[' or a comma, with the flow sequence counted as open. */
  lemma FlowSequenceItemAccounts(p0: P, q: P)
    requires Came(p0, q) && Waiting(q.states) && Debt(q) - 1 <= Excess(p0)
    ensures Accounts(p0, Excess(p0), FlowSequenceItem(q))
  {
    hide Accounts, Came, Debt, ParseNode, PopState, PopBoth, DropTokens;
    ErrorAccounts(p0, Excess(p0), Error);
    if q.tokens != [] {
      GoesOn(p0, q, FlowSequenceEntryState, false, false);
      if q.Head().KeyToken? || q.Head().FlowSequenceEndToken? {
        SkippedOn(p0, q);
        if q.Head().KeyToken? {
          SinglePairStartAccounts(p0, q);
        } else {
          Pops(p0, q.Skip(), SequenceEnd);
        }
      }
    }
  }

  lemma SinglePairStartAccounts(p0: P, q: P)
    requires q.tokens != [] && Came(p0, q.Skip()) && Debt(q.Skip()) - 1 <= Excess(p0)
    ensures Accounts(p0, Excess(p0), Emit(MappingStart([], [], true, Flow), q.To(FlowSequenceEntryMappingKeyState).Skip()))
  {
    hide Accounts, Came, Debt, Excess, DropTokens;
    var e := MappingStart([], [], true, Flow);
    ToAccounts(q.Skip(), e, FlowSequenceEntryMappingKeyState);
    AccountsFrom(p0, q.Skip(), Debt(q.Skip()) - 1, Excess(p0), Emit(e, q.Skip().To(FlowSequenceEntryMappingKeyState)));
  }

  lemma FlowSequenceAccounts(p0: P, first: bool)
    requires Inv(p0) && p0.state == (if first then FlowSequenceFirstEntryState else FlowSequenceEntryState)
    ensures Accounts(p0, Excess(p0), ParseFlowSequenceEntry(p0, first))
  {
    OnStartToken(p0);
    hide Accounts, Came, Debt, ParseNode, PopState, PopBoth, FlowSequenceItem, Inv, Waiting, DropTokens;
    ErrorAccounts(p0, Excess(p0), Error);
    ErrorAccounts(p0, Excess(p0), Panic);
    EnteredComes(p0, first);
    var p := Entered(p0, first);
    if p.tokens != [] {
      if first {
        FlowSequenceItemAccounts(p0, p);
      }
      if p.Head().FlowSequenceEndToken? {
        SkippedOn(p0, p);
        Pops(p0, p.Skip(), SequenceEnd);
      } else if p.Head().FlowEntryToken? && !first {
        SkippedOn(p0, p);
        FlowSequenceItemAccounts(p0, p.Skip());
      }
    }
  }

  lemma SinglePairsAccount(p: P)
    requires Inv(p)
    ensures p.state.FlowSequenceEntryMappingKeyState? ==> Accounts(p, Excess(p), ParseFlowSequenceEntryMappingKey(p))
    ensures p.state.FlowSequenceEntryMappingValueState? ==> Accounts(p, Excess(p), ParseFlowSequenceEntryMappingValue(p))
    ensures p.state.FlowSequenceEntryMappingEndState? ==> Accounts(p, Excess(p), ParseFlowSequenceEntryMappingEnd(p))
  {
    hide Accounts, Came, Debt, ParseNode, PopState, PopBoth, DropTokens;
    ErrorAccounts(p, Excess(p), Error);
    CameHere(p);
    if p.tokens != [] && Held(p.state) == 1 && Waiting(p.states) {
      GoesOn(p, p, FlowSequenceEntryMappingValueState, false, false);
      GoesOn(p, p, FlowSequenceEntryMappingEndState, false, false);
      ToAccounts(p, MappingEnd, FlowSequenceEntryState);
      if p.Head().ValueToken? || p.Head().FlowEntryToken? || p.Head().FlowSequenceEndToken? {
        SkippedOn(p, p);
        GoesOn(p, p.Skip(), FlowSequenceEntryMappingValueState, false, false);
        GoesOn(p, p.Skip(), FlowSequenceEntryMappingEndState, false, false);
      }
    }
  }

  // ---- Documents ----

  lemma {:induction false} DirectivesCome(p: P, version: Version, tags: seq<TagDirective>)
    ensures var d := ProcessDirectives(p, version, tags);
            d.Directives? ==> Came(p, d.next) && Debt(d.next) == Debt(p)
    decreases |p.tokens|
  {
    hide Came, Debt, WithDefaults, HasHandle, DropTokens;
    if p.tokens != [] {
      match p.Head()
      case VersionDirectiveToken(major, minor) =>
        DirectivesCome(p.Skip(), Version(major, minor), tags);
        CameHere(p);
        DirectiveComes(p, p, ProcessDirectives(p.Skip(), Version(major, minor), tags));
      case TagDirectiveToken(handle, prefix) =>
        var t := TagDirective(handle, prefix);
        var q := p.(tagDirectives := p.tagDirectives + [t]);
        DirectivesCome(q.Skip(), version, tags + [t]);
        CameWithout(p, q.tagDirectives);
        DirectiveComes(p, q, ProcessDirectives(q.Skip(), version, tags + [t]));
      case _ =>
        CameWithout(p, WithDefaults(p.tagDirectives));
    }
  }

  lemma DirectiveComes(p: P, q: P, d: Directives)
    requires q.tokens != [] && IsDirective(q.Head()) && Came(p, q) && Debt(q) == Debt(p)
    requires d.Directives? ==> Came(q.Skip(), d.next) && Debt(d.next) == Debt(q.Skip())
    ensures d.Directives? ==> Came(p, d.next) && Debt(d.next) == Debt(p)
  {
    hide Came, Debt, DropTokens;
    SkippedOn(p, q);
    if d.Directives? {
      CameThen(p, q.Skip(), d.next);
    }
  }

  lemma CameWithout(p: P, ds: seq<TagDirective>)
    ensures Came(p, p.(tagDirectives := ds)) && Debt(p.(tagDirectives := ds)) == Debt(p)
  {
  }

  lemma OneEndSkipped(p: P)
    ensures SkipDocumentEnds(p)
         == if p.tokens != [] && p.Head().DocumentEndToken? then SkipDocumentEnds(p.Skip()) else p
  {
  }

  lemma {:induction false} EndsCome(p: P)
    ensures Came(p, SkipDocumentEnds(p)) && Debt(SkipDocumentEnds(p)) == Debt(p)
    decreases |p.tokens|
  {
    CameHere(p);
    OneEndSkipped(p);
    hide Came, Debt, SkipDocumentEnds, DropTokens;
    if p.tokens != [] && p.Head().DocumentEndToken? {
      SkippedOn(p, p);
      EndsCome(p.Skip());
      CameThen(p, p.Skip(), SkipDocumentEnds(p.Skip()));
    }
  }

  /** A document starts after the tokens before `p`. */
  lemma OpensAccounts(p0: P, p: P, s: ParserState, e: Event)
    requires Came(p0, p) && Debt(p) <= Excess(p0) && (s == BlockNodeState || s == DocumentContentState)
    ensures Accounts(p0, Excess(p0), Emit(e, p.Push(DocumentEndState).To(s)))
  {
    hide Came, Debt, Accounts, DropTokens;
    DebtPushed(p, DocumentEndState);
    CamePushed(p0, p, DocumentEndState);
    ToAccounts(p.Push(DocumentEndState), e, s);
    AccountsFrom(p0, p.Push(DocumentEndState), Debt(p.Push(DocumentEndState)) - 0, Excess(p0), Emit(e, p.Push(DocumentEndState).To(s)));
  }

  lemma StreamEndAccounts(p0: P, p: P)
    requires Came(p0, p) && Debt(p) <= Excess(p0) && p.tokens != [] && p.Head().StreamEndToken?
    ensures Accounts(p0, Excess(p0), Emit(StreamEnd, p.To(EndState).Skip()))
  {
    assert p0.tokens[p.parsed - p0.parsed..][1..] == p0.tokens[p.parsed + 1 - p0.parsed..];
  }

  lemma ExplicitAccounts(p0: P, q: P, e: Event)
    requires Came(p0, q) && Debt(q) <= Excess(p0) && q.tokens != [] && q.Head().DocumentStartToken?
    ensures Accounts(p0, Excess(p0), Emit(e, q.Push(DocumentEndState).To(DocumentContentState).Skip()))
  {
    hide Accounts, Came, Debt, Excess, DropTokens;
    SkippedOn(p0, q);
    OpensAccounts(p0, q.Skip(), DocumentContentState, e);
  }

  lemma DirectivesAccount(p0: P, p: P, e: Event)
    requires Came(p0, p) && Debt(p) <= Excess(p0)
    ensures var d := ProcessDirectives(p, NoVersion, []);
            d.Directives? ==>
              && d.next.tokens != []
              && Accounts(p0, Excess(p0), Emit(e, d.next.Push(DocumentEndState).To(BlockNodeState)))
              && (d.next.Head().DocumentStartToken? ==>
                    Accounts(p0, Excess(p0), Emit(e, d.next.Push(DocumentEndState).To(DocumentContentState).Skip())))
  {
    hide Accounts, Came, Debt, Excess, ProcessDirectives, DropTokens;
    DirectivesCome(p, NoVersion, []);
    DirectivesKeep(p, NoVersion, []);
    match ProcessDirectives(p, NoVersion, [])
    case BadDirectives =>
    case Directives(v, ds, q) =>
      CameThen(p0, p, q);
      OpensAccounts(p0, q, BlockNodeState, e);
      if q.Head().DocumentStartToken? {
        ExplicitAccounts(p0, q, e);
      }
  }

  lemma DocumentStartAccounts(p0: P, implicit: bool)
    requires Inv(p0) && p0.state == (if implicit then ImplicitDocumentStartState else DocumentStartState)
    ensures Accounts(p0, Excess(p0), ParseDocumentStart(p0, implicit))
  {
    assert Excess(p0) == Debt(p0);
    hide Accounts, Came, Debt, ProcessDirectives, SkipDocumentEnds, Inv, Held, Excess, DropTokens;
    ErrorAccounts(p0, Excess(p0), Error);
    CameHere(p0);
    EndsCome(p0);
    var p := if implicit then p0 else SkipDocumentEnds(p0);
    if p.tokens != [] {
      if p.Head().StreamEndToken? {
        StreamEndAccounts(p0, p);
      }
      DirectivesAccount(p0, p, DocumentStart(NoVersion, [], false));
      match ProcessDirectives(p, NoVersion, [])
      case BadDirectives =>
      case Directives(v, ds, q) => DirectivesAccount(p0, p, DocumentStart(v, ds, false));
    }
  }

  lemma StreamStartAccounts(p: P)
    requires p.state.StreamStartState?
    ensures Accounts(p, Excess(p), ParseStreamStart(p))
  {
    hide AllHeld;
  }

  lemma DocumentEndAccounts(p: P)
    requires p.state.DocumentEndState?
    ensures Accounts(p, Excess(p), ParseDocumentEnd(p))
  {
    hide Accounts, Came, Debt, DropTokens;
    ErrorAccounts(p, Excess(p), Error);
    if p.tokens != [] {
      var implicit := !p.Head().DocumentEndToken?;
      var q := if implicit then p else p.Skip();
      CameHere(p);
      if !implicit {
        SkippedOn(p, p);
      }
      DocumentEnds(p, q, DocumentEnd(implicit));
    }
  }

  lemma DocumentEnds(p: P, q: P, e: Event)
    requires Came(p, q) && Debt(q) == Debt(p) && p.state.DocumentEndState?
    ensures Accounts(p, Excess(p), Emit(e, q.(tagDirectives := []).To(DocumentStartState)))
  {
    hide Accounts, Came, Debt, DropTokens;
    var q' := q.(tagDirectives := []);
    CameWithout(q, []);
    CameThen(p, q, q');
    ToAccounts(q', e, DocumentStartState);
    AccountsFrom(p, q', Debt(q'), Excess(p), Emit(e, q'.To(DocumentStartState)));
  }

  lemma RootAccounts(p: P)
    requires Inv(p) && (p.state.DocumentContentState? || p.state.BlockNodeState?)
    ensures Accounts(p, Excess(p), ParseNode(p, true, false)) && Accounts(p, Excess(p), PopState(p, NULL_SCALAR))
  {
    hide Accounts, Came, Debt, ParseNode, PopState, DropTokens;
    NodeAccounts(p, true, false);
    PopAccounts(p, NULL_SCALAR);
  }

  /** The account of any call. */
  lemma StepAccounts(p: P)
    requires Inv(p) && p.state != EndState
    ensures Accounts(p, Excess(p), ParserSpec.Step(p))
  {
    hide Accounts, Excess, DropTokens;
    ErrorAccounts(p, Excess(p), Error);
    match p.state
    case StreamStartState => StreamStartAccounts(p);
    case ImplicitDocumentStartState => DocumentStartAccounts(p, true);
    case DocumentStartState => DocumentStartAccounts(p, false);
    case DocumentContentState => RootAccounts(p);
    case DocumentEndState => DocumentEndAccounts(p);
    case BlockNodeState => RootAccounts(p);
    case BlockSequenceFirstEntryState => BlockEntriesAccount(p, true);
    case BlockSequenceEntryState => BlockEntriesAccount(p, false);
    case IndentlessSequenceEntryState => BlockValuesAccount(p);
    case BlockMappingFirstKeyState => BlockEntriesAccount(p, true);
    case BlockMappingKeyState => BlockEntriesAccount(p, false);
    case BlockMappingValueState => BlockValuesAccount(p);
    case FlowSequenceFirstEntryState => FlowSequenceAccounts(p, true);
    case FlowSequenceEntryState => FlowSequenceAccounts(p, false);
    case FlowSequenceEntryMappingKeyState => SinglePairsAccount(p);
    case FlowSequenceEntryMappingValueState => SinglePairsAccount(p);
    case FlowSequenceEntryMappingEndState => SinglePairsAccount(p);
    case FlowMappingFirstKeyState => FlowMappingKeyAccounts(p, true);
    case FlowMappingKeyState => FlowMappingKeyAccounts(p, false);
    case FlowMappingValueState => FlowMappingValueAccounts(p, false);
    case FlowMappingEmptyValueState => FlowMappingValueAccounts(p, true);
  }

  lemma {:induction false} StopsSplit(a: seq<Token>, b: seq<Token>)
    ensures Stops(a + b) == Stops(a) + Stops(b)
    ensures Stops(a) > 0 <==> StreamEndToken in a
  {
    if a == [] {
      assert a + b == b;
    } else {
      assert (a + b)[1..] == a[1..] + b;
      StopsSplit(a[1..], b);
    }
  }

  /** A call skips tokens from the front of the stream, and STREAM-END among them exactly when it
      enters the end state. */
  lemma StreamEndEndsParsing(p: P)
    requires Inv(p) && p.state != EndState && ParserSpec.Step(p).Emit?
    ensures var q := ParserSpec.Step(p).next;
            var n := q.parsed - p.parsed;
            && 0 <= n <= |p.tokens| && q.tokens == p.tokens[n..]
            && (StreamEndToken in p.tokens[..n] <==> q.state == EndState)
  {
    hide Excess, ParserSpec.Step, Inv;
    StepAccounts(p);
    var q := ParserSpec.Step(p).next;
    var n := q.parsed - p.parsed;
    assert p.tokens == p.tokens[..n] + p.tokens[n..];
    StopsSplit(p.tokens[..n], p.tokens[n..]);
  }

  // ---- Runs ----

  /** STREAM-END is the last token and comes once. */
  predicate Complete(p: P) {
    if p.state == EndState then p.tokens == []
    else p.tokens != [] && p.tokens[|p.tokens| - 1].StreamEndToken? && Stops(p.tokens) == 1
  }

  lemma CompleteStep(p: P)
    requires Inv(p) && p.state != EndState && ParserSpec.Step(p).Emit? && Complete(p)
    ensures Complete(ParserSpec.Step(p).next)
  {
    hide Excess, ParserSpec.Step, Inv;
    StepAccounts(p);
    var q := ParserSpec.Step(p).next;
    if q.tokens != [] {
      assert q.tokens[|q.tokens| - 1].StreamEndToken?;
      LastStops(q.tokens);
    }
  }

  lemma {:induction false} LastStops(ks: seq<Token>)
    requires ks != [] && ks[|ks| - 1].StreamEndToken?
    ensures Stops(ks) >= 1
  {
    assert ks == ks[..|ks| - 1] + [ks[|ks| - 1]];
    StopsSplit(ks[..|ks| - 1], [ks[|ks| - 1]]);
  }

  /** A stream with too few ']' tokens left is never parsed to its end. */
  lemma {:induction false} ShortRunFails(p: P)
    requires Inv(p) && Complete(p) && Excess(p) < 0
    ensures !ParseAll(p).ended
    decreases Potential(p)
  {
    hide ParserSpec.Step, Inv, Potential, Complete, Excess;
    if p.state == EndState {
      EndBalanced(p);
    } else {
      StepSound(p);
      StepDecreases(p);
      if ParserSpec.Step(p).Emit? {
        StepAccounts(p);
        CompleteStep(p);
        ShortRunFails(ParserSpec.Step(p).next);
      }
    }
  }

  lemma EndBalanced(p: P)
    requires Inv(p) && Complete(p) && p.state == EndState
    ensures Excess(p) == 0
  {
  }
}
