/** The parser as the class of fields that parserc.go updates in place. Every production does what
    its function in ParserSpec says, so that what is proved about those holds of it. */
module EventParser {
  import opened Utf8
  import opened EventGrammar
  import S = ParserSpec
  import opened ParserSoundness
  import ParserAccounts

  type Token = S.Token

  /** The parser back in the state that waited on its stack. */
  ghost function Returned(p: S.P): S.P
    requires p.states != []
  {
    p.(state := p.states[|p.states| - 1], states := p.states[..|p.states| - 1])
  }

  datatype Option<T> = None | Some(value: T)

  class Parser {
    /** All tokens that the scanner delivers before it ends or fails. */
    const tokens: seq<Token>
    /** tokens_parsed */
    var head: nat
    var streamEndProduced: bool
    var error: bool
    var state: S.ParserState
    var states: seq<S.ParserState>
    var marks: seq<nat>
    var tagDirectives: seq<TagDirective>

    ghost predicate Valid()
      reads this
    {
      && head <= |tokens|
      && (streamEndProduced <==> head > 0 && tokens[head - 1].StreamEndToken?)
    }

    /** The tokens that have not been skipped. */
    ghost function Ahead(): seq<Token>
      requires head <= |tokens|
      reads this`head
    {
      tokens[head..]
    }

    ghost function View(): S.P
      requires Valid()
      reads this
    {
      S.P(Ahead(), head, state, states, marks, tagDirectives)
    }

    /** The outcome `event` of a production is the result `r`; None stands for an error. */
    ghost predicate Did(r: S.Result, event: Option<Event>)
      reads this
    {
      && Valid()
      && match r
         case Emit(e, q) => event == Some(e) && View() == q && !error
         case Error => event == None && error
         case Panic => false
    }

    constructor (tokens: seq<Token>)
      ensures Valid() && View() == S.Start(tokens) && !error && !streamEndProduced
      ensures Inv(View())
    {
      this.tokens := tokens;
      head, streamEndProduced, error := 0, false, false;
      state, states, marks, tagDirectives := S.StreamStartState, [], [], [];
    }

    /** peek_token: the next token, unless the scanner has failed. */
    method Peek() returns (token: Option<Token>)
      requires Valid()
      modifies this`error
      ensures Valid() && View() == old(View())
      ensures if View().tokens == [] then token == None && error else token == Some(View().Head()) && error == old(error)
    {
      if head == |tokens| {
        error := true;
        token := None;
      } else {
        token := Some(tokens[head]);
      }
    }

    method SkipToken()
      requires Valid() && View().tokens != []
      modifies this`head, this`streamEndProduced
      ensures Valid() && View() == old(View()).Skip()
    {
      streamEndProduced := tokens[head].StreamEndToken?;
      head := head + 1;
    }

    /** Return to the state that waits on the stack. */
    method PopState()
      requires Valid() && states != []
      modifies this`state, this`states
      ensures Valid()
      ensures View() == Returned(old(View()))
    {
      state := states[|states| - 1];
      states := states[..|states| - 1];
    }

    /** The same from a collection that has pushed its mark. */
    method PopBoth()
      requires Valid() && states != [] && marks != []
      modifies this`state, this`states, this`marks
      ensures Valid()
      ensures View() == Returned(old(View())).(marks := old(marks)[..|old(marks)| - 1])
    {
      PopState();
      marks := marks[..|marks| - 1];
    }

    method PushState(s: S.ParserState)
      requires Valid()
      modifies this`states
      ensures Valid() && View() == old(View()).Push(s)
    {
      states := states + [s];
    }

    /** Push the mark of the start token of a collection and skip it. */
    method EnterCollection()
      requires Valid() && View().tokens != []
      modifies this`head, this`streamEndProduced, this`marks
      ensures Valid() && View() == old(View()).Mark().Skip()
    {
      marks := marks + [head];
      SkipToken();
    }

    /** An error with the mark of the collection as its context. */
    method ContextError() returns (event: Option<Event>)
      requires Valid() && marks != []
      modifies this`marks, this`error
      ensures Did(S.ContextError(old(View())), event)
    {
      marks := marks[..|marks| - 1];
      error := true;
      event := None;
    }

    method Fail() returns (event: Option<Event>)
      requires Valid()
      modifies this`error
      ensures Did(S.Error, event)
    {
      error := true;
      event := None;
    }

    method ProcessEmptyScalar() returns (event: Option<Event>)
      requires Valid() && !error
      ensures Did(S.EmptyScalar(View()), event)
    {
      event := Some(NULL_SCALAR);
    }

    // ---- Documents ----

    method ParseStreamStart() returns (event: Option<Event>)
      requires Valid() && !error
      modifies this
      ensures Did(S.ParseStreamStart(old(View())), event)
    {
      var token := Peek();
      if token == None { return None; }
      if !token.value.StreamStartToken? {
        event := Fail();
        return;
      }
      state := S.ImplicitDocumentStartState;
      SkipToken();
      event := Some(StreamStart);
    }

    method HasHandle(handle: Text) returns (found: bool)
      ensures found == S.HasHandle(tagDirectives, handle)
    {
      found := false;
      for i := 0 to |tagDirectives|
        invariant !found && forall j | 0 <= j < i :: tagDirectives[j].handle != handle
      {
        if tagDirectives[i].handle == handle {
          return true;
        }
      }
    }

    method AppendTagDirective(d: TagDirective, allowDuplicates: bool) returns (ok: bool)
      requires Valid() && !error
      modifies this`tagDirectives, this`error
      ensures Valid() && ok == (allowDuplicates || !S.HasHandle(old(tagDirectives), d.handle)) && error == !ok
      ensures tagDirectives == if S.HasHandle(old(tagDirectives), d.handle) then old(tagDirectives) else old(tagDirectives) + [d]
    {
      var found := HasHandle(d.handle);
      if found {
        ok := allowDuplicates;
        error := !ok;
      } else {
        tagDirectives := tagDirectives + [d];
        ok := true;
      }
    }

    method ProcessDirectives() returns (ok: bool, version: Version, directives: seq<TagDirective>)
      requires Valid() && !error
      modifies this
      ensures Valid() && error == !ok
      ensures match S.ProcessDirectives(old(View()), NoVersion, [])
              case BadDirectives => !ok
              case Directives(v, ds, q) => ok && version == v && directives == ds && View() == q
    {
      version, directives := NoVersion, [];
      ghost var p0 := View();
      var token := Peek();
      ok := false;
      if token == None { return; }
      while token.value.VersionDirectiveToken? || token.value.TagDirectiveToken?
        invariant Valid() && !error && View().tokens != [] && token == Some(View().Head())
        invariant S.ProcessDirectives(View(), version, directives) == S.ProcessDirectives(p0, NoVersion, [])
        decreases |tokens| - head
      {
        if token.value.VersionDirectiveToken? {
          if version.Version? || token.value.major != 1 || token.value.minor != 1 {
            error := true;
            return;
          }
          version := Version(token.value.major, token.value.minor);
        } else {
          var d := TagDirective(token.value.handle, token.value.prefix);
          var appended := AppendTagDirective(d, false);
          if !appended { return; }
          directives := directives + [d];
        }
        SkipToken();
        token := Peek();
        if token == None { return; }
      }
      ok := AppendTagDirective(S.DEFAULT_TAG_DIRECTIVES[0], true);
      ok := AppendTagDirective(S.DEFAULT_TAG_DIRECTIVES[1], true);
    }

    method SkipDocumentEnds() returns (token: Option<Token>)
      requires Valid() && !error
      modifies this
      ensures Valid() && View() == S.SkipDocumentEnds(old(View()))
      ensures if View().tokens == [] then token == None && error else token == Some(View().Head()) && !error
    {
      ghost var p0 := View();
      token := Peek();
      while token.Some? && token.value.DocumentEndToken?
        invariant Valid() && S.SkipDocumentEnds(View()) == S.SkipDocumentEnds(p0)
        invariant if View().tokens == [] then token == None && error else token == Some(View().Head()) && !error
        decreases |tokens| - head
      {
        SkipToken();
        token := Peek();
      }
    }

    method ParseDocumentStart(implicit: bool) returns (event: Option<Event>)
      requires Valid() && !error
      modifies this
      ensures Did(S.ParseDocumentStart(old(View()), implicit), event)
    {
      hide Ahead;
      hide S.ProcessDirectives, S.SkipDocumentEnds;
      var token;
      if implicit {
        token := Peek();
      } else {
        token := SkipDocumentEnds();
      }
      if token == None { return None; }
      if implicit && !S.IsDirective(token.value) && !token.value.DocumentStartToken? && !token.value.StreamEndToken? {
        var ok, _, _ := ProcessDirectives();
        if !ok { return None; }
        PushState(S.DocumentEndState);
        state := S.BlockNodeState;
        event := Some(DocumentStart(NoVersion, [], false));
      } else if !token.value.StreamEndToken? {
        var ok, version, directives := ProcessDirectives();
        if !ok { return None; }
        token := Peek();
        if token == None { return None; }
        if !token.value.DocumentStartToken? {
          event := Fail();
          return;
        }
        PushState(S.DocumentEndState);
        state := S.DocumentContentState;
        event := Some(DocumentStart(version, directives, false));
        SkipToken();
      } else {
        state := S.EndState;
        event := Some(StreamEnd);
        SkipToken();
      }
    }

    method ParseDocumentContent() returns (event: Option<Event>)
      requires Valid() && !error && states != []
      modifies this
      ensures Did(S.ParseDocumentContent(old(View())), event)
    {
      hide Ahead;
      hide S.ParseNode;
      var token := Peek();
      if token == None { return None; }
      if S.IsDirective(token.value) || token.value.DocumentStartToken? || token.value.DocumentEndToken? || token.value.StreamEndToken? {
        PopState();
        event := ProcessEmptyScalar();
      } else {
        event := ParseNode(true, false);
      }
    }

    method ParseDocumentEnd() returns (event: Option<Event>)
      requires Valid() && !error
      modifies this
      ensures Did(S.ParseDocumentEnd(old(View())), event)
    {
      hide Ahead;
      var token := Peek();
      if token == None { return None; }
      var implicit := true;
      if token.value.DocumentEndToken? {
        SkipToken();
        implicit := false;
      }
      tagDirectives := [];
      state := S.DocumentStartState;
      event := Some(DocumentEnd(implicit));
    }

    // ---- Nodes ----

    /** The anchor and the tag of a node, in either order. */
    method ParseProperties() returns (token: Option<Token>, anchor: Text, tag: S.TagRef)
      requires Valid() && !error
      modifies this
      ensures Valid()
      ensures match S.ReadProperties(old(View()))
              case NoToken => token == None && error
              case Properties(a, t, q) =>
                anchor == a && tag == t && View() == q && q.tokens != [] && token == Some(q.Head()) && !error
    {
      hide Ahead;
      anchor, tag := [], S.NoTag;
      token := Peek();
      if token == None { return; }
      if token.value.AnchorToken? {
        anchor := token.value.value;
        SkipToken();
        token := Peek();
        if token == None { return; }
        if token.value.TagToken? {
          tag := S.TagRef(token.value.handle, token.value.suffix);
          SkipToken();
          token := Peek();
        }
      } else if token.value.TagToken? {
        tag := S.TagRef(token.value.handle, token.value.suffix);
        SkipToken();
        token := Peek();
        if token == None { return; }
        if token.value.AnchorToken? {
          anchor := token.value.value;
          SkipToken();
          token := Peek();
        }
      }
    }

    /** Search the tag directives for the handle, unless the tag is verbatim. */
    method ResolveTag(t: S.TagRef) returns (tag: Text)
      ensures tag == S.ResolveTag(tagDirectives, t)
    {
      tag := [];
      if t.TagRef? {
        if t.handle == [] {
          return t.suffix;
        }
        var i := 0;
        while i < |tagDirectives|
          invariant 0 <= i <= |tagDirectives| && tag == []
          invariant S.ResolveHandle(tagDirectives, t.handle, t.suffix) == S.ResolveHandle(tagDirectives[i..], t.handle, t.suffix)
        {
          assert tagDirectives[i..][1..] == tagDirectives[i + 1..];
          if tagDirectives[i].handle == t.handle {
            return tagDirectives[i].prefix + t.suffix;
          }
          i := i + 1;
        }
      }
    }

    method ParseNode(block: bool, indentless: bool) returns (event: Option<Event>)
      requires Valid() && !error && states != []
      modifies this
      ensures Did(S.ParseNode(old(View()), block, indentless), event)
    {
      hide Ahead;
      hide S.NodeContent, S.ReadProperties, S.ResolveTag;
      ghost var p := View();
      var token := Peek();
      if token == None { return None; }
      if token.value.AliasToken? {
        SkipToken();
        PopState();
        return Some(Alias(token.value.value));
      }
      PropertiesKeep(p);
      var anchor, t;
      token, anchor, t := ParseProperties();
      if token == None { return None; }
      var tag := ResolveTag(t);
      if t.TagRef? && t.handle != [] && tag == [] {
        event := Fail();
        return;
      }
      event := ParseContent(token.value, anchor, tag, block, indentless);
    }

    /** Whether the tag of a scalar may be left out, in the plain and in the other styles. */
    method Implicit(tag: Text, style: ScalarStyle) returns (plainImplicit: bool, quotedImplicit: bool)
      ensures plainImplicit == ((tag == [] && style == Plain) || tag == [0x21])
      ensures quotedImplicit == (!plainImplicit && tag == [])
    {
      plainImplicit, quotedImplicit := false, false;
      if (tag == [] && style == Plain) || (|tag| == 1 && tag[0] == 0x21) {
        plainImplicit := true;
      } else if tag == [] {
        quotedImplicit := true;
      }
    }

    method ParseContent(token: Token, anchor: Text, tag: Text, block: bool, indentless: bool) returns (event: Option<Event>)
      requires Valid() && !error && states != [] && View().tokens != [] && token == View().Head()
      modifies this
      ensures Did(S.NodeContent(old(View()), anchor, tag, block, indentless), event)
    {
      hide Ahead, S.NoContent;
      var implicit := tag == [];
      if indentless && token.BlockEntryToken? {
        state := S.IndentlessSequenceEntryState;
        return Some(SequenceStart(anchor, tag, implicit, Block));
      }
      if token.ScalarToken? {
        var plainImplicit, quotedImplicit := Implicit(tag, token.style);
        SkipToken();
        PopState();
        return Some(Scalar(anchor, tag, token.value, plainImplicit, quotedImplicit, token.style));
      }
      if token.FlowSequenceStartToken? {
        state := S.FlowSequenceFirstEntryState;
        return Some(SequenceStart(anchor, tag, implicit, Flow));
      }
      if token.FlowMappingStartToken? {
        state := S.FlowMappingFirstKeyState;
        return Some(MappingStart(anchor, tag, implicit, Flow));
      }
      if block && token.BlockSequenceStartToken? {
        state := S.BlockSequenceFirstEntryState;
        return Some(SequenceStart(anchor, tag, implicit, Block));
      }
      if block && token.BlockMappingStartToken? {
        state := S.BlockMappingFirstKeyState;
        return Some(MappingStart(anchor, tag, implicit, Block));
      }
      event := ParseNoContent(anchor, tag);
    }

    /** An anchor or a tag alone stands for an empty scalar. */
    method ParseNoContent(anchor: Text, tag: Text) returns (event: Option<Event>)
      requires Valid() && !error && states != []
      modifies this
      ensures Did(S.NoContent(old(View()), anchor, tag), event)
    {
      hide Ahead;
      if |anchor| > 0 || |tag| > 0 {
        PopState();
        return Some(Scalar(anchor, tag, [], tag == [], false, Plain));
      }
      event := Fail();
    }

    // ---- Block collections ----

    method ParseBlockSequenceEntry(first: bool) returns (event: Option<Event>)
      requires Valid() && !error && states != [] && (first ==> View().tokens != []) && (!first ==> marks != [])
      modifies this
      ensures Did(S.ParseBlockSequenceEntry(old(View()), first), event)
    {
      hide Ahead;
      hide S.ParseNode;
      if first {
        EnterCollection();
      }
      var token := Peek();
      if token == None { return None; }
      if token.value.BlockEntryToken? {
        SkipToken();
        event := ParseBlockEntryNode();
      } else if token.value.BlockEndToken? {
        SkipToken();
        PopBoth();
        event := Some(SequenceEnd);
      } else {
        event := ContextError();
      }
    }

    /** The node after a BLOCK-ENTRY, or its absence. */
    method ParseBlockEntryNode() returns (event: Option<Event>)
      requires Valid() && !error && states != []
      modifies this
      ensures var q := old(View());
              Did(if q.tokens == [] then S.Error
                  else if !q.Head().BlockEntryToken? && !q.Head().BlockEndToken? then
                    S.ParseNode(q.Push(S.BlockSequenceEntryState), true, false)
                  else S.EmptyScalar(q.To(S.BlockSequenceEntryState)), event)
    {
      hide Ahead;
      hide S.ParseNode;
      var token := Peek();
      if token == None { return None; }
      if !token.value.BlockEntryToken? && !token.value.BlockEndToken? {
        PushState(S.BlockSequenceEntryState);
        event := ParseNode(true, false);
      } else {
        state := S.BlockSequenceEntryState;
        event := ProcessEmptyScalar();
      }
    }

    method ParseIndentlessSequenceEntry() returns (event: Option<Event>)
      requires Valid() && !error && states != []
      modifies this
      ensures Did(S.ParseIndentlessSequenceEntry(old(View())), event)
    {
      hide Ahead;
      hide S.ParseNode;
      var token := Peek();
      if token == None { return None; }
      if token.value.BlockEntryToken? {
        SkipToken();
        token := Peek();
        if token == None { return None; }
        if !token.value.BlockEntryToken? && !token.value.KeyToken? && !token.value.ValueToken? && !token.value.BlockEndToken? {
          PushState(S.IndentlessSequenceEntryState);
          event := ParseNode(true, false);
        } else {
          state := S.IndentlessSequenceEntryState;
          event := ProcessEmptyScalar();
        }
      } else {
        PopState();
        event := Some(SequenceEnd);
      }
    }

    method ParseBlockMappingKey(first: bool) returns (event: Option<Event>)
      requires Valid() && !error && states != [] && (first ==> View().tokens != []) && (!first ==> marks != [])
      modifies this
      ensures Did(S.ParseBlockMappingKey(old(View()), first), event)
    {
      hide Ahead;
      hide S.ParseNode;
      if first {
        EnterCollection();
      }
      var token := Peek();
      if token == None { return None; }
      if token.value.KeyToken? {
        SkipToken();
        event := ParseBlockKeyNode();
      } else if token.value.BlockEndToken? {
        SkipToken();
        PopBoth();
        event := Some(MappingEnd);
      } else {
        event := ContextError();
      }
    }

    /** The node after a KEY, or its absence. */
    method ParseBlockKeyNode() returns (event: Option<Event>)
      requires Valid() && !error && states != []
      modifies this
      ensures var q := old(View());
              Did(if q.tokens == [] then S.Error
                  else if !S.EndsBlockNode(q.Head()) then S.ParseNode(q.Push(S.BlockMappingValueState), true, true)
                  else S.EmptyScalar(q.To(S.BlockMappingValueState)), event)
    {
      hide Ahead;
      hide S.ParseNode;
      var token := Peek();
      if token == None { return None; }
      if !token.value.KeyToken? && !token.value.ValueToken? && !token.value.BlockEndToken? {
        PushState(S.BlockMappingValueState);
        event := ParseNode(true, true);
      } else {
        state := S.BlockMappingValueState;
        event := ProcessEmptyScalar();
      }
    }

    method ParseBlockMappingValue() returns (event: Option<Event>)
      requires Valid() && !error && states != []
      modifies this
      ensures Did(S.ParseBlockMappingValue(old(View())), event)
    {
      hide Ahead;
      hide S.ParseNode;
      var token := Peek();
      if token == None { return None; }
      if token.value.ValueToken? {
        SkipToken();
        token := Peek();
        if token == None { return None; }
        if !token.value.KeyToken? && !token.value.ValueToken? && !token.value.BlockEndToken? {
          PushState(S.BlockMappingKeyState);
          event := ParseNode(true, true);
          return;
        }
      }
      state := S.BlockMappingKeyState;
      event := ProcessEmptyScalar();
    }

    // ---- Flow collections ----

    method ParseFlowSequenceEntry(first: bool) returns (event: Option<Event>)
      requires Valid() && !error && states != [] && (first ==> View().tokens != []) && (!first ==> marks != [])
      modifies this
      ensures Did(S.ParseFlowSequenceEntry(old(View()), first), event)
    {
      hide Ahead;
      hide S.FlowSequenceItem;
      if first {
        EnterCollection();
      }
      var token := Peek();
      if token == None { return None; }
      if !token.value.FlowSequenceEndToken? {
        if !first {
          if token.value.FlowEntryToken? {
            SkipToken();
            token := Peek();
            if token == None {
              NoItem(View());
              return None;
            }
          } else {
            event := ContextError();
            return;
          }
        }
        event := ParseFlowSequenceItem(token.value);
        return;
      }
      SkipToken();
      PopBoth();
      event := Some(SequenceEnd);
    }

    /** After '[' or ','. */
    method ParseFlowSequenceItem(token: Token) returns (event: Option<Event>)
      requires Valid() && !error && states != [] && marks != [] && View().tokens != [] && token == View().Head()
      modifies this
      ensures Did(S.FlowSequenceItem(old(View())), event)
    {
      hide Ahead;
      hide S.ParseNode;
      if token.KeyToken? {
        state := S.FlowSequenceEntryMappingKeyState;
        SkipToken();
        event := Some(MappingStart([], [], true, Flow));
      } else if !token.FlowSequenceEndToken? {
        PushState(S.FlowSequenceEntryState);
        event := ParseNode(false, false);
      } else {
        SkipToken();
        PopBoth();
        event := Some(SequenceEnd);
      }
    }

    method ParseFlowSequenceEntryMappingKey() returns (event: Option<Event>)
      requires Valid() && !error && states != []
      modifies this
      ensures Did(S.ParseFlowSequenceEntryMappingKey(old(View())), event)
    {
      hide Ahead;
      hide S.ParseNode;
      var token := Peek();
      if token == None { return None; }
      if !token.value.ValueToken? && !token.value.FlowEntryToken? && !token.value.FlowSequenceEndToken? {
        PushState(S.FlowSequenceEntryMappingValueState);
        event := ParseNode(false, false);
        return;
      }
      SkipToken();
      state := S.FlowSequenceEntryMappingValueState;
      event := ProcessEmptyScalar();
    }

    method ParseFlowSequenceEntryMappingValue() returns (event: Option<Event>)
      requires Valid() && !error && states != []
      modifies this
      ensures Did(S.ParseFlowSequenceEntryMappingValue(old(View())), event)
    {
      hide Ahead;
      hide S.ParseNode;
      var token := Peek();
      if token == None { return None; }
      if token.value.ValueToken? {
        SkipToken();
        token := Peek();
        if token == None { return None; }
        if !token.value.FlowEntryToken? && !token.value.FlowSequenceEndToken? {
          PushState(S.FlowSequenceEntryMappingEndState);
          event := ParseNode(false, false);
          return;
        }
      }
      state := S.FlowSequenceEntryMappingEndState;
      event := ProcessEmptyScalar();
    }

    method ParseFlowSequenceEntryMappingEnd() returns (event: Option<Event>)
      requires Valid() && !error
      modifies this
      ensures Did(S.ParseFlowSequenceEntryMappingEnd(old(View())), event)
    {
      hide Ahead;
      var token := Peek();
      if token == None { return None; }
      state := S.FlowSequenceEntryState;
      event := Some(MappingEnd);
    }

    method ParseFlowMappingKey(first: bool) returns (event: Option<Event>)
      requires Valid() && !error && states != [] && (first ==> View().tokens != []) && (!first ==> marks != [])
      modifies this
      ensures Did(S.ParseFlowMappingKey(old(View()), first), event)
    {
      hide Ahead;
      hide S.FlowMappingItem;
      if first {
        EnterCollection();
      }
      var token := Peek();
      if token == None { return None; }
      if !token.value.FlowMappingEndToken? {
        if !first {
          if token.value.FlowEntryToken? {
            SkipToken();
            token := Peek();
            if token == None {
              NoItem(View());
              return None;
            }
          } else {
            event := ContextError();
            return;
          }
        }
        event := ParseFlowMappingItem(token.value);
        return;
      }
      SkipToken();
      PopBoth();
      event := Some(MappingEnd);
    }

    /** After '{' or ','. */
    method ParseFlowMappingItem(first: Token) returns (event: Option<Event>)
      requires Valid() && !error && states != [] && marks != [] && View().tokens != [] && first == View().Head()
      modifies this
      ensures Did(S.FlowMappingItem(old(View())), event)
    {
      hide Ahead;
      hide S.ParseNode;
      if first.KeyToken? {
        SkipToken();
        var token := Peek();
        if token == None { return None; }
        if !token.value.ValueToken? && !token.value.FlowEntryToken? && !token.value.FlowMappingEndToken? {
          PushState(S.FlowMappingValueState);
          event := ParseNode(false, false);
        } else {
          state := S.FlowMappingValueState;
          event := ProcessEmptyScalar();
        }
      } else if !first.FlowMappingEndToken? {
        PushState(S.FlowMappingEmptyValueState);
        event := ParseNode(false, false);
      } else {
        SkipToken();
        PopBoth();
        event := Some(MappingEnd);
      }
    }

    method ParseFlowMappingValue(empty: bool) returns (event: Option<Event>)
      requires Valid() && !error && states != []
      modifies this
      ensures Did(S.ParseFlowMappingValue(old(View()), empty), event)
    {
      hide Ahead;
      hide S.ParseNode;
      var token := Peek();
      if token == None { return None; }
      if empty {
        state := S.FlowMappingKeyState;
        event := ProcessEmptyScalar();
        return;
      }
      if token.value.ValueToken? {
        SkipToken();
        token := Peek();
        if token == None { return None; }
        if !token.value.FlowEntryToken? && !token.value.FlowMappingEndToken? {
          PushState(S.FlowMappingKeyState);
          event := ParseNode(false, false);
          return;
        }
      }
      state := S.FlowMappingKeyState;
      event := ProcessEmptyScalar();
    }

    // ---- The state machine ----

    /** yaml_parser_state_machine. Nothing enters the states for a node that may be an indentless
        sequence and for a flow node, so they have no case. */
    method StateMachine() returns (event: Option<Event>)
      requires Valid() && !error && Inv(View()) && state != S.EndState
      modifies this
      ensures Did(S.Step(old(View())), event)
    {
      hide Ahead;
      hide S.ParseNode, S.ParseStreamStart, S.ParseDocumentStart, S.ParseDocumentContent, S.ParseDocumentEnd,
           S.ParseBlockSequenceEntry, S.ParseIndentlessSequenceEntry, S.ParseBlockMappingKey, S.ParseBlockMappingValue,
           S.ParseFlowSequenceEntry, S.ParseFlowSequenceEntryMappingKey, S.ParseFlowSequenceEntryMappingValue,
           S.ParseFlowSequenceEntryMappingEnd, S.ParseFlowMappingKey, S.ParseFlowMappingValue;
      hide Inv, Did;
      StacksSuffice(View());
      match state
      case StreamStartState => event := ParseStreamStart();
      case ImplicitDocumentStartState => event := ParseDocumentStart(true);
      case DocumentStartState => event := ParseDocumentStart(false);
      case DocumentContentState => event := ParseDocumentContent();
      case DocumentEndState => event := ParseDocumentEnd();
      case BlockNodeState => event := ParseNode(true, false);
      case BlockSequenceFirstEntryState => event := ParseBlockSequenceEntry(true);
      case BlockSequenceEntryState => event := ParseBlockSequenceEntry(false);
      case IndentlessSequenceEntryState => event := ParseIndentlessSequenceEntry();
      case BlockMappingFirstKeyState => event := ParseBlockMappingKey(true);
      case BlockMappingKeyState => event := ParseBlockMappingKey(false);
      case BlockMappingValueState => event := ParseBlockMappingValue();
      case FlowSequenceFirstEntryState => event := ParseFlowSequenceEntry(true);
      case FlowSequenceEntryState => event := ParseFlowSequenceEntry(false);
      case FlowSequenceEntryMappingKeyState => event := ParseFlowSequenceEntryMappingKey();
      case FlowSequenceEntryMappingValueState => event := ParseFlowSequenceEntryMappingValue();
      case FlowSequenceEntryMappingEndState => event := ParseFlowSequenceEntryMappingEnd();
      case FlowMappingFirstKeyState => event := ParseFlowMappingKey(true);
      case FlowMappingKeyState => event := ParseFlowMappingKey(false);
      case FlowMappingValueState => event := ParseFlowMappingValue(false);
      case FlowMappingEmptyValueState => event := ParseFlowMappingValue(true);
    }

    /** What holds between calls: an error has come, or the invariant of the machine holds and the
        stream's end has been produced exactly in the end state. */
    ghost predicate Ready()
      reads this
    {
      Valid() && (error || (Inv(View()) && (streamEndProduced ==> state == S.EndState)))
    }

    /** yaml_parser_parse: the next event; nothing any more after the end or an error. */
    method Parse() returns (ok: bool, event: Option<Event>)
      requires Ready()
      modifies this
      ensures Ready()
      ensures if old(error) || old(state) == S.EndState then ok && event == None && unchanged(this)
              else
                && ok == event.Some?
                && Did(S.Step(old(View())), event)
                && (ok ==> EventGrammar.Step(Abs(old(View())), event.value) == Abs(View()))
    {
      if streamEndProduced || error || state == S.EndState {
        return true, None;
      }
      StepSound(View());
      hide S.Step, Inv, Abs;
      ghost var before := View();
      event := StateMachine();
      ok := event.Some?;
      if ok {
        ParserAccounts.StreamEndEndsParsing(before);
        ghost var n := View().parsed - before.parsed;
        if streamEndProduced {
          assert n > 0;
          assert before.tokens[n - 1] == tokens[head - 1];
          assert before.tokens[..n][n - 1] == S.StreamEndToken;
        }
      }
    }
  }

  lemma NoItem(p: S.P)
    requires p.tokens == []
    ensures S.FlowSequenceItem(p) == S.Error && S.FlowMappingItem(p) == S.Error
  {
  }

  lemma PropertiesKeep(p: S.P)
    ensures var r := S.ReadProperties(p);
            r.Properties? ==>
              r.next == p.(tokens := r.next.tokens, parsed := r.next.parsed) && r.next.tokens != []
  {
  }

  /** The stacks hold what each state takes from them. */
  lemma StacksSuffice(p: S.P)
    requires Inv(p)
    ensures InCollection(p.state) || IsFirst(p.state) || p.state.FlowSequenceEntryMappingKeyState? ==> p.states != []
    ensures p.state.BlockNodeState? || p.state.DocumentContentState? ==> p.states != []
    ensures IsFirst(p.state) ==> p.tokens != []
    ensures Marked(p.state) == 1 ==> p.marks != []
    ensures !p.state.BlockNodeOrIndentlessSequenceState? && !p.state.FlowNodeState?
  {
  }
}
