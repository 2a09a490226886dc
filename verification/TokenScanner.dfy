/** The scanner's bookkeeping as the class of fields that scannerc.go updates in place, on a queue
    that is compacted in place. Every method does what its function in ScannerSpec says. */
module TokenScanner {
  import opened TokenQueue
  import S = ScannerSpec
  import opened ScannerSafety
  import opened ScannerRuns

  type Token = S.Token
  type Mark = S.Mark
  type Lexeme = S.Lexeme

  class Scanner {
    const input: seq<Lexeme>
    const queue: Queue<Token>
    /** How much of the input has been read. */
    var next: nat
    var mark: Mark
    var tokensParsed: nat
    var tokenAvailable: bool
    var streamStartProduced: bool
    var flowLevel: nat
    var indent: int
    var indents: seq<int>
    var simpleKeys: seq<S.SimpleKey>
    var simpleKeyAllowed: bool
    var error: bool
    /** The tokens that have been handed out. */
    ghost var past: seq<Token>

    ghost predicate Valid()
      reads this, queue
    {
      queue.Valid() && |past| == tokensParsed && next <= |input|
    }

    /** All tokens produced so far. */
    ghost function Produced(): seq<Token>
      requires queue.Valid()
      reads this`past, queue, queue.buffer
    {
      past + queue.Contents()
    }

    ghost function View(): S.B
      requires Valid()
      reads this, queue, queue.buffer
    {
      S.B(Produced(), tokensParsed, simpleKeys, flowLevel, indent, indents, simpleKeyAllowed, mark, streamStartProduced)
    }

    /** The outcome of a fetcher is the result `r`. */
    ghost predicate Did(r: S.Result, ok: bool)
      reads this, queue, queue.buffer
    {
      && Valid()
      && match r
         case Fetched(b) => ok && View() == b && !error
         case Error => !ok && error
         case Panic => false
    }

    constructor (input: seq<Lexeme>)
      ensures Valid() && View() == S.START && Inv(View()) && this.input == input && next == 0
      ensures !error && !tokenAvailable && fresh(queue) && fresh(queue.buffer)
    {
      this.input := input;
      queue := new Queue<Token>();
      next, mark, tokensParsed, tokenAvailable, streamStartProduced := 0, S.Mark(0, 0, 0), 0, false, false;
      flowLevel, indent, indents, simpleKeys, simpleKeyAllowed, error, past := 0, 0, [], [], false, false, [];
    }

    /** yaml_insert_token, at a position in the queue. */
    method InsertToken(pos: int, t: Token)
      requires Valid() && pos <= |View().produced| - tokensParsed
      modifies queue, queue.buffer
      ensures Valid() && (queue.buffer == old(queue.buffer) || fresh(queue.buffer))
      ensures View() == old(View()).(produced := Inserted(old(View().produced), if pos < 0 then -1 else tokensParsed + pos, t))
    {
      InsertedBehind(past, queue.Contents(), pos, t);
      hide Inserted;
      queue.Insert(pos, t);
    }

    method Append(kind: S.Kind, start: Mark)
      requires Valid()
      modifies queue, queue.buffer
      ensures Valid() && (queue.buffer == old(queue.buffer) || fresh(queue.buffer))
      ensures View() == S.Append(old(View()), kind, start)
    {
      InsertToken(-1, S.Token(kind, start));
    }

    /** A token where the scanner is, which ends at the mark `end`. */
    method AppendUpTo(kind: S.Kind, end: Mark)
      requires Valid()
      modifies this`mark, queue, queue.buffer
      ensures Valid() && (queue.buffer == old(queue.buffer) || fresh(queue.buffer))
      ensures View() == S.Append(old(View()), kind, old(mark)).(mark := end)
    {
      Append(kind, mark);
      mark := end;
    }

    method Fail() returns (ok: bool)
      requires Valid()
      modifies this`error
      ensures Did(S.Error, ok)
    {
      error := true;
      ok := false;
    }

    // ---- Simple keys ----

    method StaleSimpleKeys() returns (ok: bool)
      requires Valid() && !error
      modifies this`simpleKeys, this`error
      ensures Did(S.DropStale(old(View())), ok)
    {
      hide Produced;
      ghost var keys := simpleKeys;
      var i := 0;
      while i < |simpleKeys|
        invariant 0 <= i <= |simpleKeys| == |keys| && !error
        invariant forall j | 0 <= j < i :: simpleKeys[j] == S.WithoutStale(keys, mark)[j]
        invariant forall j | i <= j < |keys| :: simpleKeys[j] == keys[j]
        invariant forall j | 0 <= j < i :: !(S.IsStale(keys[j], mark) && keys[j].required)
      {
        var k := simpleKeys[i];
        if k.possible && (k.mark.line < mark.line || k.mark.index + 1024 < mark.index) {
          if k.required {
            ok := Fail();
            return;
          }
          simpleKeys := simpleKeys[i := k.(possible := false)];
        }
        i := i + 1;
      }
      assert simpleKeys == S.WithoutStale(keys, mark);
      ok := true;
    }

    method RemoveSimpleKey() returns (ok: bool)
      requires Valid() && !error && simpleKeys != []
      modifies this`simpleKeys, this`error
      ensures Did(S.Remove(old(View())), ok)
    {
      hide Produced;
      var i := |simpleKeys| - 1;
      if simpleKeys[i].possible && simpleKeys[i].required {
        ok := Fail();
        return;
      }
      simpleKeys := simpleKeys[i := simpleKeys[i].(possible := false)];
      ok := true;
    }

    method SaveSimpleKey() returns (ok: bool)
      requires Valid() && !error && simpleKeys != []
      modifies this`simpleKeys, this`error
      ensures Did(S.Save(old(View())), ok)
    {
      ghost var b := View();
      var required := flowLevel == 0 && indent == mark.column;
      if simpleKeyAllowed {
        var k := S.SimpleKey(true, required, tokensParsed + (queue.length - queue.head), mark);
        ok := RemoveSimpleKey();
        if !ok { return; }
        simpleKeys := simpleKeys[|simpleKeys| - 1 := k];
        assert simpleKeys == b.keys[|b.keys| - 1 := k];
      }
      ok := true;
    }

    // ---- Levels ----

    method IncreaseFlowLevel()
      requires Valid()
      modifies this`simpleKeys, this`flowLevel
      ensures Valid() && View() == S.IncreaseFlow(old(View()))
    {
      hide Produced;
      simpleKeys := simpleKeys + [S.NO_KEY];
      flowLevel := flowLevel + 1;
    }

    method DecreaseFlowLevel()
      requires Valid() && simpleKeys != []
      modifies this`simpleKeys, this`flowLevel
      ensures Valid() && S.DecreaseFlow(old(View())) == S.Fetched(View())
    {
      hide Produced;
      if flowLevel > 0 {
        flowLevel := flowLevel - 1;
        simpleKeys := simpleKeys[..|simpleKeys| - 1];
      }
    }

    lemma EnoughProduced()
      requires Valid()
      ensures |View().produced| >= tokensParsed
    {
    }

    /** `number` is that of the token before which the new one goes, or negative. */
    method RollIndent(column: nat, number: int, kind: S.Kind, start: Mark)
      requires Valid() && number <= |View().produced|
      modifies this`indent, this`indents, queue, queue.buffer
      ensures Valid() && (queue.buffer == old(queue.buffer) || fresh(queue.buffer))
      ensures View() == S.Roll(old(View()), column, number, S.Token(kind, start))
    {
      EnoughProduced();
      hide Produced;
      if flowLevel > 0 { return; }
      if indent < column {
        indents := indents + [indent];
        indent := column;
        InsertToken(if number > -1 then number - tokensParsed else number, S.Token(kind, start));
      }
    }

    method UnrollIndent(column: int)
      requires Valid() && !S.Unroll(View(), column).Panic?
      modifies this`indent, this`indents, queue, queue.buffer
      ensures Valid() && (queue.buffer == old(queue.buffer) || fresh(queue.buffer))
      ensures S.Unroll(old(View()), column) == S.Fetched(View())
    {
      hide Produced;
      ghost var b := View();
      if flowLevel > 0 { return; }
      while indent > column
        invariant Valid() && (queue.buffer == old(queue.buffer) || fresh(queue.buffer))
        invariant flowLevel == old(flowLevel) && S.Unroll(View(), column) == S.Unroll(b, column)
        decreases |indents|
      {
        Append(S.BlockEnd, mark);
        indent := indents[|indents| - 1];
        indents := indents[..|indents| - 1];
      }
    }

    // ---- The fetchers ----

    method FetchStreamStart()
      requires Valid()
      modifies this`indent, this`simpleKeys, this`simpleKeyAllowed, this`streamStartProduced, queue, queue.buffer
      ensures Valid() && (queue.buffer == old(queue.buffer) || fresh(queue.buffer))
      ensures View() == S.FetchStreamStart(old(View()))
    {
      hide Produced;
      indent := -1;
      simpleKeys := simpleKeys + [S.NO_KEY];
      simpleKeyAllowed := true;
      streamStartProduced := true;
      Append(S.StreamStart, mark);
    }

    /** The frame of the fetchers: everything but the input and what has been handed out. */
    twostate predicate Kept()
      reads this, queue
    {
      && next == old(next) && past == old(past) && tokenAvailable == old(tokenAvailable)
      && (queue.buffer == old(queue.buffer) || fresh(queue.buffer))
    }

    /** Close all levels and allow no simple key. */
    method Reset() returns (ok: bool)
      requires Valid() && !error && Safe(View(), false, mark)
      modifies this, queue, queue.buffer
      ensures Valid() && Kept() && mark == old(mark)
      ensures Did(S.Reset(old(View())), ok)
    {
      hide Produced;
      UnrollKeeps(View(), -1);
      ResetInSteps(View());
      hide S.Unroll, Safe, S.Remove, S.Reset;
      UnrollIndent(-1);
      Unfolded(View(), false, mark);
      ok := RemoveSimpleKey();
      if !ok { return; }
      simpleKeyAllowed := false;
    }

    method FetchStreamEnd() returns (ok: bool)
      requires Valid() && !error && Safe(View(), false, mark)
      modifies this, queue, queue.buffer
      ensures Valid() && Kept()
      ensures Did(S.FetchStreamEnd(old(View())), ok)
    {
      hide Produced;
      ghost var b := View();
      MarkMoves(b, false, mark, S.LineEnd(mark));
      NotPending(b.(mark := S.LineEnd(mark)), mark, false, S.LineEnd(mark));
      hide Safe, S.Reset;
      GoToLineEnd();
      ok := Reset();
      if !ok { return; }
      Append(S.StreamEnd, mark);
    }

    /** Force a new line. */
    method GoToLineEnd()
      requires Valid()
      modifies this`mark
      ensures Valid() && View() == old(View()).(mark := S.LineEnd(old(mark))) && mark == S.LineEnd(old(mark))
    {
      hide Produced;
      if mark.column != 0 {
        mark := S.Mark(mark.index, mark.line + 1, 0);
      }
    }

    method FetchDirective(x: Lexeme) returns (ok: bool)
      requires Valid() && !error && Safe(View(), false, mark)
      modifies this, queue, queue.buffer
      ensures Valid() && Kept()
      ensures Did(S.FetchDirective(old(View()), x), ok)
    {
      hide Produced;
      hide Safe, S.Reset;
      ok := Reset();
      if !ok { return; }
      ok := Consume(S.Directive, x);
    }

    /** A token that is scanned up to the mark of the lexeme's end, unless it is malformed. */
    method Consume(kind: S.Kind, x: Lexeme) returns (ok: bool)
      requires Valid() && !error
      modifies this`mark, this`error, queue, queue.buffer
      ensures Did(S.Consume(old(View()), kind, x), ok) && (queue.buffer == old(queue.buffer) || fresh(queue.buffer))
    {
      hide Produced;
      if !x.ok {
        ok := Fail();
        return;
      }
      AppendUpTo(kind, x.end);
      ok := true;
    }

    method FetchDocumentIndicator(kind: S.Kind, x: Lexeme) returns (ok: bool)
      requires Valid() && !error && Safe(View(), false, mark)
      modifies this, queue, queue.buffer
      ensures Valid() && Kept()
      ensures Did(S.FetchDocumentIndicator(old(View()), kind, x), ok)
    {
      hide Produced;
      hide Safe, S.Reset;
      ok := Reset();
      if !ok { return; }
      AppendUpTo(kind, x.end);
    }

    method FetchFlowCollectionStart(kind: S.Kind, x: Lexeme) returns (ok: bool)
      requires Valid() && !error && simpleKeys != []
      modifies this, queue, queue.buffer
      ensures Valid() && Kept()
      ensures Did(S.FetchFlowStart(old(View()), kind, x), ok)
    {
      hide Produced;
      hide S.Save;
      ok := SaveSimpleKey();
      if !ok { return; }
      hide S.Append;
      IncreaseFlowLevel();
      simpleKeyAllowed := true;
      AppendUpTo(kind, x.end);
    }

    method FetchFlowCollectionEnd(kind: S.Kind, x: Lexeme) returns (ok: bool)
      requires Valid() && !error && simpleKeys != []
      modifies this, queue, queue.buffer
      ensures Valid() && Kept()
      ensures Did(S.FetchFlowEnd(old(View()), kind, x), ok)
    {
      hide Produced;
      RemoveLeavesKeys(View());
      hide S.Remove, S.DecreaseFlow, S.Append;
      ok := RemoveSimpleKey();
      if !ok { return; }
      DecreaseFlowLevel();
      simpleKeyAllowed := false;
      AppendUpTo(kind, x.end);
    }

    method FetchFlowEntry(x: Lexeme) returns (ok: bool)
      requires Valid() && !error && simpleKeys != []
      modifies this, queue, queue.buffer
      ensures Valid() && Kept()
      ensures Did(S.FetchFlowEntry(old(View()), x), ok)
    {
      hide Produced;
      ok := RemoveSimpleKey();
      if !ok { return; }
      simpleKeyAllowed := true;
      AppendUpTo(S.FlowEntry, x.end);
    }

    /** In the block context an entry must be allowed here, and may open a new level. */
    method RollHere(kind: S.Kind) returns (ok: bool)
      requires Valid() && !error
      modifies this`indent, this`indents, this`error, queue, queue.buffer
      ensures Did(S.RollHere(old(View()), kind), ok) && (queue.buffer == old(queue.buffer) || fresh(queue.buffer))
    {
      hide Produced;
      ok := true;
      if flowLevel == 0 {
        if !simpleKeyAllowed {
          ok := Fail();
          return;
        }
        RollIndent(mark.column, -1, kind, mark);
      }
    }

    method FetchBlockEntry(x: Lexeme) returns (ok: bool)
      requires Valid() && !error && simpleKeys != []
      modifies this, queue, queue.buffer
      ensures Valid() && Kept()
      ensures Did(S.FetchBlockEntry(old(View()), x), ok)
    {
      hide Produced;
      RollKeepsKeys(View(), S.BlockSequenceStart);
      hide S.RollHere;
      ok := RollHere(S.BlockSequenceStart);
      if !ok { return; }
      ok := RemoveSimpleKey();
      if !ok { return; }
      simpleKeyAllowed := true;
      AppendUpTo(S.BlockEntry, x.end);
    }

    method FetchKey(x: Lexeme) returns (ok: bool)
      requires Valid() && !error && simpleKeys != []
      modifies this, queue, queue.buffer
      ensures Valid() && Kept()
      ensures Did(S.FetchKey(old(View()), x), ok)
    {
      hide Produced;
      RollKeepsKeys(View(), S.BlockMappingStart);
      hide S.RollHere;
      ok := RollHere(S.BlockMappingStart);
      if !ok { return; }
      ok := RemoveSimpleKey();
      if !ok { return; }
      simpleKeyAllowed := flowLevel == 0;
      AppendUpTo(S.Key, x.end);
    }

    method InsertKey(k: S.SimpleKey)
      requires Valid() && simpleKeys != [] && k == simpleKeys[|simpleKeys| - 1] && k.number <= |View().produced|
      modifies this`indent, this`indents, queue, queue.buffer
      ensures Valid() && (queue.buffer == old(queue.buffer) || fresh(queue.buffer))
      ensures View() == S.InsertKey(old(View()))
    {
      hide Produced;
      InsertToken(k.number - tokensParsed, S.Token(S.Key, k.mark));
      RollIndent(k.mark.column, k.number, S.BlockMappingStart, k.mark);
    }

    method FetchValue(x: Lexeme) returns (ok: bool)
      requires Valid() && !error && !S.FetchValue(View(), x).Panic?
      modifies this, queue, queue.buffer
      ensures Valid() && Kept()
      ensures Did(S.FetchValue(old(View()), x), ok)
    {
      hide Produced;
      RollKeepsKeys(View(), S.BlockMappingStart);
      hide S.RollHere, S.InsertKey;
      var n := |simpleKeys| - 1;
      var k := simpleKeys[n];
      if k.possible {
        InsertKey(k);
        simpleKeys := simpleKeys[n := k.(possible := false)];
        simpleKeyAllowed := false;
      } else {
        ok := RollHere(S.BlockMappingStart);
        if !ok { return; }
        simpleKeyAllowed := flowLevel == 0;
      }
      AppendUpTo(S.Value, x.end);
      ok := true;
    }

    method FetchSaved(kind: S.Kind, x: Lexeme) returns (ok: bool)
      requires Valid() && !error && simpleKeys != []
      modifies this, queue, queue.buffer
      ensures Valid() && Kept()
      ensures Did(S.FetchSaved(old(View()), kind, x), ok)
    {
      hide Produced;
      hide S.Save;
      ok := SaveSimpleKey();
      if !ok { return; }
      simpleKeyAllowed := false;
      ok := Consume(kind, x);
    }

    method FetchPlainScalar(x: Lexeme) returns (ok: bool)
      requires Valid() && !error && simpleKeys != []
      modifies this, queue, queue.buffer
      ensures Valid() && Kept()
      ensures Did(S.FetchPlainScalar(old(View()), x), ok)
    {
      hide Produced;
      hide S.FetchSaved;
      ok := FetchSaved(S.Scalar, x);
      if !ok { return; }
      simpleKeyAllowed := x.broken;
    }

    method FetchBlockScalar(x: Lexeme) returns (ok: bool)
      requires Valid() && !error && simpleKeys != []
      modifies this, queue, queue.buffer
      ensures Valid() && Kept()
      ensures Did(S.FetchBlockScalar(old(View()), x), ok)
    {
      hide Produced;
      ok := RemoveSimpleKey();
      if !ok { return; }
      simpleKeyAllowed := true;
      ok := Consume(S.Scalar, x);
    }

    // ---- The dispatcher ----

    method FetchAt(x: Lexeme) returns (ok: bool)
      requires Valid() && !error && Safe(View(), false, mark) && !S.FetchAt(View(), x).Panic?
      modifies this, queue, queue.buffer
      ensures Valid() && Kept()
      ensures Did(S.FetchAt(old(View()), x), ok)
    {
      hide Produced;
      hide S.FetchStreamEnd, S.FetchDirective, S.FetchDocumentIndicator, S.FetchFlowStart, S.FetchFlowEnd, S.FetchFlowEntry,
           S.FetchBlockEntry, S.FetchKey, S.FetchValue, S.FetchSaved, S.FetchBlockScalar, S.FetchPlainScalar;
      hide Safe;
      Unfolded(View(), false, mark);
      var l := x.look;
      if l.c == 0 {
        ok := FetchStreamEnd();
      } else if mark.column == 0 && l.c == 0x25 {
        ok := FetchDirective(x);
      } else if mark.column == 0 && l.c == 0x2D && l.indicator {
        ok := FetchDocumentIndicator(S.DocumentStart, x);
      } else if mark.column == 0 && l.c == 0x2E && l.indicator {
        ok := FetchDocumentIndicator(S.DocumentEnd, x);
      } else if l.c == 0x5B {
        ok := FetchFlowCollectionStart(S.FlowSequenceStart, x);
      } else if l.c == 0x7B {
        ok := FetchFlowCollectionStart(S.FlowMappingStart, x);
      } else if l.c == 0x5D {
        ok := FetchFlowCollectionEnd(S.FlowSequenceEnd, x);
      } else if l.c == 0x7D {
        ok := FetchFlowCollectionEnd(S.FlowMappingEnd, x);
      } else if l.c == 0x2C {
        ok := FetchFlowEntry(x);
      } else if l.c == 0x2D && l.blankzNext {
        ok := FetchBlockEntry(x);
      } else if l.c == 0x3F && (flowLevel > 0 || l.blankzNext) {
        ok := FetchKey(x);
      } else if l.c == 0x3A && (flowLevel > 0 || l.blankzNext) {
        ok := FetchValue(x);
      } else if l.c == 0x2A {
        ok := FetchSaved(S.Alias, x);
      } else if l.c == 0x26 {
        ok := FetchSaved(S.Anchor, x);
      } else if l.c == 0x21 {
        ok := FetchSaved(S.Tag, x);
      } else if l.c == 0x7C && flowLevel == 0 {
        ok := FetchBlockScalar(x);
      } else if l.c == 0x3E && flowLevel == 0 {
        ok := FetchBlockScalar(x);
      } else if l.c == 0x27 {
        ok := FetchSaved(S.Scalar, x);
      } else if l.c == 0x22 {
        ok := FetchSaved(S.Scalar, x);
      } else if S.StartsPlain(l, flowLevel) {
        ok := FetchPlainScalar(x);
      } else {
        ok := Fail();
      }
    }

    /** The state between fetches: nothing wrong so far, and the input still to come is valid. */
    ghost predicate Ready()
      reads this, queue, queue.buffer
    {
      Valid() && !error && Inv(View()) && ValidInput(mark, input[next..])
    }

    /** yaml_parser_scan_to_next_token. */
    method ScanToNextToken(x: Lexeme)
      requires Valid() && next < |input|
      modifies this`next, this`mark, this`simpleKeyAllowed
      ensures Valid() && View() == S.MoveTo(old(View()), x) && next == old(next) + 1
    {
      hide Produced;
      next := next + 1;
      mark := x.start;
      if x.newline && flowLevel == 0 {
        simpleKeyAllowed := true;
      }
    }

    /** yaml_parser_fetch_next_token once the stream has started. */
    method FetchNextToken() returns (ok: bool)
      requires Ready() && streamStartProduced && next < |input|
      modifies this, queue, queue.buffer
      ensures Did(S.FetchNext(old(View()), old(input[next])), ok)
      ensures next == old(next) + 1 && past == old(past) && (queue.buffer == old(queue.buffer) || fresh(queue.buffer))
      ensures ok ==> Ready() && streamStartProduced
    {
      hide Produced;
      ghost var b := View();
      var x := input[next];
      assert input[next..][1..] == input[next + 1..];
      FetchNextGoes(b, x);
      MovedSafe(b, x);
      hide Safe, S.FetchAt, S.Unroll, S.DropStale, Future;
      ScanToNextToken(x);
      ok := StaleSimpleKeys();
      if !ok { return; }
      UnrollKeeps(View(), mark.column);
      UnrollIndent(mark.column);
      ok := FetchAt(x);
      if ok {
        Unfolded(View(), false, mark);
      }
    }

    method HeadMayMove() returns (may: bool)
      requires Valid()
      ensures may == S.HeadMayMove(View())
    {
      for i := 0 to |simpleKeys|
        invariant forall j | 0 <= j < i :: !(simpleKeys[j].possible && simpleKeys[j].number == tokensParsed)
      {
        if simpleKeys[i].possible && simpleKeys[i].number == tokensParsed {
          return true;
        }
      }
      may := false;
    }

    /** Drop stale keys; is the head of the queue there, and final? */
    method HeadIsFinal() returns (ok: bool, final: bool)
      requires Ready()
      modifies this`simpleKeys, this`error
      ensures Valid()
      ensures var b := old(View());
              if b.parsed >= |b.produced| then ok && !final && View() == b && Ready()
              else
                match S.DropStale(b)
                case Fetched(s) => ok && final == !S.HeadMayMove(s) && View() == s && Ready()
                case _ => !ok
    {
      StaleInv(View());
      hide S.DropStale, S.HeadMayMove, Inv, ValidInput;
      ok, final := true, false;
      var empty := queue.Empty();
      if !empty {
        ok := StaleSimpleKeys();
        if ok {
          var may := HeadMayMove();
          final := !may;
        }
      }
    }

    method FetchOneToken() returns (ok: bool)
      requires Ready()
      modifies this, queue, queue.buffer
      ensures Valid() && past == old(past) && (queue.buffer == old(queue.buffer) || fresh(queue.buffer))
      ensures ok ==>
                && Ready() && streamStartProduced
                && S.FetchOne(old(View()), old(input[next..])) == S.FetchMore(View(), input[next..])
                && (next > old(next) || (next == old(next) && !old(streamStartProduced)))
      ensures !ok ==> S.FetchOne(old(View()), old(input[next..])).Failed?
    {
      hide Inv, S.FetchNext, S.FetchStreamStart, ValidInput, S.FetchMore;
      if !streamStartProduced {
        StreamStartInv(View());
        FetchStreamStart();
        ok := true;
      } else if next == |input| {
        error := true;
        ok := false;
      } else {
        assert input[next..][1..] == input[next + 1..];
        ok := FetchNextToken();
      }
    }

    /** One round: the head of the queue is final, or something is fetched. */
    method FetchRound() returns (ok: bool, final: bool)
      requires Ready()
      modifies this, queue, queue.buffer
      ensures Valid() && past == old(past) && (queue.buffer == old(queue.buffer) || fresh(queue.buffer))
      ensures !ok ==> S.FetchMore(old(View()), old(input[next..])) == S.Failed
      ensures ok ==> Ready()
      ensures ok && final ==> S.FetchMore(old(View()), old(input[next..])) == S.Available(View(), input[next..])
      ensures ok && !final ==> S.FetchMore(old(View()), old(input[next..])) == S.FetchMore(View(), input[next..])
      ensures ok && !final ==> streamStartProduced && (next > old(next) || (next == old(next) && !old(streamStartProduced)))
    {
      hide Inv, S.DropStale, ValidInput, S.HeadMayMove, S.FetchOne, S.FetchMore;
      MoreStep(View(), input[next..]);
      ok, final := HeadIsFinal();
      if !ok || final { return; }
      ok := FetchOneToken();
    }

    /** yaml_parser_fetch_more_tokens: fetch until the head of the queue cannot move any more. */
    method FetchMoreTokens() returns (ok: bool)
      requires Ready()
      modifies this, queue, queue.buffer
      ensures Valid() && past == old(past) && (queue.buffer == old(queue.buffer) || fresh(queue.buffer))
      ensures match S.FetchMore(old(View()), old(input[next..]))
              case Failed => !ok
              case Available(b, rest) =>
                && ok && Ready() && View() == b && input[next..] == rest && tokenAvailable
                && b.parsed < |b.produced| && !S.HeadMayMove(b) && streamStartProduced
    {
      ghost var b0, xs0 := View(), input[next..];
      FetchMoreGoes(b0, xs0);
      hide Inv, ValidInput, S.HeadMayMove, Future, S.FetchMore, Valid, View;
      ok := true;
      var final := false;
      while !final
        invariant Ready() && past == old(past) && (queue.buffer == old(queue.buffer) || fresh(queue.buffer)) && ok
        invariant S.FetchMore(b0, xs0) == if final then S.Available(View(), input[next..]) else S.FetchMore(View(), input[next..])
        invariant next <= |input|
        decreases !final, |input| - next, !streamStartProduced
      {
        ok, final := FetchRound();
        if !ok { return; }
      }
      MakeAvailable();
    }

    method MakeAvailable()
      requires Ready()
      modifies this`tokenAvailable
      ensures Ready() && View() == old(View()) && tokenAvailable
    {
      tokenAvailable := true;
    }

    /** peek_token. */
    method PeekToken() returns (ok: bool, t: Token)
      requires Ready() && (tokenAvailable ==> View().parsed < |View().produced|)
      modifies this, queue, queue.buffer
      ensures ok ==> Ready() && tokenAvailable && View().parsed < |View().produced| && t == View().produced[View().parsed]
      ensures old(tokenAvailable) ==> ok && View() == old(View())
    {
      ok := true;
      if !tokenAvailable {
        ok := FetchMoreTokens();
      }
      if ok {
        t := queue.First();
      } else {
        t := S.Token(S.StreamEnd, mark);
      }
    }

    /** skip_token: the head of the queue, at which no possible key points any more, is handed out
        and becomes the past, which no later fetch changes. */
    method SkipToken()
      requires Ready() && tokenAvailable && streamStartProduced
      requires View().parsed < |View().produced| && !S.HeadMayMove(View())
      modifies this, queue
      ensures Ready() && !tokenAvailable && View() == S.Take(old(View()))
      ensures past == old(past) + [old(View().produced[View().parsed])]
    {
      TakeKeeps(View());
      hide Inv, ValidInput, S.HeadMayMove;
      TakeHead();
    }

    method TakeHead()
      requires Valid() && View().parsed < |View().produced|
      modifies this`tokenAvailable, this`tokensParsed, this`past, queue
      ensures Valid() && !tokenAvailable && View() == S.Take(old(View()))
      ensures past == old(past) + [old(View().produced[View().parsed])]
    {
      tokenAvailable := false;
      tokensParsed := tokensParsed + 1;
      past := past + [queue.Contents()[0]];
      queue.Take();
      assert Produced() == old(Produced());
    }
  }

  lemma InsertedBehind(past: seq<Token>, c: seq<Token>, pos: int, t: Token)
    requires pos <= |c|
    ensures past + Inserted(c, pos, t) == Inserted(past + c, if pos < 0 then -1 else |past| + pos, t)
  {
  }

  lemma ResetInSteps(b: S.B)
    ensures S.Unroll(b, -1).Fetched? ==>
              var r := S.Remove(S.Unroll(b, -1).next);
              && (r.Fetched? ==> S.Reset(b) == S.Fetched(r.next.(allowed := false)))
              && (!r.Fetched? ==> S.Reset(b) == r)
  {
    hide S.Unroll, S.Remove;
  }

  lemma RollKeepsKeys(b: S.B, kind: S.Kind)
    ensures S.RollHere(b, kind).Fetched? ==>
              var r := S.RollHere(b, kind).next;
              r == b.(produced := r.produced, indent := r.indent, indents := r.indents)
    ensures !S.RollHere(b, kind).Panic?
  {
  }

  lemma MoreStep(b: S.B, xs: seq<Lexeme>)
    requires Inv(b)
    ensures b.parsed >= |b.produced| ==> S.FetchMore(b, xs) == S.FetchOne(b, xs)
    ensures b.parsed < |b.produced| && !S.DropStale(b).Fetched? ==> S.FetchMore(b, xs) == S.Failed
    ensures b.parsed < |b.produced| && S.DropStale(b).Fetched? ==>
              var q := S.DropStale(b).next;
              && S.FetchMore(b, xs) == (if S.HeadMayMove(q) then S.FetchOne(q, xs) else S.Available(q, xs))
              && q.parsed == b.parsed && q.produced == b.produced
  {
  }

  lemma RemoveLeavesKeys(b: S.B)
    ensures S.Remove(b).Fetched? ==> |S.Remove(b).next.keys| == |b.keys|
  {
  }

  lemma MovedSafe(b: S.B, x: Lexeme)
    requires Safe(b, false, b.mark) && S.AtMost(b.mark, x.start)
    ensures var m := S.MoveTo(b, x); Safe(m, false, m.mark)
    ensures var r := S.DropStale(S.MoveTo(b, x)); r.Fetched? ==> Safe(r.next, false, r.next.mark)
  {
    var m := S.MoveTo(b, x);
    MarkMoves(b, false, b.mark, x.start);
    NotPending(b.(mark := x.start), b.mark, false, x.start);
    AllowedMoves(b.(mark := x.start), false, x.start, m.allowed);
    StaleKeeps(m);
    hide Safe;
  }

  lemma StaleInv(b: S.B)
    requires Inv(b)
    ensures S.DropStale(b).Fetched? ==>
              Inv(S.DropStale(b).next) && S.DropStale(b).next == b.(keys := S.DropStale(b).next.keys)
    ensures !S.DropStale(b).Panic?
  {
    if b.started {
      StaleKeeps(b);
    }
  }

  lemma StreamStartInv(b: S.B)
    requires Inv(b) && !b.started
    ensures Inv(S.FetchStreamStart(b)) && S.FetchStreamStart(b).mark == b.mark && S.FetchStreamStart(b).started
  {
    StreamStartGoes(b);
  }
}
