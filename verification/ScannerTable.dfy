/** The scanner's bookkeeping as one table: which token the characters of a lexeme call for, and what
    fetching it makes of the tokens, the levels and the simple keys. */
module ScannerTable {
  import opened ScannerSpec
  import opened ScannerSafety
  import opened ScannerRuns

  // ---- What the characters call for ----

  /** A byte as a character. */
  predicate Is(l: Look, c: char) {
    l.c == c as int
  }

  /** "---" or "..." at the beginning of a line. */
  predicate IsMarker(x: Lexeme, c: char) {
    x.start.column == 0 && Is(x.look, c) && x.look.indicator
  }

  const INDICATORS: string := "-?:,[]{}#&*!|>'\"%@`"

  /** A plain scalar starts with a character that is no indicator, or with '-', '?' or ':' if something
      other than a blank follows. */
  predicate PlainHere(x: Lexeme, flow: nat) {
    var l := x.look;
    && l.c != 0 && !IsMarker(x, '-') && !IsMarker(x, '.')
    && (|| (!l.blankz && forall i | 0 <= i < |INDICATORS| :: !Is(l, INDICATORS[i]))
        || (Is(l, '-') && !l.blankNext && !l.blankzNext)
        || (flow == 0 && (Is(l, '?') || Is(l, ':')) && !l.blankzNext))
  }

  predicate BlockScalarHere(x: Lexeme, flow: nat) {
    flow == 0 && (Is(x.look, '|') || Is(x.look, '>'))
  }

  predicate QuotedHere(x: Lexeme) {
    Is(x.look, '\'') || Is(x.look, '"')
  }

  /** The kind of the token that is there. */
  predicate CallsFor(x: Lexeme, flow: nat, kind: Kind) {
    var l := x.look;
    match kind
    case StreamEnd => l.c == 0
    case Directive => x.start.column == 0 && Is(l, '%')
    case DocumentStart => IsMarker(x, '-')
    case DocumentEnd => IsMarker(x, '.')
    case FlowSequenceStart => Is(l, '[')
    case FlowSequenceEnd => Is(l, ']')
    case FlowMappingStart => Is(l, '{')
    case FlowMappingEnd => Is(l, '}')
    case FlowEntry => Is(l, ',')
    case BlockEntry => Is(l, '-') && l.blankzNext && !IsMarker(x, '-')
    case Key => Is(l, '?') && (flow > 0 || l.blankzNext)
    case Value => Is(l, ':') && (flow > 0 || l.blankzNext)
    case Alias => Is(l, '*')
    case Anchor => Is(l, '&')
    case Tag => Is(l, '!')
    case Scalar => QuotedHere(x) || BlockScalarHere(x, flow) || PlainHere(x, flow)
    case _ => false
  }

  // ---- Levels and keys ----

  /** The levels that are at most as deep as a column. */
  function UpTo(levels: seq<int>, column: int): (r: seq<int>)
    ensures |r| <= |levels|
  {
    if levels == [] || levels[0] > column then [] else [levels[0]] + UpTo(levels[1..], column)
  }

  function Ends(n: nat, at: Mark): (r: seq<Token>)
    ensures |r| == n && forall i | 0 <= i < n :: r[i] == Token(BlockEnd, at)
  {
    seq(n, _ => Token(BlockEnd, at))
  }

  /** A simple key lies on one line and within 1024 characters. */
  predicate Reaches(k: SimpleKey, at: Mark) {
    k.mark.line >= at.line && k.mark.index + 1024 >= at.index
  }

  /** The keys that can still be keys at a mark. */
  function Reaching(keys: seq<SimpleKey>, at: Mark): (r: seq<SimpleKey>)
    ensures |r| == |keys|
    ensures forall i | 0 <= i < |keys| :: r[i] == keys[i].(possible := keys[i].possible && Reaches(keys[i], at))
  {
    seq(|keys|, i requires 0 <= i < |keys| => keys[i].(possible := keys[i].possible && Reaches(keys[i], at)))
  }

  /** A required key has not found its ':'. */
  predicate Missed(keys: seq<SimpleKey>, at: Mark) {
    exists i | 0 <= i < |keys| :: keys[i].possible && keys[i].required && !Reaches(keys[i], at)
  }

  /** The innermost key is one no more. */
  function Unkeyed(keys: seq<SimpleKey>): seq<SimpleKey>
    requires keys != []
  {
    keys[|keys| - 1 := keys[|keys| - 1].(possible := false)]
  }

  function Last(keys: seq<SimpleKey>): SimpleKey
    requires keys != []
  {
    keys[|keys| - 1]
  }

  // ---- The table ----

  /** The scanner with other tokens, levels, keys and marks. */
  function With(b: B, ts: seq<Token>, levels: seq<int>, keys: seq<SimpleKey>, flow: nat, allowed: bool, mark: Mark): B
    requires levels != []
  {
    B(ts, b.parsed, keys, flow, levels[|levels| - 1], levels[..|levels| - 1], allowed, mark, b.started)
  }

  function AllLevels(b: B): (r: seq<int>)
    ensures r != []
  {
    b.indents + [b.indent]
  }

  /** Levels deeper than the lexeme end before it, outside of flow collections. */
  function LevelsAt(b: B, x: Lexeme): seq<int> {
    if b.flow > 0 then AllLevels(b) else UpTo(AllLevels(b), x.start.column)
  }

  function TokensAt(b: B, x: Lexeme): seq<Token>
    requires |LevelsAt(b, x)| <= |AllLevels(b)|
  {
    b.produced + Ends(|AllLevels(b)| - |LevelsAt(b, x)|, x.start)
  }

  /** A simple key may begin: after what allows one, or on a new line outside of flow collections. */
  predicate MayBegin(b: B, x: Lexeme) {
    b.allowed || (x.newline && b.flow == 0)
  }

  /** Nothing is done at a lexeme while a required key stays without its ':'. */
  predicate Holds(k: SimpleKey) {
    k.possible && k.required
  }

  /** A level for a block collection that starts here, if it is deeper. */
  function Deeper(levels: seq<int>, flow: nat, column: nat): (r: seq<int>)
    requires levels != []
    ensures r != []
  {
    if flow == 0 && levels[|levels| - 1] < column then levels + [column] else levels
  }

  /** Its token goes with the level. */
  function Starting(levels: seq<int>, flow: nat, at: Mark, start: Kind): seq<Token>
    requires levels != []
  {
    if flow == 0 && levels[|levels| - 1] < at.column then [Token(start, at)] else []
  }

  /** What fetching a token of the kind does: the tokens that are added, the levels, the keys, and
      whether a simple key may begin after it. */
  function Expected(b: B, x: Lexeme, kind: Kind): Result
    requires b.keys != [] && LevelsAt(b, x) != [] && |LevelsAt(b, x)| <= |AllLevels(b)|
    requires Last(b.keys).possible ==> Last(b.keys).number <= |b.produced|
  {
    var at := x.start;
    var levels := LevelsAt(b, x);
    var ts := TokensAt(b, x);
    var keys := Reaching(b.keys, at);
    var may := MayBegin(b, x);
    match kind
    case StreamEnd =>
      var end := LineEnd(at);
      var left := if b.flow > 0 then levels else [-1];
      if Holds(Last(keys)) then Error
      else Fetched(With(b, ts + Ends(|levels| - |left|, end) + [Token(StreamEnd, end)], left, Unkeyed(keys), b.flow, false, end))
    case Directive =>
      var left := if b.flow > 0 then levels else [-1];
      if Holds(Last(keys)) || !x.ok then Error
      else Fetched(With(b, ts + Ends(|levels| - |left|, at) + [Token(Directive, at)], left, Unkeyed(keys), b.flow, false, x.end))
    case DocumentStart => AtMarker(b, x, kind, levels, ts, keys)
    case DocumentEnd => AtMarker(b, x, kind, levels, ts, keys)
    case FlowSequenceStart => Opening(b, x, kind, levels, ts, keys)
    case FlowMappingStart => Opening(b, x, kind, levels, ts, keys)
    case FlowSequenceEnd => Closing(b, x, kind, levels, ts, keys)
    case FlowMappingEnd => Closing(b, x, kind, levels, ts, keys)
    case FlowEntry =>
      if Holds(Last(keys)) then Error
      else Fetched(With(b, ts + [Token(FlowEntry, at)], levels, Unkeyed(keys), b.flow, true, x.end))
    case BlockEntry =>
      if (b.flow == 0 && !may) || Holds(Last(keys)) then Error
      else Fetched(With(b, ts + Starting(levels, b.flow, at, BlockSequenceStart) + [Token(BlockEntry, at)],
                        Deeper(levels, b.flow, at.column), Unkeyed(keys), b.flow, true, x.end))
    case Key =>
      if (b.flow == 0 && !may) || Holds(Last(keys)) then Error
      else Fetched(With(b, ts + Starting(levels, b.flow, at, BlockMappingStart) + [Token(Key, at)],
                        Deeper(levels, b.flow, at.column), Unkeyed(keys), b.flow, b.flow == 0, x.end))
    case Value =>
      var k := Last(keys);
      if k.possible then
        Fetched(With(b, ts[..k.number] + Starting(levels, b.flow, k.mark, BlockMappingStart) + [Token(Key, k.mark)]
                        + ts[k.number..] + [Token(Value, at)],
                     Deeper(levels, b.flow, k.mark.column), Unkeyed(keys), b.flow, false, x.end))
      else if b.flow == 0 && !may then Error
      else Fetched(With(b, ts + Starting(levels, b.flow, at, BlockMappingStart) + [Token(Value, at)],
                        Deeper(levels, b.flow, at.column), keys, b.flow, b.flow == 0, x.end))
    case Alias => Beginning(b, x, kind, levels, ts, keys, false)
    case Anchor => Beginning(b, x, kind, levels, ts, keys, false)
    case Tag => Beginning(b, x, kind, levels, ts, keys, false)
    case Scalar =>
      if BlockScalarHere(x, b.flow) then
        if Holds(Last(keys)) || !x.ok then Error
        else Fetched(With(b, ts + [Token(Scalar, at)], levels, Unkeyed(keys), b.flow, true, x.end))
      else Beginning(b, x, kind, levels, ts, keys, !QuotedHere(x) && x.broken)
    case _ => Error
  }

  /** "---" and "...": all levels end. */
  function AtMarker(b: B, x: Lexeme, kind: Kind, levels: seq<int>, ts: seq<Token>, keys: seq<SimpleKey>): Result
    requires levels != [] && keys != []
  {
    var left := if b.flow > 0 then levels else [-1];
    if Holds(Last(keys)) then Error
    else Fetched(With(b, ts + Ends(|levels| - |left|, x.start) + [Token(kind, x.start)], left, Unkeyed(keys), b.flow, false, x.end))
  }

  /** What a simple key that begins here is. */
  function KeyHere(b: B, x: Lexeme, levels: seq<int>, ts: seq<Token>): SimpleKey
    requires levels != []
  {
    SimpleKey(true, b.flow == 0 && levels[|levels| - 1] == x.start.column, |ts|, x.start)
  }

  /** '[' and '{' may begin a simple key themselves. */
  function Opening(b: B, x: Lexeme, kind: Kind, levels: seq<int>, ts: seq<Token>, keys: seq<SimpleKey>): Result
    requires levels != [] && keys != []
  {
    if MayBegin(b, x) && Holds(Last(keys)) then Error
    else
      var saved := if MayBegin(b, x) then keys[|keys| - 1 := KeyHere(b, x, levels, ts)] else keys;
      Fetched(With(b, ts + [Token(kind, x.start)], levels, saved + [NO_KEY], b.flow + 1, true, x.end))
  }

  /** ']' and '}'. */
  function Closing(b: B, x: Lexeme, kind: Kind, levels: seq<int>, ts: seq<Token>, keys: seq<SimpleKey>): Result
    requires levels != [] && keys != []
  {
    if Holds(Last(keys)) then Error
    else Fetched(With(b, ts + [Token(kind, x.start)], levels, if b.flow > 0 then keys[..|keys| - 1] else Unkeyed(keys),
                      if b.flow > 0 then b.flow - 1 else 0, false, x.end))
  }

  /** Tokens that may begin a simple key, and after which none may. */
  function Beginning(b: B, x: Lexeme, kind: Kind, levels: seq<int>, ts: seq<Token>, keys: seq<SimpleKey>, allowed: bool): Result
    requires levels != [] && keys != []
  {
    if (MayBegin(b, x) && Holds(Last(keys))) || !x.ok then Error
    else
      var saved := if MayBegin(b, x) then keys[|keys| - 1 := KeyHere(b, x, levels, ts)] else keys;
      Fetched(With(b, ts + [Token(kind, x.start)], levels, saved, b.flow, allowed, x.end))
  }

  // ---- Levels ----

  lemma {:induction false} AllUpTo(levels: seq<int>, column: int)
    requires forall i | 0 <= i < |levels| :: levels[i] <= column
    ensures UpTo(levels, column) == levels
  {
    if levels != [] {
      AllUpTo(levels[1..], column);
    }
  }

  lemma {:induction false} LastBeyond(levels: seq<int>, column: int)
    requires levels != [] && levels[|levels| - 1] > column
    ensures UpTo(levels, column) == UpTo(levels[..|levels| - 1], column)
  {
    if |levels| > 1 && levels[0] <= column {
      LastBeyond(levels[1..], column);
      assert levels[1..][..|levels| - 2] == levels[..|levels| - 1][1..];
    }
  }

  lemma {:induction false} RisingUpTo(levels: seq<int>, column: int)
    requires Rising(levels) && column >= -1
    ensures UpTo(levels, column) != []
  {
  }

  lemma {:induction false} RisingOrder(levels: seq<int>, i: nat, j: nat)
    requires Rising(levels) && i <= j < |levels|
    ensures levels[i] <= levels[j]
    decreases j
  {
    if i < j {
      RisingOrder(levels, i, j - 1);
    }
  }

  /** One level less. */
  function Popped(b: B): B
    requires b.indents != []
  {
    var n := |b.indents| - 1;
    Append(b, BlockEnd, b.mark).(indent := b.indents[n], indents := b.indents[..n])
  }

  lemma UnrollStep(b: B, column: int)
    requires Safe(b, false, b.mark) && column >= -1 && b.flow == 0 && b.indent > column
    ensures b.indents != [] && Unroll(b, column) == Unroll(Popped(b), column) && Safe(Popped(b), false, b.mark)
  {
    Unfolded(b, false, b.mark);
    PopLevel(b);
    hide Safe;
  }

  lemma PoppedLevels(b: B, column: int)
    requires b.indents != [] && b.indent > column
    ensures var all := AllLevels(b);
            && AllLevels(Popped(b)) == all[..|all| - 1] && UpTo(all, column) == UpTo(AllLevels(Popped(b)), column)
            && Popped(b) == b.(produced := b.produced + [Token(BlockEnd, b.mark)], indent := Popped(b).indent, indents := Popped(b).indents)
  {
    var all := AllLevels(b);
    assert AllLevels(Popped(b)) == all[..|all| - 1];
    LastBeyond(all, column);
  }

  lemma NothingDeeper(b: B, column: int)
    requires Safe(b, false, b.mark) && b.indent <= column
    ensures UpTo(AllLevels(b), column) == AllLevels(b)
  {
    var all := AllLevels(b);
    LevelsRise(b);
    hide Safe, Rising;
    forall i | 0 <= i < |all|
      ensures all[i] <= column
    {
      RisingOrder(all, i, |all| - 1);
    }
    AllUpTo(all, column);
  }

  /** The scanner when only some of the levels are left. */
  function Unrolled(b: B, left: seq<int>): B
    requires left != [] && |left| <= |AllLevels(b)|
  {
    b.(produced := b.produced + Ends(|AllLevels(b)| - |left|, b.mark), indent := left[|left| - 1], indents := left[..|left| - 1])
  }

  lemma UnrolledNothing(b: B)
    ensures Unrolled(b, AllLevels(b)) == b
  {
    assert AllLevels(b)[..|b.indents|] == b.indents;
    assert b.produced + Ends(0, b.mark) == b.produced;
  }

  lemma UnrolledOneMore(b: B, left: seq<int>)
    requires b.indents != [] && left != [] && |left| <= |b.indents|
    ensures |left| <= |AllLevels(Popped(b))| && Unrolled(Popped(b), left) == Unrolled(b, left)
  {
    OneMoreEnd(b.produced, |b.indents| - |left|, b.mark);
    hide Ends;
  }

  /** Unrolling ends exactly the levels that are deeper. */
  lemma {:induction false} UnrollExactly(b: B, column: int)
    requires Safe(b, false, b.mark) && column >= -1
    ensures UpTo(AllLevels(b), column) != []
    ensures Unroll(b, column) == Fetched(if b.flow > 0 then b else Unrolled(b, UpTo(AllLevels(b), column)))
    decreases |b.indents|
  {
    LevelsRise(b);
    RisingUpTo(AllLevels(b), column);
    if b.flow == 0 && b.indent > column {
      UnrollStep(b, column);
      PoppedLevels(b, column);
      hide Safe, Unroll, UpTo, Rising;
      UnrollExactly(Popped(b), column);
      UnrolledOneMore(b, UpTo(AllLevels(b), column));
    } else {
      hide Safe, UpTo, Rising;
      if b.flow == 0 {
        NothingDeeper(b, column);
        UnrolledNothing(b);
      }
    }
  }

  lemma LevelsRise(b: B)
    requires Safe(b, false, b.mark)
    ensures Rising(AllLevels(b)) && |b.keys| == b.flow + 1
  {
    hide Balance, Nested;
  }

  lemma OneMoreEnd(ts: seq<Token>, n: nat, at: Mark)
    ensures ts + [Token(BlockEnd, at)] + Ends(n, at) == ts + Ends(n + 1, at)
  {
  }

  // ---- Keys ----

  lemma KeysReaching(b: B)
    ensures RequiredIsStale(b.keys, b.mark) <==> Missed(b.keys, b.mark)
    ensures WithoutStale(b.keys, b.mark) == Reaching(b.keys, b.mark)
  {
    assert forall k: SimpleKey :: IsStale(k, b.mark) <==> k.possible && !Reaches(k, b.mark);
    if RequiredIsStale(b.keys, b.mark) {
      var i :| 0 <= i < |b.keys| && IsStale(b.keys[i], b.mark) && b.keys[i].required;
      assert b.keys[i].possible && b.keys[i].required && !Reaches(b.keys[i], b.mark);
    }
    if Missed(b.keys, b.mark) {
      var i :| 0 <= i < |b.keys| && b.keys[i].possible && b.keys[i].required && !Reaches(b.keys[i], b.mark);
      assert IsStale(b.keys[i], b.mark);
    }
  }

  lemma RemoveExactly(b: B)
    requires b.keys != []
    ensures Remove(b) == if Holds(Last(b.keys)) then Error else Fetched(b.(keys := Unkeyed(b.keys)))
  {
  }

  lemma SaveExactly(b: B)
    requires b.keys != []
    ensures Save(b) ==
            if !b.allowed then Fetched(b)
            else if Holds(Last(b.keys)) then Error
            else Fetched(b.(keys := b.keys[|b.keys| - 1 := SimpleKey(true, b.flow == 0 && b.indent == b.mark.column, |b.produced|, b.mark)]))
  {
  }

  lemma RollExactly(b: B, kind: Kind)
    ensures RollHere(b, kind) ==
            if b.flow == 0 && !b.allowed then Error
            else
              var levels := Deeper(AllLevels(b), b.flow, b.mark.column);
              Fetched(b.(produced := b.produced + Starting(AllLevels(b), b.flow, b.mark, kind),
                         indent := levels[|levels| - 1], indents := levels[..|levels| - 1]))
  {
    var all := AllLevels(b);
    assert all[..|all| - 1] == b.indents;
    assert (all + [b.mark.column])[..|all|] == all;
    assert b.produced + [] == b.produced;
  }

  // ---- The lexeme ----

  /** The scanner at the lexeme: stale keys and deeper levels are gone. */
  function Arrived(b: B, x: Lexeme): B
    requires LevelsAt(b, x) != [] && |LevelsAt(b, x)| <= |AllLevels(b)|
  {
    With(b, TokensAt(b, x), LevelsAt(b, x), Reaching(b.keys, x.start), b.flow, MayBegin(b, x), x.start)
  }

  /** The scanner at the lexeme without stale keys, but with all levels. */
  function Reached(b: B, x: Lexeme): B {
    b.(mark := x.start, allowed := MayBegin(b, x), keys := Reaching(b.keys, x.start))
  }

  lemma StaleDropped(b: B, x: Lexeme)
    ensures DropStale(MoveTo(b, x)) == if Missed(b.keys, x.start) then Error else Fetched(Reached(b, x))
  {
    KeysReaching(MoveTo(b, x));
    hide RequiredIsStale, Missed, WithoutStale, Reaching;
  }

  lemma ReachedSafe(b: B, x: Lexeme)
    requires Safe(b, false, b.mark) && AtMost(b.mark, x.start)
    ensures !Missed(b.keys, x.start) ==> Safe(Reached(b, x), false, x.start)
  {
    var m := MoveTo(b, x);
    MarkMoves(b, false, b.mark, x.start);
    NotPending(b.(mark := x.start), b.mark, false, x.start);
    AllowedMoves(b.(mark := x.start), false, x.start, m.allowed);
    StaleKeeps(m);
    StaleDropped(b, x);
    hide Safe, DropStale, Missed, Reaching;
  }

  lemma ArrivedIsUnrolled(b: B, x: Lexeme)
    requires LevelsAt(b, x) != [] && |LevelsAt(b, x)| <= |AllLevels(b)|
    ensures Arrived(b, x) == if b.flow > 0 then Reached(b, x) else Unrolled(Reached(b, x), UpTo(AllLevels(Reached(b, x)), x.start.column))
  {
    if b.flow > 0 {
      UnrolledNothing(Reached(b, x));
    }
    hide UpTo;
  }

  lemma ArrivesExactly(b: B, x: Lexeme)
    requires Safe(b, false, b.mark) && AtMost(b.mark, x.start)
    ensures LevelsAt(b, x) != [] && |LevelsAt(b, x)| <= |AllLevels(b)|
    ensures FetchNext(b, x) == if Missed(b.keys, x.start) then Error else FetchAt(Arrived(b, x), x)
    ensures !Missed(b.keys, x.start) ==> Safe(Arrived(b, x), false, x.start)
  {
    LevelsRise(b);
    RisingUpTo(AllLevels(b), x.start.column);
    ArrivedIsUnrolled(b, x);
    StaleDropped(b, x);
    ReachedSafe(b, x);
    hide Safe, UpTo, Rising, Missed, DropStale, Unroll, Arrived, Unrolled, FetchAt, Reaching;
    if !Missed(b.keys, x.start) {
      UnrollExactly(Reached(b, x), x.start.column);
      UnrollKeeps(Reached(b, x), x.start.column);
    }
  }

  // ---- Each kind ----

  /** The fetcher for a kind. */
  function Fetcher(u: B, x: Lexeme, kind: Kind): Result {
    match kind
    case StreamEnd => FetchStreamEnd(u)
    case Directive => FetchDirective(u, x)
    case DocumentStart => FetchDocumentIndicator(u, kind, x)
    case DocumentEnd => FetchDocumentIndicator(u, kind, x)
    case FlowSequenceStart => FetchFlowStart(u, kind, x)
    case FlowMappingStart => FetchFlowStart(u, kind, x)
    case FlowSequenceEnd => FetchFlowEnd(u, kind, x)
    case FlowMappingEnd => FetchFlowEnd(u, kind, x)
    case FlowEntry => FetchFlowEntry(u, x)
    case BlockEntry => FetchBlockEntry(u, x)
    case Key => FetchKey(u, x)
    case Value => FetchValue(u, x)
    case Scalar =>
      if BlockScalarHere(x, u.flow) then FetchBlockScalar(u, x)
      else if QuotedHere(x) then FetchSaved(u, kind, x)
      else FetchPlainScalar(u, x)
    case _ => FetchSaved(u, kind, x)
  }

  lemma IndicatorsListed(l: Look)
    ensures (forall i | 0 <= i < |INDICATORS| :: !Is(l, INDICATORS[i])) <==>
            l.c !in {0x2D, 0x3F, 0x3A, 0x2C, 0x5B, 0x5D, 0x7B, 0x7D, 0x23, 0x26, 0x2A, 0x21, 0x7C, 0x3E, 0x27, 0x22, 0x25, 0x40, 0x60}
  {
    var s := INDICATORS;
    assert |s| == 19;
    assert s[0] == '-' && s[1] == '?' && s[2] == ':' && s[3] == ',' && s[4] == '[' && s[5] == ']' && s[6] == '{' && s[7] == '}';
    assert s[8] == '#' && s[9] == '&' && s[10] == '*' && s[11] == '!' && s[12] == '|' && s[13] == '>' && s[14] == '\'';
    assert s[15] == '"' && s[16] == '%' && s[17] == '@' && s[18] == '`';
  }

  lemma PlainListed(x: Lexeme, flow: nat)
    ensures PlainHere(x, flow) <==>
            && x.look.c != 0 && !IsMarker(x, '-') && !IsMarker(x, '.') && StartsPlain(x.look, flow)
            && !(x.look.c == 0x2D && x.look.blankzNext)
  {
    IndicatorsListed(x.look);
  }

  lemma PlainIsNoIndicator(l: Look, flow: nat)
    ensures StartsPlain(l, flow) && l.c != 0x2D && l.c != 0x3F && l.c != 0x3A ==>
            l.c !in {0x2C, 0x5B, 0x5D, 0x7B, 0x7D, 0x26, 0x2A, 0x21, 0x7C, 0x3E, 0x27, 0x22, 0x25}
    ensures StartsPlain(l, flow) && (l.c == 0x3F || l.c == 0x3A) ==> flow == 0 && !l.blankzNext
  {
  }

  /** The dispatcher goes by what the characters call for. */
  lemma Dispatched(u: B, x: Lexeme, kind: Kind)
    requires u.mark == x.start && CallsFor(x, u.flow, kind)
    ensures FetchAt(u, x) == Fetcher(u, x, kind)
  {
    PlainListed(x, u.flow);
    PlainIsNoIndicator(x.look, u.flow);
    hide FetchStreamEnd, FetchDirective, FetchDocumentIndicator, FetchFlowStart, FetchFlowEnd, FetchFlowEntry,
         FetchBlockEntry, FetchKey, FetchValue, FetchSaved, FetchBlockScalar, FetchPlainScalar, StartsPlain, PlainHere;
  }

  /** What no kind is called for by. */
  predicate Nothing(x: Lexeme, flow: nat) {
    var l := x.look;
    && l.c != 0 && !(x.start.column == 0 && l.c == 0x25) && !IsMarker(x, '-') && !IsMarker(x, '.')
    && l.c != 0x5B && l.c != 0x5D && l.c != 0x7B && l.c != 0x7D && l.c != 0x2C && !(l.c == 0x2D && l.blankzNext)
    && !((l.c == 0x3F || l.c == 0x3A) && (flow > 0 || l.blankzNext))
    && l.c != 0x2A && l.c != 0x26 && l.c != 0x21 && l.c != 0x27 && l.c != 0x22
    && !((l.c == 0x7C || l.c == 0x3E) && flow == 0) && !PlainHere(x, flow)
  }

  lemma NothingCalled(x: Lexeme, flow: nat)
    requires !Nothing(x, flow)
    ensures exists kind :: CallsFor(x, flow, kind)
  {
    hide PlainHere;
    var l := x.look;
    if l.c == 0 { assert CallsFor(x, flow, StreamEnd); }
    else if x.start.column == 0 && l.c == 0x25 { assert CallsFor(x, flow, Directive); }
    else if IsMarker(x, '-') { assert CallsFor(x, flow, DocumentStart); }
    else if IsMarker(x, '.') { assert CallsFor(x, flow, DocumentEnd); }
    else if l.c == 0x5B { assert CallsFor(x, flow, FlowSequenceStart); }
    else if l.c == 0x5D { assert CallsFor(x, flow, FlowSequenceEnd); }
    else if l.c == 0x7B { assert CallsFor(x, flow, FlowMappingStart); }
    else if l.c == 0x7D { assert CallsFor(x, flow, FlowMappingEnd); }
    else if l.c == 0x2C { assert CallsFor(x, flow, FlowEntry); }
    else if l.c == 0x2D && l.blankzNext { assert CallsFor(x, flow, BlockEntry); }
    else if l.c == 0x3F && (flow > 0 || l.blankzNext) { assert CallsFor(x, flow, Key); }
    else if l.c == 0x3A && (flow > 0 || l.blankzNext) { assert CallsFor(x, flow, Value); }
    else if l.c == 0x2A { assert CallsFor(x, flow, Alias); }
    else if l.c == 0x26 { assert CallsFor(x, flow, Anchor); }
    else if l.c == 0x21 { assert CallsFor(x, flow, Tag); }
    else { assert CallsFor(x, flow, Scalar); }
  }

  /** Where nothing is called for, there is an error. */
  lemma NotDispatched(u: B, x: Lexeme)
    requires u.mark == x.start && forall kind :: !CallsFor(x, u.flow, kind)
    ensures FetchAt(u, x) == Error
  {
    PlainListed(x, u.flow);
    if !Nothing(x, u.flow) {
      NothingCalled(x, u.flow);
    }
    hide StartsPlain, PlainHere, CallsFor, FetchStreamEnd, FetchDirective, FetchDocumentIndicator, FetchFlowStart, FetchFlowEnd,
         FetchFlowEntry, FetchBlockEntry, FetchKey, FetchValue, FetchSaved, FetchBlockScalar, FetchPlainScalar;
  }

  /** `u` is the scanner at the lexeme. */
  ghost predicate At(u: B, b: B, x: Lexeme, levels: seq<int>, ts: seq<Token>, keys: seq<SimpleKey>) {
    && levels != [] && keys != [] && u == With(b, ts, levels, keys, b.flow, MayBegin(b, x), x.start)
  }

  lemma LevelsOfAt(u: B, b: B, x: Lexeme, levels: seq<int>, ts: seq<Token>, keys: seq<SimpleKey>)
    requires At(u, b, x, levels, ts, keys)
    ensures AllLevels(u) == levels && u.produced == ts && u.keys == keys && u.keys != []
    ensures u.mark == x.start && u.flow == b.flow && u.allowed == MayBegin(b, x)
  {
    assert levels[..|levels| - 1] + [levels[|levels| - 1]] == levels;
  }

  lemma ResetExactly(u: B)
    requires Safe(u, false, u.mark)
    ensures u.keys != []
    ensures var left := if u.flow > 0 then AllLevels(u) else [-1];
            && |left| <= |AllLevels(u)|
            && Reset(u) == if Holds(Last(u.keys)) then Error else Fetched(Unrolled(u, left).(keys := Unkeyed(u.keys), allowed := false))
  {
    LevelsRise(u);
    UnrollExactly(u, -1);
    OnlyOutside(AllLevels(u));
    UnrolledNothing(u);
    var q := Unroll(u, -1).next;
    hide Safe, Rising, UpTo;
    assert q.keys == u.keys;
    RemoveExactly(q);
    hide Unroll, Remove;
  }

  lemma OnlyOutside(levels: seq<int>)
    requires Rising(levels)
    ensures UpTo(levels, -1) == [-1]
  {
    if |levels| > 1 {
      assert levels[0] < levels[1];
      assert levels[1..][0] > -1;
      assert UpTo(levels[1..], -1) == [];
    } else {
      assert UpTo(levels[1..], -1) == [];
    }
  }

  lemma StreamEndExactly(u: B, b: B, x: Lexeme, levels: seq<int>, ts: seq<Token>, keys: seq<SimpleKey>)
    requires At(u, b, x, levels, ts, keys) && Safe(u, false, u.mark)
    ensures var left := if b.flow > 0 then levels else [-1];
            var end := LineEnd(x.start);
            FetchStreamEnd(u) ==
            if Holds(Last(keys)) then Error
            else Fetched(With(b, ts + Ends(|levels| - |left|, end) + [Token(StreamEnd, end)], left, Unkeyed(keys), b.flow, false, end))
  {
    LevelsOfAt(u, b, x, levels, ts, keys);
    var m := u.(mark := LineEnd(u.mark));
    MarkMoves(u, false, u.mark, m.mark);
    NotPending(m, u.mark, false, m.mark);
    assert AllLevels(m) == AllLevels(u);
    hide Safe;
    ResetExactly(m);
    hide Reset;
  }

  lemma MarkerExactly(u: B, b: B, x: Lexeme, kind: Kind, levels: seq<int>, ts: seq<Token>, keys: seq<SimpleKey>)
    requires At(u, b, x, levels, ts, keys) && Safe(u, false, u.mark)
    ensures FetchDocumentIndicator(u, kind, x) == AtMarker(b, x, kind, levels, ts, keys)
    ensures FetchDirective(u, x) == if x.ok then AtMarker(b, x, Directive, levels, ts, keys) else Error
  {
    LevelsOfAt(u, b, x, levels, ts, keys);
    ResetExactly(u);
    hide Safe, Reset;
  }

  lemma OpeningExactly(u: B, b: B, x: Lexeme, kind: Kind, levels: seq<int>, ts: seq<Token>, keys: seq<SimpleKey>)
    requires At(u, b, x, levels, ts, keys)
    ensures FetchFlowStart(u, kind, x) == Opening(b, x, kind, levels, ts, keys)
  {
    LevelsOfAt(u, b, x, levels, ts, keys);
    LastLevel(u);
    SaveExactly(u);
    hide Save;
  }

  lemma ClosingExactly(u: B, b: B, x: Lexeme, kind: Kind, levels: seq<int>, ts: seq<Token>, keys: seq<SimpleKey>)
    requires At(u, b, x, levels, ts, keys)
    ensures FetchFlowEnd(u, kind, x) == Closing(b, x, kind, levels, ts, keys)
  {
    LevelsOfAt(u, b, x, levels, ts, keys);
    RemoveExactly(u);
    hide Remove;
  }

  lemma FlowEntryExactly(u: B, b: B, x: Lexeme, levels: seq<int>, ts: seq<Token>, keys: seq<SimpleKey>)
    requires At(u, b, x, levels, ts, keys)
    ensures FetchFlowEntry(u, x) ==
            if Holds(Last(keys)) then Error
            else Fetched(With(b, ts + [Token(FlowEntry, x.start)], levels, Unkeyed(keys), b.flow, true, x.end))
  {
    LevelsOfAt(u, b, x, levels, ts, keys);
    RemoveExactly(u);
    hide Remove;
  }

  lemma EntryExactly(u: B, b: B, x: Lexeme, levels: seq<int>, ts: seq<Token>, keys: seq<SimpleKey>)
    requires At(u, b, x, levels, ts, keys)
    ensures FetchBlockEntry(u, x) ==
            if (b.flow == 0 && !MayBegin(b, x)) || Holds(Last(keys)) then Error
            else Fetched(With(b, ts + Starting(levels, b.flow, x.start, BlockSequenceStart) + [Token(BlockEntry, x.start)],
                              Deeper(levels, b.flow, x.start.column), Unkeyed(keys), b.flow, true, x.end))
    ensures FetchKey(u, x) ==
            if (b.flow == 0 && !MayBegin(b, x)) || Holds(Last(keys)) then Error
            else Fetched(With(b, ts + Starting(levels, b.flow, x.start, BlockMappingStart) + [Token(Key, x.start)],
                              Deeper(levels, b.flow, x.start.column), Unkeyed(keys), b.flow, b.flow == 0, x.end))
  {
    LevelsOfAt(u, b, x, levels, ts, keys);
    RollExactly(u, BlockSequenceStart);
    RollExactly(u, BlockMappingStart);
    hide RollHere, Starting, Deeper;
    if RollHere(u, BlockSequenceStart).Fetched? {
      RemoveExactly(RollHere(u, BlockSequenceStart).next);
      RemoveExactly(RollHere(u, BlockMappingStart).next);
    }
    hide Remove;
  }

  lemma SimpleValueFetched(u: B, x: Lexeme)
    requires u.keys != [] && Last(u.keys).possible && Last(u.keys).number <= |u.produced|
    ensures FetchValue(u, x)
         == Fetched(Append(InsertKey(u).(keys := Unkeyed(u.keys), allowed := false), Value, u.mark).(mark := x.end))
  {
    hide InsertKey;
  }

  lemma SimpleValueExactly(u: B, b: B, x: Lexeme, levels: seq<int>, ts: seq<Token>, keys: seq<SimpleKey>)
    requires At(u, b, x, levels, ts, keys) && Safe(u, false, u.mark) && Last(keys).possible
    ensures var k := Last(keys);
            && k.number <= |ts|
            && FetchValue(u, x)
               == Fetched(With(b, ts[..k.number] + Starting(levels, b.flow, k.mark, BlockMappingStart) + [Token(Key, k.mark)]
                                  + ts[k.number..] + [Token(Value, x.start)],
                               Deeper(levels, b.flow, k.mark.column), Unkeyed(keys), b.flow, false, x.end))
  {
    LevelsOfAt(u, b, x, levels, ts, keys);
    AtFields(u, b, x, levels, ts, keys);
    InsertKeyKeeps(u);
    KeyLevels(u, levels);
    LastLevel(u);
    hide Safe, InsertKey, Deeper, Unkeyed, FetchValue, At, AllLevels;
    SimpleValueFetched(u, x);
  }

  lemma AtFields(u: B, b: B, x: Lexeme, levels: seq<int>, ts: seq<Token>, keys: seq<SimpleKey>)
    requires At(u, b, x, levels, ts, keys)
    ensures u.parsed == b.parsed && u.started == b.started
  {
  }

  lemma LastLevel(u: B)
    ensures AllLevels(u)[|AllLevels(u)| - 1] == u.indent
  {
  }

  lemma OtherValueExactly(u: B, b: B, x: Lexeme, levels: seq<int>, ts: seq<Token>, keys: seq<SimpleKey>)
    requires At(u, b, x, levels, ts, keys) && !Last(keys).possible
    ensures FetchValue(u, x) ==
            if b.flow == 0 && !MayBegin(b, x) then Error
            else Fetched(With(b, ts + Starting(levels, b.flow, x.start, BlockMappingStart) + [Token(Value, x.start)],
                              Deeper(levels, b.flow, x.start.column), keys, b.flow, b.flow == 0, x.end))
  {
    LevelsOfAt(u, b, x, levels, ts, keys);
    RollExactly(u, BlockMappingStart);
    hide RollHere, Starting, Deeper;
  }

  /** The levels after the insertion of a simple key. */
  lemma KeyLevels(u: B, levels: seq<int>)
    requires AllLevels(u) == levels && u.keys != [] && u.keys[|u.keys| - 1].number <= |u.produced|
    ensures var d := Deeper(levels, u.flow, u.keys[|u.keys| - 1].mark.column);
            InsertKey(u).indent == d[|d| - 1] && InsertKey(u).indents == d[..|d| - 1]
  {
    assert levels[..|levels| - 1] == u.indents && levels[|levels| - 1] == u.indent;
    var c := u.keys[|u.keys| - 1].mark.column;
    assert (levels + [c])[..|levels|] == levels;
  }

  lemma BeginningExactly(u: B, b: B, x: Lexeme, kind: Kind, levels: seq<int>, ts: seq<Token>, keys: seq<SimpleKey>)
    requires At(u, b, x, levels, ts, keys)
    ensures FetchSaved(u, kind, x) == Beginning(b, x, kind, levels, ts, keys, false)
  {
    LevelsOfAt(u, b, x, levels, ts, keys);
    LastLevel(u);
    SaveExactly(u);
    hide Save;
  }

  lemma PlainExactly(u: B, b: B, x: Lexeme, levels: seq<int>, ts: seq<Token>, keys: seq<SimpleKey>)
    requires At(u, b, x, levels, ts, keys)
    ensures FetchPlainScalar(u, x) == Beginning(b, x, Scalar, levels, ts, keys, x.broken)
  {
    BeginningExactly(u, b, x, Scalar, levels, ts, keys);
    hide FetchSaved, At;
  }

  lemma BlockScalarExactly(u: B, b: B, x: Lexeme, levels: seq<int>, ts: seq<Token>, keys: seq<SimpleKey>)
    requires At(u, b, x, levels, ts, keys)
    ensures FetchBlockScalar(u, x) ==
            if Holds(Last(keys)) || !x.ok then Error
            else Fetched(With(b, ts + [Token(Scalar, x.start)], levels, Unkeyed(keys), b.flow, true, x.end))
  {
    LevelsOfAt(u, b, x, levels, ts, keys);
    RemoveExactly(u);
    hide Remove;
  }

  // ---- The main result ----

  /** Fetching, with stale keys and deeper levels dropped first, does exactly what the table says for
      the kind that the characters call for; and where they call for none, it fails. */
  lemma FetchesExactly(b: B, x: Lexeme, kind: Kind)
    requires Safe(b, false, b.mark) && AtMost(b.mark, x.start) && AtMost(x.start, x.end) && CallsFor(x, b.flow, kind)
    ensures b.keys != [] && LevelsAt(b, x) != [] && |LevelsAt(b, x)| <= |AllLevels(b)|
    ensures Last(b.keys).possible ==> Last(b.keys).number <= |b.produced|
    ensures FetchNext(b, x) == if Missed(b.keys, x.start) then Error else Expected(b, x, kind)
  {
    LevelsRise(b);
    ArrivesExactly(b, x);
    LastInQueue(b);
    hide Safe, FetchNext, Missed, FetchAt, UpTo;
    if !Missed(b.keys, x.start) {
      var u := Arrived(b, x);
      var levels, ts, keys := LevelsAt(b, x), TokensAt(b, x), Reaching(b.keys, x.start);
      assert At(u, b, x, levels, ts, keys);
      Dispatched(u, x, kind);
      FetcherExactly(u, b, x, kind, levels, ts, keys);
    }
  }

  lemma LastInQueue(b: B)
    requires Safe(b, false, b.mark) && b.keys != []
    ensures Last(b.keys).possible ==> Last(b.keys).number <= |b.produced|
  {
    assert KeySafe(b, Last(b.keys), false, b.mark);
    hide Balance, Nested;
  }

  lemma FetcherExactly(u: B, b: B, x: Lexeme, kind: Kind, levels: seq<int>, ts: seq<Token>, keys: seq<SimpleKey>)
    requires At(u, b, x, levels, ts, keys) && Safe(u, false, u.mark) && CallsFor(x, b.flow, kind)
    requires b.keys != [] && levels == LevelsAt(b, x) && |levels| <= |AllLevels(b)| && ts == TokensAt(b, x)
    requires keys == Reaching(b.keys, x.start) && (Last(b.keys).possible ==> Last(b.keys).number <= |b.produced|)
    ensures Fetcher(u, x, kind) == Expected(b, x, kind)
  {
    LevelsOfAt(u, b, x, levels, ts, keys);
    hide Safe, At, FetchStreamEnd, FetchDirective, FetchDocumentIndicator, FetchFlowStart, FetchFlowEnd, FetchFlowEntry,
         FetchBlockEntry, FetchKey, FetchValue, FetchSaved, FetchBlockScalar, FetchPlainScalar, StartsPlain, UpTo, LevelsAt, TokensAt;
    match kind
    case StreamEnd => StreamEndExactly(u, b, x, levels, ts, keys);
    case Directive => MarkerExactly(u, b, x, Directive, levels, ts, keys);
    case DocumentStart => MarkerExactly(u, b, x, kind, levels, ts, keys);
    case DocumentEnd => MarkerExactly(u, b, x, kind, levels, ts, keys);
    case FlowSequenceStart => OpeningExactly(u, b, x, kind, levels, ts, keys);
    case FlowMappingStart => OpeningExactly(u, b, x, kind, levels, ts, keys);
    case FlowSequenceEnd => ClosingExactly(u, b, x, kind, levels, ts, keys);
    case FlowMappingEnd => ClosingExactly(u, b, x, kind, levels, ts, keys);
    case FlowEntry => FlowEntryExactly(u, b, x, levels, ts, keys);
    case BlockEntry => EntryExactly(u, b, x, levels, ts, keys);
    case Key => EntryExactly(u, b, x, levels, ts, keys);
    case Value =>
      if Last(keys).possible {
        SimpleValueExactly(u, b, x, levels, ts, keys);
      } else {
        OtherValueExactly(u, b, x, levels, ts, keys);
      }
    case Scalar =>
      BeginningExactly(u, b, x, kind, levels, ts, keys);
      PlainExactly(u, b, x, levels, ts, keys);
      BlockScalarExactly(u, b, x, levels, ts, keys);
    case _ => BeginningExactly(u, b, x, kind, levels, ts, keys);
  }

  lemma FetchesNothing(b: B, x: Lexeme)
    requires Safe(b, false, b.mark) && AtMost(b.mark, x.start) && forall kind :: !CallsFor(x, b.flow, kind)
    ensures FetchNext(b, x) == Error
  {
    ArrivesExactly(b, x);
    hide Safe, FetchNext, FetchAt, CallsFor;
    if !Missed(b.keys, x.start) {
      NotDispatched(Arrived(b, x), x);
    }
  }
}
