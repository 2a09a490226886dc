/** The bookkeeping of scannerc.go around its token queue, as functions of one record: possible
    simple keys, indentation levels and flow levels. What the scanner sees of its input at each
    token is a lexeme; the characters inside tokens do not matter here. */
module ScannerSpec {
  import opened TokenQueue

  datatype Mark = Mark(index: nat, line: nat, column: nat)

  predicate AtMost(a: Mark, b: Mark) {
    a.index <= b.index && a.line <= b.line
  }

  datatype Kind =
    | StreamStart | StreamEnd | Directive | DocumentStart | DocumentEnd
    | BlockSequenceStart | BlockMappingStart | BlockEnd
    | FlowSequenceStart | FlowSequenceEnd | FlowMappingStart | FlowMappingEnd
    | BlockEntry | FlowEntry | Key | Value
    | Alias | Anchor | Tag | Scalar

  datatype Token = Token(kind: Kind, start: Mark)

  datatype SimpleKey = SimpleKey(possible: bool, required: bool, number: nat, mark: Mark)

  const NO_KEY := SimpleKey(false, false, 0, Mark(0, 0, 0))

  /** What stands at a token: its first byte, whether that is a blank, a break or NUL, whether the
      byte begins a document indicator, and what follows it. */
  datatype Look = Look(c: int, blankz: bool, indicator: bool, blankNext: bool, blankzNext: bool)

  /** One token of the input: the mark before it, whether a line was broken on the way there, what
      is there, whether it can be scanned, whether a plain scalar ends after a break, and the mark
      after it. */
  datatype Lexeme = Lexeme(start: Mark, newline: bool, look: Look, ok: bool, broken: bool, end: Mark)

  /** The fields of yaml_parser_t. `produced` is all tokens so far in their present order, of which
      the parser has been handed the first `parsed`; the others are the queue. */
  datatype B = B(
    produced: seq<Token>, parsed: nat, keys: seq<SimpleKey>, flow: nat,
    indent: int, indents: seq<int>, allowed: bool, mark: Mark, started: bool)

  datatype Result = Fetched(next: B) | Error | Panic

  const START := B([], 0, [], 0, 0, [], false, Mark(0, 0, 0), false)

  // ---- The queue ----

  function Append(b: B, kind: Kind, start: Mark): B {
    b.(produced := b.produced + [Token(kind, start)])
  }

  /** yaml_insert_token for the token with a number: if that is not in the queue any more, the
      token goes to the end. */
  function InsertAt(b: B, number: int, t: Token): B
    requires number <= |b.produced|
  {
    b.(produced := Inserted(b.produced, if number < b.parsed then -1 else number, t))
  }

  // ---- Simple keys ----

  predicate IsStale(k: SimpleKey, mark: Mark) {
    k.possible && (k.mark.line < mark.line || k.mark.index + 1024 < mark.index)
  }

  predicate RequiredIsStale(keys: seq<SimpleKey>, mark: Mark) {
    exists i | 0 <= i < |keys| :: IsStale(keys[i], mark) && keys[i].required
  }

  function WithoutStale(keys: seq<SimpleKey>, mark: Mark): (r: seq<SimpleKey>)
    ensures |r| == |keys|
    ensures forall i | 0 <= i < |keys| :: r[i] == if IsStale(keys[i], mark) then keys[i].(possible := false) else keys[i]
  {
    seq(|keys|, i requires 0 <= i < |keys| => if IsStale(keys[i], mark) then keys[i].(possible := false) else keys[i])
  }

  /** yaml_parser_stale_simple_keys. */
  function DropStale(b: B): Result {
    if RequiredIsStale(b.keys, b.mark) then Error else Fetched(b.(keys := WithoutStale(b.keys, b.mark)))
  }

  /** yaml_parser_remove_simple_key. */
  function Remove(b: B): Result {
    if b.keys == [] then Panic
    else
      var k := b.keys[|b.keys| - 1];
      if k.possible && k.required then Error
      else Fetched(b.(keys := b.keys[|b.keys| - 1 := k.(possible := false)]))
  }

  /** yaml_parser_save_simple_key. */
  function Save(b: B): Result {
    if !b.allowed then Fetched(b)
    else
      match Remove(b)
      case Fetched(r) =>
        var k := SimpleKey(true, b.flow == 0 && b.indent == b.mark.column, |b.produced|, b.mark);
        Fetched(r.(keys := b.keys[|b.keys| - 1 := k]))
      case _ => Remove(b)
  }

  // ---- Levels ----

  function IncreaseFlow(b: B): B {
    b.(keys := b.keys + [NO_KEY], flow := b.flow + 1)
  }

  function DecreaseFlow(b: B): Result {
    if b.flow == 0 then Fetched(b)
    else if b.keys == [] then Panic
    else Fetched(b.(keys := b.keys[..|b.keys| - 1], flow := b.flow - 1))
  }

  /** yaml_parser_roll_indent. A negative number appends the token. */
  function Roll(b: B, column: int, number: int, t: Token): B
    requires number <= |b.produced|
  {
    if b.flow > 0 || b.indent >= column then b
    else InsertAt(b.(indents := b.indents + [b.indent], indent := column), number, t)
  }

  /** yaml_parser_unroll_indent. */
  function Unroll(b: B, column: int): Result
    decreases |b.indents|
  {
    if b.flow > 0 || b.indent <= column then Fetched(b)
    else if b.indents == [] then Panic
    else
      var n := |b.indents| - 1;
      Unroll(Append(b, BlockEnd, b.mark).(indent := b.indents[n], indents := b.indents[..n]), column)
  }

  // ---- The fetchers ----

  function FetchStreamStart(b: B): B {
    Append(b, StreamStart, b.mark).(indent := -1, keys := b.keys + [NO_KEY], allowed := true, started := true)
  }

  /** The mark once the end of the stream has forced a new line. */
  function LineEnd(m: Mark): Mark {
    if m.column == 0 then m else Mark(m.index, m.line + 1, 0)
  }

  /** All levels are closed and no simple key is allowed any more. */
  function Reset(b: B): Result {
    match Unroll(b, -1)
    case Fetched(u) =>
      (match Remove(u)
       case Fetched(r) => Fetched(r.(allowed := false))
       case _ => Remove(u))
    case r => r
  }

  function FetchStreamEnd(b: B): Result {
    match Reset(b.(mark := LineEnd(b.mark)))
    case Fetched(r) => Fetched(Append(r, StreamEnd, r.mark))
    case r => r
  }

  /** A token that is read up to the mark `end`, or cannot be. */
  function Consume(b: B, kind: Kind, x: Lexeme): Result {
    if x.ok then Fetched(Append(b, kind, b.mark).(mark := x.end)) else Error
  }

  function FetchDirective(b: B, x: Lexeme): Result {
    match Reset(b)
    case Fetched(r) => Consume(r, Directive, x)
    case r => r
  }

  function FetchDocumentIndicator(b: B, kind: Kind, x: Lexeme): Result {
    match Reset(b)
    case Fetched(r) => Fetched(Append(r, kind, r.mark).(mark := x.end))
    case r => r
  }

  function FetchFlowStart(b: B, kind: Kind, x: Lexeme): Result {
    match Save(b)
    case Fetched(s) => Fetched(Append(IncreaseFlow(s).(allowed := true), kind, b.mark).(mark := x.end))
    case r => r
  }

  function FetchFlowEnd(b: B, kind: Kind, x: Lexeme): Result {
    match Remove(b)
    case Fetched(r) =>
      (match DecreaseFlow(r)
       case Fetched(d) => Fetched(Append(d.(allowed := false), kind, b.mark).(mark := x.end))
       case d => d)
    case r => r
  }

  function FetchFlowEntry(b: B, x: Lexeme): Result {
    match Remove(b)
    case Fetched(r) => Fetched(Append(r.(allowed := true), FlowEntry, b.mark).(mark := x.end))
    case r => r
  }

  /** The part of an entry indicator before its own token. */
  function RollHere(b: B, kind: Kind): Result {
    if b.flow == 0 && !b.allowed then Error
    else Fetched(Roll(b, b.mark.column, -1, Token(kind, b.mark)))
  }

  function FetchBlockEntry(b: B, x: Lexeme): Result {
    match RollHere(b, BlockSequenceStart)
    case Fetched(r) =>
      (match Remove(r)
       case Fetched(k) => Fetched(Append(k.(allowed := true), BlockEntry, b.mark).(mark := x.end))
       case k => k)
    case r => r
  }

  function FetchKey(b: B, x: Lexeme): Result {
    match RollHere(b, BlockMappingStart)
    case Fetched(r) =>
      (match Remove(r)
       case Fetched(k) => Fetched(Append(k.(allowed := b.flow == 0), Key, b.mark).(mark := x.end))
       case k => k)
    case r => r
  }

  /** The KEY of a simple key, and BLOCK-MAPPING-START before it if the level is new. */
  function InsertKey(b: B): B
    requires b.keys != [] && b.keys[|b.keys| - 1].number <= |b.produced|
  {
    var k := b.keys[|b.keys| - 1];
    Roll(InsertAt(b, k.number, Token(Key, k.mark)), k.mark.column, k.number, Token(BlockMappingStart, k.mark))
  }

  function FetchValue(b: B, x: Lexeme): Result {
    if b.keys == [] then Panic
    else
      var n := |b.keys| - 1;
      var k := b.keys[n];
      if k.possible then
        if k.number > |b.produced| then Panic
        else Fetched(Append(InsertKey(b).(keys := b.keys[n := k.(possible := false)], allowed := false), Value, b.mark).(mark := x.end))
      else
        match RollHere(b, BlockMappingStart)
        case Fetched(r) => Fetched(Append(r.(allowed := b.flow == 0), Value, b.mark).(mark := x.end))
        case r => r
  }

  /** Anchors, aliases, tags and flow scalars: a simple key may start, none may follow. */
  function FetchSaved(b: B, kind: Kind, x: Lexeme): Result {
    match Save(b)
    case Fetched(s) => Consume(s.(allowed := false), kind, x)
    case r => r
  }

  /** After a plain scalar that ends with a line break, a simple key may follow. */
  function FetchPlainScalar(b: B, x: Lexeme): Result {
    match FetchSaved(b, Scalar, x)
    case Fetched(s) => Fetched(s.(allowed := x.broken))
    case r => r
  }

  function FetchBlockScalar(b: B, x: Lexeme): Result {
    match Remove(b)
    case Fetched(r) => Consume(r.(allowed := true), Scalar, x)
    case r => r
  }

  // ---- The dispatcher ----

  predicate StartsPlain(l: Look, flow: nat) {
    || !(l.blankz || l.c in {0x2D, 0x3F, 0x3A, 0x2C, 0x5B, 0x5D, 0x7B, 0x7D, 0x23, 0x26, 0x2A, 0x21, 0x7C, 0x3E, 0x27, 0x22, 0x25, 0x40, 0x60})
    || (l.c == 0x2D && !l.blankNext)
    || (flow == 0 && (l.c == 0x3F || l.c == 0x3A) && !l.blankzNext)
  }

  function FetchAt(b: B, x: Lexeme): Result {
    var l := x.look;
    if l.c == 0 then FetchStreamEnd(b)
    else if b.mark.column == 0 && l.c == 0x25 then FetchDirective(b, x)
    else if b.mark.column == 0 && l.c == 0x2D && l.indicator then FetchDocumentIndicator(b, DocumentStart, x)
    else if b.mark.column == 0 && l.c == 0x2E && l.indicator then FetchDocumentIndicator(b, DocumentEnd, x)
    else if l.c == 0x5B then FetchFlowStart(b, FlowSequenceStart, x)
    else if l.c == 0x7B then FetchFlowStart(b, FlowMappingStart, x)
    else if l.c == 0x5D then FetchFlowEnd(b, FlowSequenceEnd, x)
    else if l.c == 0x7D then FetchFlowEnd(b, FlowMappingEnd, x)
    else if l.c == 0x2C then FetchFlowEntry(b, x)
    else if l.c == 0x2D && l.blankzNext then FetchBlockEntry(b, x)
    else if l.c == 0x3F && (b.flow > 0 || l.blankzNext) then FetchKey(b, x)
    else if l.c == 0x3A && (b.flow > 0 || l.blankzNext) then FetchValue(b, x)
    else if l.c == 0x2A then FetchSaved(b, Alias, x)
    else if l.c == 0x26 then FetchSaved(b, Anchor, x)
    else if l.c == 0x21 then FetchSaved(b, Tag, x)
    else if (l.c == 0x7C || l.c == 0x3E) && b.flow == 0 then FetchBlockScalar(b, x)
    else if l.c == 0x27 || l.c == 0x22 then FetchSaved(b, Scalar, x)
    else if StartsPlain(l, b.flow) then FetchPlainScalar(b, x)
    else Error
  }

  /** Eat blanks, comments and breaks up to the lexeme. */
  function MoveTo(b: B, x: Lexeme): B {
    b.(mark := x.start, allowed := b.allowed || (x.newline && b.flow == 0))
  }

  /** yaml_parser_fetch_next_token once the stream has started. */
  function FetchNext(b: B, x: Lexeme): Result {
    match DropStale(MoveTo(b, x))
    case Fetched(s) =>
      (match Unroll(s, s.mark.column)
       case Fetched(u) => FetchAt(u, x)
       case r => r)
    case r => r
  }

  // ---- More tokens ----

  /** Whether some possible simple key would be inserted at the head of the queue. */
  predicate HeadMayMove(b: B) {
    exists i | 0 <= i < |b.keys| :: b.keys[i].possible && b.keys[i].number == b.parsed
  }

  /** Whether the head of the queue can be handed out, after stale keys have been dropped. */
  predicate NeedsMore(b: B) {
    b.parsed >= |b.produced| || HeadMayMove(b)
  }

  datatype More = Available(next: B, rest: seq<Lexeme>) | Failed

  /** yaml_parser_fetch_more_tokens. The input fails at its end. */
  function FetchMore(b: B, xs: seq<Lexeme>): More
    decreases |xs|, !b.started
  {
    if b.parsed < |b.produced| then
      match DropStale(b)
      case Fetched(s) => if HeadMayMove(s) then FetchOne(s, xs) else Available(s, xs)
      case _ => Failed
    else FetchOne(b, xs)
  }

  function FetchOne(b: B, xs: seq<Lexeme>): More
    decreases |xs|, !b.started, 0
  {
    if !b.started then FetchMore(FetchStreamStart(b), xs)
    else if xs == [] then Failed
    else
      match FetchNext(b, xs[0])
      case Fetched(r) => FetchMore(r, xs[1..])
      case _ => Failed
  }

  /** Hand out the head of the queue. */
  function Take(b: B): B {
    b.(parsed := b.parsed + 1)
  }
}
