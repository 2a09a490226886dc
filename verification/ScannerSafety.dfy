/** What every step of the scanner keeps: simple keys point at tokens that have not been handed
    out, the indentation levels rise from -1, and the block collections that the scanner invents
    are nested, also after tokens have been inserted in the past. */
module ScannerSafety {
  import opened TokenQueue
  import opened ScannerSpec

  // ---- Simple keys ----

  /** The key's number is that of a token in the queue with the key's mark; or, if `pending`, of
      the token that will be appended next with the mark `at`. */
  predicate KeySafe(b: B, k: SimpleKey, pending: bool, at: Mark) {
    k.possible ==>
      && b.parsed <= k.number <= |b.produced| && AtMost(k.mark, b.mark)
      && if k.number == |b.produced| then pending && k.mark == at else b.produced[k.number].start == k.mark
  }

  ghost predicate KeysSafe(b: B, pending: bool, at: Mark) {
    && (forall i | 0 <= i < |b.keys| :: KeySafe(b, b.keys[i], pending, at))
    && Increasing(b.keys)
  }

  /** Numbers rise with the flow level. */
  ghost predicate Increasing(keys: seq<SimpleKey>) {
    forall i, j | 0 <= i < j < |keys| && keys[i].possible && keys[j].possible :: keys[i].number < keys[j].number
  }

  // ---- Levels ----

  ghost predicate Rising(s: seq<int>) {
    s != [] && s[0] == -1 && forall i | 0 < i < |s| :: s[i - 1] < s[i]
  }

  ghost predicate Levels(b: B) {
    |b.keys| == b.flow + 1 && Rising(b.indents + [b.indent])
  }

  // ---- Blocks ----

  function Bracket(t: Token): int {
    if t.kind == BlockSequenceStart || t.kind == BlockMappingStart then 1 else if t.kind == BlockEnd then -1 else 0
  }

  /** Block collections started less those ended. */
  function Balance(ts: seq<Token>): int {
    if ts == [] then 0 else Balance(ts[..|ts| - 1]) + Bracket(ts[|ts| - 1])
  }

  ghost predicate Nested(ts: seq<Token>) {
    forall n | 0 <= n <= |ts| :: Balance(ts[..n]) >= 0
  }

  lemma {:induction false} BalanceConcat(a: seq<Token>, b: seq<Token>)
    ensures Balance(a + b) == Balance(a) + Balance(b)
    decreases |b|
  {
    if b == [] {
      assert a + b == a;
    } else {
      assert (a + b)[..|a + b| - 1] == a + b[..|b| - 1];
      BalanceConcat(a, b[..|b| - 1]);
    }
  }

  lemma BalanceOne(t: Token)
    ensures Balance([t]) == Bracket(t)
  {
    assert [t][..0] == [];
  }

  /** A token inserted anywhere that does not end a block keeps the nesting. */
  lemma InsertedNested(ts: seq<Token>, number: int, t: Token)
    requires Nested(ts) && number <= |ts| && (Bracket(t) >= 0 || (number < 0 && Balance(ts) > 0))
    ensures Nested(Inserted(ts, number, t)) && Balance(Inserted(ts, number, t)) == Balance(ts) + Bracket(t)
  {
    hide Balance;
    var k := if number < 0 then |ts| else number;
    var r := Inserted(ts, number, t);
    assert ts == ts[..k] + ts[k..];
    assert r == ts[..k] + [t] + ts[k..];
    BalanceOne(t);
    BalanceConcat(ts[..k], [t]);
    BalanceConcat(ts[..k] + [t], ts[k..]);
    BalanceConcat(ts[..k], ts[k..]);
    forall n | 0 <= n <= |r|
      ensures Balance(r[..n]) >= 0
    {
      if n <= k {
        assert r[..n] == ts[..n];
      } else {
        assert r[..n] == ts[..k] + [t] + ts[k..n - 1];
        BalanceConcat(ts[..k] + [t], ts[k..n - 1]);
        assert ts[..n - 1] == ts[..k] + ts[k..n - 1];
        BalanceConcat(ts[..k], ts[k..n - 1]);
        assert ts[..|ts|] == ts;
      }
    }
  }

  // ---- Marks ----

  /** The tokens' marks never go back, and the scanner is past them. */
  ghost predicate Ordered(ts: seq<Token>, mark: Mark) {
    && (forall i, j | 0 <= i < j < |ts| :: AtMost(ts[i].start, ts[j].start))
    && (forall i | 0 <= i < |ts| :: AtMost(ts[i].start, mark))
  }

  // ---- The invariant ----

  ghost predicate Safe(b: B, pending: bool, at: Mark) {
    && b.started && b.parsed <= |b.produced|
    && KeysSafe(b, pending, at) && Levels(b)
    && Nested(b.produced) && Balance(b.produced) == |b.indents|
    && Ordered(b.produced, b.mark)
  }

  ghost predicate Inv(b: B) {
    if b.started then Safe(b, false, b.mark) else b == START.(mark := b.mark)
  }

  /** The result keeps the invariant, and is no panic. */
  ghost predicate Keeps(r: Result, pending: bool, at: Mark) {
    match r
    case Fetched(b) => Safe(b, pending, at)
    case Error => true
    case Panic => false
  }

  // ---- Steps ----

  lemma MarkMoves(b: B, pending: bool, at: Mark, m: Mark)
    requires Safe(b, pending, at) && AtMost(b.mark, m)
    ensures Safe(b.(mark := m), pending, at)
  {
    hide Balance;
  }

  lemma AllowedMoves(b: B, pending: bool, at: Mark, allowed: bool)
    requires Safe(b, pending, at)
    ensures Safe(b.(allowed := allowed), pending, at)
  {
    hide Balance;
  }

  /** With no key pending, the place where one would be does not matter. */
  lemma NotPending(b: B, at: Mark, pending: bool, at': Mark)
    requires Safe(b, false, at)
    ensures Safe(b, pending, at')
  {
    hide Balance;
  }

  lemma AppendKeeps(b: B, pending: bool, kind: Kind, start: Mark)
    requires Safe(b, pending, start) && AtMost(start, b.mark)
    requires forall i | 0 <= i < |b.produced| :: AtMost(b.produced[i].start, start)
    requires Bracket(Token(kind, start)) == 0
    ensures Safe(Append(b, kind, start), false, b.mark)
  {
    var t := Token(kind, start);
    InsertedNested(b.produced, -1, t);
    hide Balance, Nested, Increasing;
    var r := Append(b, kind, start);
    forall i | 0 <= i < |r.keys|
      ensures KeySafe(r, r.keys[i], false, b.mark)
    {
      assert KeySafe(b, b.keys[i], pending, start);
    }
  }

  /** A token where the scanner is. */
  lemma AppendHere(b: B, pending: bool, kind: Kind)
    requires Safe(b, pending, b.mark) && Bracket(Token(kind, b.mark)) == 0
    ensures Safe(Append(b, kind, b.mark), false, b.mark)
  {
    hide Safe;
    OrderedHere(b, pending);
    AppendKeeps(b, pending, kind, b.mark);
  }

  lemma OrderedHere(b: B, pending: bool)
    requires Safe(b, pending, b.mark)
    ensures forall i | 0 <= i < |b.produced| :: AtMost(b.produced[i].start, b.mark)
  {
  }

  lemma Unfolded(b: B, pending: bool, at: Mark)
    requires Safe(b, pending, at)
    ensures |b.keys| == b.flow + 1 && b.started && b.parsed <= |b.produced| && b.indent >= -1
    ensures b.indents == [] <==> b.indent == -1
  {
    var s := b.indents + [b.indent];
    FirstIsLeast(s, |s| - 1);
    hide Balance;
    assert s[|s| - 1] == b.indent;
  }

  lemma {:induction false} FirstIsLeast(s: seq<int>, n: nat)
    requires Rising(s) && n < |s|
    ensures s[n] >= -1 && (s[n] == -1 ==> n == 0)
    decreases n
  {
    if n > 0 {
      FirstIsLeast(s, n - 1);
    }
  }

  lemma RemoveKeeps(b: B, at: Mark)
    requires Safe(b, false, at)
    ensures Keeps(Remove(b), false, at)
    ensures Remove(b).Fetched? ==>
              var n := |b.keys| - 1;
              Remove(b).next == b.(keys := b.keys[n := b.keys[n].(possible := false)])
  {
    hide Balance, Nested, Ordered;
  }

  lemma SaveKeeps(b: B)
    requires Safe(b, false, b.mark)
    ensures Keeps(Save(b), true, b.mark)
    ensures Save(b).Fetched? ==> Save(b).next == b.(keys := Save(b).next.keys)
  {
    hide Balance, Nested, Ordered, Rising;
    NotPending(b, b.mark, true, b.mark);
  }

  lemma IncreaseKeeps(b: B, pending: bool, at: Mark)
    requires Safe(b, pending, at)
    ensures Safe(IncreaseFlow(b), pending, at)
  {
    hide Balance, Nested, Ordered, Rising;
  }

  lemma DecreaseKeeps(b: B, at: Mark)
    requires Safe(b, false, at)
    ensures Keeps(DecreaseFlow(b), false, at)
    ensures DecreaseFlow(b).Fetched? ==>
              DecreaseFlow(b).next == b.(keys := DecreaseFlow(b).next.keys, flow := DecreaseFlow(b).next.flow)
  {
    hide Balance, Nested, Ordered, Rising;
  }

  lemma StaleKeeps(b: B)
    requires Safe(b, false, b.mark)
    ensures Keeps(DropStale(b), false, b.mark)
  {
    hide Balance, Nested, Ordered, Rising;
    var r := b.(keys := WithoutStale(b.keys, b.mark));
    forall i | 0 <= i < |r.keys|
      ensures KeySafe(r, r.keys[i], false, b.mark)
    {
      assert KeySafe(b, b.keys[i], false, b.mark);
    }
  }

  // ---- Indentation ----

  lemma RisingMore(s: seq<int>, x: int)
    requires Rising(s) && s[|s| - 1] < x
    ensures Rising(s + [x])
  {
  }

  /** A new level, whose token is appended. */
  lemma RollAppends(b: B, kind: Kind)
    requires Safe(b, false, b.mark) && (kind == BlockSequenceStart || kind == BlockMappingStart)
    ensures Keeps(RollHere(b, kind), false, b.mark)
    ensures RollHere(b, kind).Fetched? ==> RollHere(b, kind).next.mark == b.mark && RollHere(b, kind).next.flow == b.flow
  {
    var t := Token(kind, b.mark);
    if b.flow == 0 && b.indent < b.mark.column {
      OrderedHere(b, false);
      InsertedNested(b.produced, -1, t);
      RisingMore(b.indents + [b.indent], b.mark.column);
      hide Balance, Nested, Increasing, Rising;
      var r := Roll(b, b.mark.column, -1, t);
      KeysAppend(b, t, r);
    }
  }

  lemma KeysAppend(b: B, t: Token, r: B)
    requires KeysSafe(b, false, b.mark)
    requires r.produced == b.produced + [t] && r.keys == b.keys && r.parsed == b.parsed && r.mark == b.mark
    ensures KeysSafe(r, false, b.mark)
  {
    hide Increasing;
    forall i | 0 <= i < |r.keys|
      ensures KeySafe(r, r.keys[i], false, b.mark)
    {
      assert KeySafe(b, b.keys[i], false, b.mark);
    }
  }

  /** Levels that end, each with its token. */
  lemma {:induction false} UnrollKeeps(b: B, column: int)
    requires Safe(b, false, b.mark) && column >= -1
    ensures Keeps(Unroll(b, column), false, b.mark)
    ensures Unroll(b, column).Fetched? ==>
              var u := Unroll(b, column).next;
              && u == b.(produced := u.produced, indent := u.indent, indents := u.indents)
              && b.produced <= u.produced
              && (if b.flow > 0 then u == b else u.indent <= column)
    decreases |b.indents|
  {
    Unfolded(b, false, b.mark);
    if b.flow == 0 && b.indent > column {
      var n := |b.indents| - 1;
      var r := Append(b, BlockEnd, b.mark).(indent := b.indents[n], indents := b.indents[..n]);
      PopLevel(b);
      UnrollKeeps(r, column);
    }
  }

  lemma PopLevel(b: B)
    requires Safe(b, false, b.mark) && b.indents != []
    ensures var n := |b.indents| - 1;
            Safe(Append(b, BlockEnd, b.mark).(indent := b.indents[n], indents := b.indents[..n]), false, b.mark)
  {
    var t := Token(BlockEnd, b.mark);
    var n := |b.indents| - 1;
    var r := Append(b, BlockEnd, b.mark).(indent := b.indents[n], indents := b.indents[..n]);
    OrderedHere(b, false);
    InsertedNested(b.produced, -1, t);
    var s := b.indents + [b.indent];
    assert r.indents + [r.indent] == s[..|s| - 1];
    hide Balance, Nested, Increasing;
    KeysAppend(b, t, r);
  }

  // ---- Insertion in the past ----

  /** A token in front of the one that the last key points at: the keys of the outer flow levels
      have smaller numbers, and still point at their own tokens. */
  lemma InsertKeeps(b: B, kind: Kind)
    requires Safe(b, false, b.mark) && b.keys[|b.keys| - 1].possible
    ensures var k := b.keys[|b.keys| - 1];
            var t := Token(kind, k.mark);
            var r := InsertAt(b, k.number, t);
            && b.parsed <= k.number < |b.produced| && b.produced[k.number].start == k.mark
            && r == b.(produced := b.produced[..k.number] + [t] + b.produced[k.number..])
            && KeysSafe(r, false, b.mark) && Ordered(r.produced, r.mark)
            && (Bracket(t) >= 0 ==> Nested(r.produced) && Balance(r.produced) == Balance(b.produced) + Bracket(t))
  {
    var n := |b.keys| - 1;
    var k := b.keys[n];
    var t := Token(kind, k.mark);
    assert KeySafe(b, k, false, b.mark);
    var r := InsertAt(b, k.number, t);
    if Bracket(t) >= 0 {
      InsertedNested(b.produced, k.number, t);
    }
    hide Balance, Nested;
    forall i | 0 <= i < |r.keys|
      ensures KeySafe(r, r.keys[i], false, b.mark)
    {
      assert KeySafe(b, b.keys[i], false, b.mark);
      assert i < n && r.keys[i].possible ==> r.keys[i].number < k.number;
    }
    OrderedInsert(b.produced, k.number, t, b.mark);
  }

  lemma OrderedInsert(ts: seq<Token>, n: nat, t: Token, mark: Mark)
    requires Ordered(ts, mark) && n < |ts| && t.start == ts[n].start
    ensures Ordered(ts[..n] + [t] + ts[n..], mark)
  {
    var r := ts[..n] + [t] + ts[n..];
    forall i, j | 0 <= i < j < |r|
      ensures AtMost(r[i].start, r[j].start)
    {
      var i' := if i <= n then i else i - 1;
      var j' := if j <= n then j else j - 1;
      assert r[i].start == ts[i'].start && r[j].start == ts[j'].start;
    }
  }

  lemma RolledKeeps(b: B, column: nat, r: B, t: Token)
    requires b.flow == 0 && b.indent < column && Levels(b) && b.started && b.parsed <= |b.produced|
    requires r.indents == b.indents + [b.indent] && r.indent == column && Bracket(t) == 1
    requires r.keys == b.keys && r.flow == b.flow && r.started && r.parsed == b.parsed && r.parsed <= |r.produced|
    requires KeysSafe(r, false, r.mark) && Ordered(r.produced, r.mark) && Nested(r.produced)
    requires Balance(r.produced) == |b.indents| + 1
    ensures Safe(r, false, r.mark)
  {
    hide Balance, Nested;
    RisingMore(b.indents + [b.indent], column);
  }

  /** The two insertions of a simple key. */
  lemma InsertKeyKeeps(b: B)
    requires Safe(b, false, b.mark) && b.keys[|b.keys| - 1].possible
    ensures var k := b.keys[|b.keys| - 1];
            var r := InsertKey(b);
            && Safe(r, false, b.mark)
            && b.parsed <= k.number < |b.produced| && b.produced[k.number].start == k.mark
            && r == b.(produced := r.produced, indent := r.indent, indents := r.indents)
            && r.produced == b.produced[..k.number]
                 + (if b.flow == 0 && b.indent < k.mark.column then [Token(BlockMappingStart, k.mark)] else [])
                 + [Token(Key, k.mark)] + b.produced[k.number..]
  {
    hide Balance, Nested, Ordered, KeysSafe;
    var k := b.keys[|b.keys| - 1];
    InsertKeeps(b, Key);
    var m := InsertAt(b, k.number, Token(Key, k.mark));
    assert Safe(m, false, m.mark);
    if b.flow == 0 && b.indent < k.mark.column {
      var t := Token(BlockMappingStart, k.mark);
      InsertKeeps(m, BlockMappingStart);
      var r := InsertKey(b);
      KeysIgnoreLevels(InsertAt(m, k.number, t), r);
      RolledKeeps(m, k.mark.column, r, t);
      assert m.produced[..k.number] == b.produced[..k.number];
      assert m.produced[k.number..] == [Token(Key, k.mark)] + b.produced[k.number..];
      assert r.produced == b.produced[..k.number] + [t] + ([Token(Key, k.mark)] + b.produced[k.number..]);
    } else {
      assert b.produced[..k.number] + [] == b.produced[..k.number];
    }
  }

  lemma KeysIgnoreLevels(b: B, r: B)
    requires KeysSafe(b, false, b.mark) && r == b.(indent := r.indent, indents := r.indents)
    ensures KeysSafe(r, false, r.mark)
  {
    hide Increasing;
    forall i | 0 <= i < |r.keys|
      ensures KeySafe(r, r.keys[i], false, r.mark)
    {
      assert KeySafe(b, b.keys[i], false, b.mark);
    }
  }
}
