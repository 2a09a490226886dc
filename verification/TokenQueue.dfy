/** The token queue of apic.go: a buffer from which tokens are taken at `head` while others are
    still inserted behind it, and which is compacted in place when it is full. */
module TokenQueue {
  /** `x` at position `pos` of `s`, or at its end for a negative position. */
  function Inserted<T>(s: seq<T>, pos: int, x: T): seq<T>
    requires pos <= |s|
  {
    if pos < 0 then s + [x] else s[..pos] + [x] + s[pos..]
  }

  lemma ShiftedAt<T>(before: seq<T>, after: seq<T>, head: nat, pos: nat, x: T)
    requires |before| == |after| && head + pos < |before|
    requires forall k | 0 <= k < head + pos :: after[k] == before[k]
    requires forall k | head + pos < k < |before| :: after[k] == before[k - 1]
    requires after[head + pos] == x
    ensures var s := before[head..]; after[head..] == s[..pos] + [x] + s[pos..|s| - 1]
  {
  }

  class Queue<T(0)> {
    /** Its length is the capacity of the Go slice. */
    var buffer: array<T>
    var length: nat
    var head: nat

    ghost predicate Valid()
      reads this
    {
      head <= length <= buffer.Length
    }

    ghost function Contents(): seq<T>
      requires Valid()
      reads this, buffer
    {
      buffer[head..length]
    }

    constructor ()
      ensures Valid() && Contents() == [] && fresh(buffer)
    {
      buffer := new T[0];
      length, head := 0, 0;
    }

    method Empty() returns (empty: bool)
      requires Valid()
      ensures empty <==> Contents() == []
    {
      empty := head == length;
    }

    method First() returns (x: T)
      requires Valid() && Contents() != []
      ensures x == Contents()[0]
    {
      x := buffer[head];
    }

    method Take()
      requires Valid() && Contents() != []
      modifies this`head
      ensures Valid() && Contents() == old(Contents())[1..]
    {
      head := head + 1;
    }

    /** Move the queue to the beginning of the buffer. */
    method Compact()
      requires Valid()
      modifies this, buffer
      ensures Valid() && Contents() == old(Contents()) && buffer == old(buffer)
      ensures head == 0 && length == old(length) - old(head)
    {
      if head != length {
        var i := 0;
        while i < length - head
          invariant 0 <= i <= length - head && head == old(head) && length == old(length) && buffer == old(buffer)
          invariant buffer[..i] == old(buffer[head..head + i])
          invariant buffer[head + i..] == old(buffer[head + i..])
        {
          assert old(buffer[head + i..])[0] == old(buffer[head + i]);
          assert buffer[head + i..][0] == buffer[head + i];
          ghost var rest := old(buffer[head + i..])[1..];
          assert buffer[head + i + 1..] == rest;
          buffer[i] := buffer[head + i];
          i := i + 1;
        }
      }
      length := length - head;
      head := 0;
    }

    /** A new buffer with the same elements and more room. */
    method Grow()
      requires Valid()
      modifies this`buffer
      ensures Valid() && Contents() == old(Contents()) && fresh(buffer) && length < buffer.Length
    {
      var bigger := new T[if buffer.Length < 1024 then 2 * buffer.Length + 1 else buffer.Length + buffer.Length / 4];
      var i := 0;
      while i < length
        invariant unchanged(this) && unchanged(buffer)
        invariant 0 <= i <= length <= bigger.Length && bigger[..i] == buffer[..i]
      {
        bigger[i] := buffer[i];
        i := i + 1;
      }
      assert bigger[head..length] == bigger[..length][head..] == buffer[..length][head..] == buffer[head..length];
      buffer := bigger;
    }

    /** The append of Go: a new buffer when the old one is full. */
    method Append(x: T)
      requires Valid()
      modifies this, buffer
      ensures Valid() && Contents() == old(Contents()) + [x] && head == old(head) && length == old(length) + 1
      ensures buffer == old(buffer) || fresh(buffer)
    {
      if length == buffer.Length {
        Grow();
      }
      ghost var before := Contents();
      buffer[length] := x;
      length := length + 1;
      assert buffer[head..length][..length - 1 - head] == before;
    }

    /** Shift what comes from position `pos` on, up to the last element, over that element. */
    method Shift(pos: nat, x: T)
      requires Valid() && pos < |Contents()|
      modifies buffer
      ensures Valid()
      ensures var s := old(Contents()); Contents() == s[..pos] + [x] + s[pos..|s| - 1]
    {
      ghost var before := buffer[..];
      var start := head + pos;
      var i := length - 1;
      while i > start
        invariant start <= i < length
        invariant forall k | 0 <= k <= i :: buffer[k] == before[k]
        invariant forall k | i < k < length :: buffer[k] == before[k - 1]
      {
        buffer[i] := buffer[i - 1];
        i := i - 1;
      }
      buffer[start] := x;
      ShiftedAt(before[..length], buffer[..length], head, pos, x);
      assert before[..length][head..] == before[head..length];
      assert buffer[..length][head..] == buffer[head..length];
    }

    /** yaml_insert_token. */
    method Insert(pos: int, x: T)
      requires Valid() && pos <= |Contents()|
      modifies this, buffer
      ensures Valid() && Contents() == Inserted(old(Contents()), pos, x)
      ensures buffer == old(buffer) || fresh(buffer)
    {
      if head > 0 && length == buffer.Length {
        Compact();
      }
      Append(x);
      if pos < 0 {
        return;
      }
      ghost var s := old(Contents());
      assert (s + [x])[..pos] == s[..pos] && (s + [x])[pos..|s|] == s[pos..];
      Shift(pos, x);
    }
  }
}
