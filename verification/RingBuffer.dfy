/** host/internal/pty/ringbuffer.go: the terminal history ring buffer. */
module RingBuffer {

  /** The last n elements of s, or all of it. */
  function LastN<T>(s: seq<T>, n: nat): (r: seq<T>)
    ensures |r| <= n && |r| <= |s|
  {
    if |s| <= n then s else s[|s| - n..]
  }

  /** Keeping the last n at every step keeps the last n. */
  lemma LastNAppend<T>(s: seq<T>, t: seq<T>, n: nat)
    ensures LastN(LastN(s, n) + t, n) == LastN(s + t, n)
  {
  }

  /** A full buffer's oldest line is at head; one not yet full starts at 0. */
  function Ordered(a: seq<string>, head: nat, size: nat): (s: seq<string>)
    requires head <= |a| && size <= |a|
    ensures |s| == size
  {
    if size < |a| then a[..size] else a[head..] + a[..head]
  }

  lemma WriteOrdered(a: seq<string>, head: nat, size: nat, line: string)
    requires head < |a| && size <= |a| && (size < |a| ==> head == size)
    ensures var head' := if head + 1 == |a| then 0 else head + 1;
            Ordered(a[head := line], head', if size < |a| then size + 1 else size) ==
            LastN(Ordered(a, head, size) + [line], |a|)
  {
    var b := a[head := line];
    if size < |a| {
      assert b[..size + 1] == a[..size] + [line];
      assert size + 1 == |a| ==> b[0..] + b[..0] == b[..size + 1];
    } else {
      var was := a[head..] + a[..head];
      assert LastN(was + [line], |a|) == was[1..] + [line];
      assert was[1..] == a[head + 1..] + a[..head];
      assert b[head + 1..] == a[head + 1..] && b[..head + 1] == a[..head] + [line];
      if head + 1 == |a| {
        assert b[0..] + b[..0] == b == a[..head] + [line];
      }
    }
  }

  const DEFAULT_CAPACITY := 5000

  class Ring {
    const cap: nat
    const lines: array<string>
    var head: nat
    var size: nat

    ghost predicate Valid()
      reads this
    {
      && 0 < cap == lines.Length
      && head < cap && size <= cap
      && (size < cap ==> head == size)
    }

    /** The stored lines, oldest first. */
    ghost function Contents(): (s: seq<string>)
      requires Valid()
      reads this, lines
      ensures |s| == size
    {
      Ordered(lines[..], head, size)
    }

    constructor (capacity: int)
      ensures Valid() && fresh(lines) && Contents() == []
      ensures cap == if capacity <= 0 then 5000 else capacity
    {
      var c := capacity;
      if c <= 0 {
        c := DEFAULT_CAPACITY;
      }
      cap := c;
      lines := new string[c](_ => "");
      head := 0;
      size := 0;
    }

    method Write(line: string)
      requires Valid()
      modifies this, lines
      ensures Valid() && Contents() == LastN(old(Contents()) + [line], cap)
    {
      WriteOrdered(lines[..], head, size, line);
      Advance(head, cap);
      hide Ordered, LastN;
      ghost var before := lines[..];
      lines[head] := line;
      assert lines[..] == before[head := line];
      head := (head + 1) % cap;
      if size < cap {
        size := size + 1;
      }
    }

    method Lines() returns (result: seq<string>)
      requires Valid()
      ensures result == Contents()
    {
      if size < cap {
        return lines[..size];
      }
      result := [];
      for i := 0 to size
        invariant |result| == i
        invariant forall j :: 0 <= j < i ==> result[j] == lines[(head + j) % cap]
      {
        result := result + [lines[(head + i) % cap]];
      }
      forall j | 0 <= j < size
        ensures result[j] == Contents()[j]
      {
        Wrap(head, j, cap);
      }
    }

    method Size() returns (n: nat)
      requires Valid()
      ensures n == |Contents()|
    {
      n := size;
    }

    method Clear()
      requires Valid()
      modifies this
      ensures Valid() && Contents() == []
    {
      head := 0;
      size := 0;
    }
  }

  lemma Advance(head: nat, cap: nat)
    requires head < cap
    ensures (head + 1) % cap == if head + 1 == cap then 0 else head + 1
  {
  }

  lemma Wrap(head: nat, j: nat, cap: nat)
    requires head < cap && j < cap
    ensures (head + j) % cap == if head + j < cap then head + j else head + j - cap
  {
  }

  // ---------------------------------------------------------------------------
  // Whole histories of writes and clears
  // ---------------------------------------------------------------------------

  datatype Op = WriteOp(line: string) | ClearOp

  /** What the buffer holds after the operations, one method call at a time. */
  function After(ops: seq<Op>, cap: nat): seq<string> {
    if ops == [] then []
    else
      match ops[|ops| - 1]
      case WriteOp(line) => LastN(After(ops[..|ops| - 1], cap) + [line], cap)
      case ClearOp => []
  }

  /** The lines written since the last clear. */
  function Written(ops: seq<Op>): seq<string> {
    if ops == [] then []
    else
      match ops[|ops| - 1]
      case WriteOp(line) => Written(ops[..|ops| - 1]) + [line]
      case ClearOp => []
  }

  /** The buffer is "the last cap lines written since the last clear". */
  lemma {:induction false} KeepsTheLast(ops: seq<Op>, cap: nat)
    ensures After(ops, cap) == LastN(Written(ops), cap)
  {
    if ops != [] {
      KeepsTheLast(ops[..|ops| - 1], cap);
      if ops[|ops| - 1].WriteOp? {
        LastNAppend(Written(ops[..|ops| - 1]), [ops[|ops| - 1].line], cap);
      }
    }
  }
}
