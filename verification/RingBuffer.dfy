/** RLocalSocketRingBuffer of ripcqccomponent/ipcbase/rlocalsocket.cpp: a FIFO over wrapping counters. */
module RingBuffers {
  import opened Wire

  const CAPACITY: nat := 1024

  /** The number of messages between two wrapping 32-bit counters. */
  function Distance(start: u32, end: u32): nat {
    (end - start) % U32
  }

  function Increment(x: u32): u32 {
    (x + 1) % U32
  }

  function Slot(start: u32, i: nat): nat {
    (start + i) % CAPACITY
  }

  /** Slots follow the counters through the wrap because 1024 divides 2^32. */
  lemma SlotWraps(start: u32, i: nat)
    ensures Slot(start, i) == (start + i) % U32 % CAPACITY
  {
    var q := (start + i) / U32;
    assert start + i == U32 * q + (start + i) % U32;
    assert U32 * q == CAPACITY * (0x40_0000 * q);
    ModAdd(0x40_0000 * q, (start + i) % U32);
  }

  lemma ModAdd(k: int, x: int)
    ensures (CAPACITY * k + x) % CAPACITY == x % CAPACITY
  {
    assert x == CAPACITY * (x / CAPACITY) + x % CAPACITY;
    var y := x % CAPACITY;
    var n := k + x / CAPACITY;
    assert CAPACITY * k + x == CAPACITY * n + y;
    DivUnique(n, y);
  }

  lemma DivUnique(n: int, y: int)
    requires 0 <= y < CAPACITY
    ensures (CAPACITY * n + y) % CAPACITY == y
  {
  }

  /** Fewer than 1024 steps apart, two slots coincide only if the steps do. */
  lemma SlotsDiffer(start: u32, i: nat, j: nat)
    requires i <= CAPACITY && j < i && i - j < CAPACITY
    ensures Slot(start, i) != Slot(start, j)
  {
    var a := start + i;
    var b := start + j;
    assert a == CAPACITY * (a / CAPACITY) + a % CAPACITY;
    assert b == CAPACITY * (b / CAPACITY) + b % CAPACITY;
  }

  lemma DistanceUp(start: u32, end: u32)
    requires Distance(start, end) < U32 - 1
    ensures Distance(start, Increment(end)) == Distance(start, end) + 1
  {
  }

  lemma DistanceDown(start: u32, end: u32)
    requires start != end
    ensures Distance(start, end) > 0 && Distance(Increment(start), end) == Distance(start, end) - 1
  {
  }

  lemma EndSlot(start: u32, end: u32)
    ensures Slot(start, Distance(start, end)) == end % CAPACITY
  {
    SlotWraps(start, Distance(start, end));
  }

  lemma StartSlot(start: u32, i: nat)
    ensures Slot(Increment(start), i) == Slot(start, i + 1)
  {
    if start + 1 == U32 {
      SlotWraps(start, i + 1);
      SlotWraps(0, i);
      assert (start + (i + 1)) % U32 == i % U32 by {
        assert start + (i + 1) == U32 + i;
      }
    }
  }

  /**
   The debug assertion m_start < m_end in popMessage holds for a non-empty buffer exactly if
   the counters have not wrapped between the two.
   */
  lemma DebugAssertIff(start: u32, end: u32)
    requires start != end
    ensures start < end <==> start + Distance(start, end) < U32
  {
  }

  class RingBuffer {
    var messages: array<seq<Byte>>
    var start: u32
    var end: u32

    ghost predicate Valid()
      reads this
    {
      messages.Length == CAPACITY && Distance(start, end) <= CAPACITY
    }

    /** The queued messages, oldest first. */
    ghost function Contents(): (q: seq<seq<Byte>>)
      reads this, messages
      requires Valid()
      ensures |q| == Distance(start, end)
    {
      seq(Distance(start, end), i requires 0 <= i < Distance(start, end) reads this, messages =>
        if messages.Length == CAPACITY then messages[Slot(start, i)] else [])
    }

    constructor ()
      ensures Valid() && Contents() == [] && fresh(messages)
    {
      messages := new seq<Byte>[CAPACITY](_ => []);
      start, end := 0, 0;
    }

    method Init()
      requires Valid()
      modifies this
      ensures Valid() && Contents() == [] && messages == old(messages)
    {
      start, end := 0, 0;
    }

    function IsEmpty(): (r: bool)
      reads this, messages
      requires Valid()
      ensures r <==> Contents() == []
    {
      start == end
    }

    function IsFull(): (r: bool)
      reads this, messages
      requires Valid()
      ensures r <==> |Contents()| == CAPACITY
    {
      (end - start) % U32 == CAPACITY
    }

    /** Called only after IsFull() was found false. */
    method PushMessage(data: seq<Byte>)
      requires Valid() && |Contents()| < CAPACITY
      modifies this, messages
      ensures Valid() && messages == old(messages)
      ensures Contents() == old(Contents()) + [data]
    {
      ghost var was := Contents();
      ghost var n := Distance(start, end);
      EndSlot(start, end);
      DistanceUp(start, end);
      messages[end % CAPACITY] := data;
      end := Increment(end);
      forall i | 0 <= i < n ensures Contents()[i] == was[i] {
        SlotsDiffer(start, n, i);
      }
      assert Contents() == was + [data];
    }

    /** Called only after IsEmpty() was found false. */
    method PopMessage() returns (message: seq<Byte>)
      requires Valid() && Contents() != []
      modifies this
      ensures Valid() && messages == old(messages)
      ensures [message] + Contents() == old(Contents())
    {
      ghost var was := Contents();
      DistanceDown(start, end);
      message := messages[start % CAPACITY];
      ghost var before := start;
      start := Increment(start);
      forall i | 0 <= i < |was| - 1 ensures Contents()[i] == was[i + 1] {
        StartSlot(before, i);
      }
      assert [message] + Contents() == was;
    }
  }
}
