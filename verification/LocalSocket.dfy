/**
 The write side of RLocalSocketImpl in ripcqccomponent/ipcbase/rlocalsocket.cpp: a bounded
 queue drained by a worker that keeps one overlapped write in flight.
 */
module LocalSockets {
  import opened Wire
  import opened RingBuffers

  const MAX_SEM: nat := 1024  // MAX_SEM_COUNT

  datatype SocketState = UnconnectedState | ConnectingState | ConnectedState | ClosingState

  /** The socket as a value; `sent` lists what WriteFileEx accepted, in order. */
  datatype Sock = Sock(
    state: SocketState, queue: seq<seq<Byte>>, sem: nat, writing: bool, success: bool, sent: seq<seq<Byte>>)

  predicate IsValidState(state: SocketState) {
    state.ConnectingState? || state.ConnectedState?
  }

  function Room(s: Sock): nat {
    if |s.queue| < CAPACITY then CAPACITY - |s.queue| else 0
  }

  /** ReleaseSemaphore fails at the maximum and leaves the count there. */
  function Released(sem: nat): nat {
    if sem < MAX_SEM then sem + 1 else sem
  }

  function ReleasedBy(sem: nat, n: nat): nat {
    if sem + n <= MAX_SEM then sem + n else if sem < MAX_SEM then MAX_SEM else sem
  }

  function Pushed(s: Sock, ms: seq<seq<Byte>>): Sock {
    s.(queue := s.queue + ms, sem := ReleasedBy(s.sem, |ms|))
  }

  /** What a whole message becomes in the queue: its slices, as far as they fit. */
  function Enqueued(s: Sock, m: seq<Byte>): Sock {
    if !IsValidState(s.state) then s
    else if |Slices(m)| <= Room(s) then Pushed(s, Slices(m))
    else Pushed(s, Slices(m)[..Room(s)])
  }

  /** doWriteMessage, when WriteFileEx accepts the buffer. */
  function Drained(s: Sock): Sock {
    if !s.success || s.writing || s.queue == [] then s
    else
      var s' := s.(queue := s.queue[1..]);
      if 1 <= |s.queue[0]| <= SLICE then s'.(writing := true, sent := s.sent + [s.queue[0]]) else s'
  }

  /** doWriteMessage, when WriteFileEx refuses the buffer: setError leaves the socket unconnected. */
  function Refused(s: Sock): Sock {
    var t := Drained(s);
    if |t.sent| > |s.sent| then t.(sent := s.sent, state := UnconnectedState, success := false) else t
  }

  /** What one turn of the write loop does with the oldest chunk, by its size. */
  lemma TurnIff(s: Sock)
    requires s.success && !s.writing && s.queue != []
    ensures Drained(s).queue == s.queue[1..] && Refused(s).queue == s.queue[1..]
    ensures Drained(s).sent == s.sent + (if 1 <= |s.queue[0]| <= 0x4_0000 then [s.queue[0]] else [])
    ensures Drained(s).writing <==> 1 <= |s.queue[0]| <= 0x4_0000
    ensures Drained(s).state == s.state && Drained(s).success && Refused(s).sent == s.sent
    ensures Refused(s).state == (if 1 <= |s.queue[0]| <= 0x4_0000 then UnconnectedState else s.state)
  {
  }

  /** After a refused write the socket takes nothing more and writes nothing more. */
  lemma RefusedEnds(s: Sock, m: seq<Byte>)
    requires s.success && !s.writing && s.queue != [] && 1 <= |s.queue[0]| <= 0x4_0000
    ensures var t := Refused(s);
            && t.state.UnconnectedState? && !t.success && Enqueued(t, m) == t
            && forall queue :: Drained(t.(queue := queue)) == t.(queue := queue)
  {
  }

  /** Messages are queued while the socket is connecting or connected, and at no other time. */
  lemma TakesWhen(s: Sock, m: seq<Byte>)
    requires m != [] && |s.queue| < 1024
    ensures Enqueued(s, m) != s <==> s.state.ConnectingState? || s.state.ConnectedState?
    ensures |s.queue| + |Slices(m)| <= 1024 && Enqueued(s, m) != s ==> Enqueued(s, m).queue == s.queue + Slices(m)
  {
    assert Slices(m) != [];
    if IsValidState(s.state) { assert |Enqueued(s, m).queue| > |s.queue|; }
  }

  class LocalSocket {
    const ring: RingBuffer
    var state: SocketState
    var sem: nat
    var writing: bool      // bWritting
    var success: bool      // bSuccess
    var dwWrite: nat
    var dwTotalWritten: nat
    var sent: seq<seq<Byte>>

    ghost predicate Valid()
      reads this, ring
    {
      ring.Valid()
    }

    ghost function Abs(): Sock
      reads this, ring, ring.messages
      requires Valid()
    {
      Sock(state, ring.Contents(), sem, writing, success, sent)
    }

    constructor (ring: RingBuffer)
      requires ring.Valid() && ring.Contents() == []
      ensures Valid() && this.ring == ring
      ensures Abs() == Sock(UnconnectedState, [], 0, false, true, [])
    {
      this.ring := ring;
      state, sem, writing, success, dwWrite, dwTotalWritten, sent := UnconnectedState, 0, false, true, 0, 0, [];
    }

    /** disconnectFromServer, as far as sending goes. */
    method Disconnect()
      requires Valid()
      modifies this`state, this`success
      ensures Valid() && Abs() == old(Abs()).(state := UnconnectedState, success := false)
    {
      state := UnconnectedState;
      success := false;
    }

    /** -1 if the socket is not valid or the queue is full. */
    method Write(buf: seq<Byte>) returns (r: int)
      requires Valid()
      modifies this`sem, ring, ring.messages
      ensures Valid() && ring.messages == old(ring.messages)
      ensures r == if IsValidState(state) && |old(ring.Contents())| < CAPACITY then |buf| else -1
      ensures Abs() == if r == -1 then old(Abs()) else Pushed(old(Abs()), [buf])
    {
      if IsValidState(state) {
        var full := ring.IsFull();
        if !full {
          ring.PushMessage(buf);
          sem := Released(sem);
          return |buf|;
        }
      }
      return -1;
    }

    /** One slice of a message: write, and give up when it fails. */
    method SendSlice(data: seq<Byte>, ghost before: Sock, ghost ss: seq<seq<Byte>>, ghost i: nat) returns (done: bool)
      requires Valid() && i < |ss| && data == ss[i] && Along(before, ss, i, Abs())
      modifies this`sem, ring, ring.messages
      ensures Valid() && ring.messages == old(ring.messages)
      ensures if done then Along(before, ss, i + 1, Abs()) else Stopped(before, ss, Abs())
    {
      PushedMore(before, ss, i);
      var r := Write(data);
      done := r != -1;
    }

    /** The slicing loop of sendMessage and sendBuffer; it stops at the first failing write. */
    method SendSliced(message: seq<Byte>) returns (done: bool)
      requires Valid() && |message| < 0x8000_0000
      modifies this`sem, ring, ring.messages
      ensures Valid() && ring.messages == old(ring.messages)
      ensures Abs() == Enqueued(old(Abs()), message)
      ensures done <==> message == [] || (IsValidState(state) && |Slices(message)| <= Room(old(Abs())))
    {
      var sliceCount := |message| / SLICE;
      var rest := |message| % SLICE;
      ghost var ss := Slices(message);
      ghost var before := Abs();
      SlicesCount(message);
      PushedNone(before, ss);
      done := true;
      var i := 0;
      while i < sliceCount && done
        invariant 0 <= i <= sliceCount
        invariant Valid() && ring.messages == old(ring.messages)
        invariant if done then Along(before, ss, i, Abs()) else Stopped(before, ss, Abs())
      {
        SliceAt(message, i);
        done := SendSlice(message[i * SLICE..(i + 1) * SLICE], before, ss, i);
        i := i + 1;
      }
      if done && rest != 0 {
        SliceAt(message, sliceCount);
        done := SendSlice(message[sliceCount * SLICE..sliceCount * SLICE + rest], before, ss, sliceCount);
      }
      Finished(before, message, Abs(), done);
    }

    /** One turn of the drain loop; `accepted` is what WriteFileEx answers. */
    method DoWriteMessage(accepted: bool)
      requires Valid()
      modifies this, ring
      ensures Valid() && ring.messages == old(ring.messages)
      ensures Abs() == if accepted then Drained(old(Abs())) else Refused(old(Abs()))
      ensures !old(writing) && writing ==> dwTotalWritten == 0 && dwWrite == |old(ring.Contents())[0]|
    {
      if !success {
        return;
      }
      if writing {
        return;
      }
      var empty := ring.IsEmpty();
      if empty {
        return;
      }
      ghost var was := ring.Contents();
      var data := ring.PopMessage();
      assert was[0] == data && was[1..] == ring.Contents();
      if |data| == 0 {
        return;
      }
      if |data| > SLICE {
        return;
      }
      dwWrite, dwTotalWritten := |data|, 0;
      writing := true;
      if accepted {
        sent := sent + [data];
      } else {
        state := UnconnectedState;
        success := false;
      }
    }

    /**
     A full write ends the flight and a partial one does not.  An error leaves the socket unconnected
     and the flight unended, so that nothing is written any more.
     */
    method CompletedWriteRoutine(error: bool, cbWritten: nat)
      requires Valid()
      modifies this`state, this`writing, this`dwTotalWritten
      ensures Valid()
      ensures error ==> Abs() == old(Abs()).(state := UnconnectedState)
      ensures error && old(writing) ==> Drained(Abs()) == Abs()
      ensures !error ==> Abs() == old(Abs()).(writing := old(writing) && old(dwTotalWritten) + cbWritten != dwWrite)
    {
      if error {
        state := UnconnectedState;
        return;
      }
      dwTotalWritten := dwTotalWritten + cbWritten;
      if dwTotalWritten == dwWrite {
        writing := false;
      }
    }

    /** WAIT_OBJECT_0 + NotifyWaitWritten in workingFunc. */
    method OnToken(accepted: bool)
      requires Valid() && sem > 0
      modifies this, ring
      ensures Valid() && ring.messages == old(ring.messages)
      ensures var s := old(Abs()).(sem := old(sem) - 1); Abs() == if accepted then Drained(s) else Refused(s)
    {
      sem := sem - 1;
      DoWriteMessage(accepted);
    }

    /** WAIT_IO_COMPLETION in workingFunc, as far as writing goes. */
    method OnIoCompletion(accepted: bool)
      requires Valid()
      modifies this, ring
      ensures Valid() && ring.messages == old(ring.messages)
      ensures Abs() == if accepted then Drained(old(Abs())) else Refused(old(Abs()))
    {
      if success && !writing {
        DoWriteMessage(accepted);
      }
    }
  }

  /** The first i slices are in the queue. */
  predicate Along(before: Sock, ss: seq<seq<Byte>>, i: nat, now: Sock) {
    && i <= |ss|
    && now == Pushed(before, ss[..i])
    && (i == 0 || (IsValidState(before.state) && i <= Room(before)))
  }

  /** The slicing loop has given up: the socket is not valid, or full before all slices are in. */
  predicate Stopped(before: Sock, ss: seq<seq<Byte>>, after: Sock) {
    && ss != []
    && (!IsValidState(before.state) || |ss| > Room(before))
    && after == if !IsValidState(before.state) then before else Pushed(before, ss[..Room(before)])
  }

  lemma PushedMore(before: Sock, ss: seq<seq<Byte>>, i: nat)
    requires i < |ss|
    ensures Pushed(Pushed(before, ss[..i]), [ss[i]]) == Pushed(before, ss[..i + 1])
    ensures Room(Pushed(before, ss[..i])) == if i <= Room(before) then Room(before) - i else 0
  {
    assert ss[..i + 1] == ss[..i] + [ss[i]];
    assert before.queue + ss[..i] + [ss[i]] == before.queue + ss[..i + 1];
  }

  lemma PushedNone(before: Sock, ss: seq<seq<Byte>>)
    ensures Pushed(before, ss[..0]) == before
  {
    assert before.queue + ss[..0] == before.queue;
  }

  lemma Finished(before: Sock, message: seq<Byte>, now: Sock, done: bool)
    requires var ss := Slices(message); if done then Along(before, ss, |ss|, now) else Stopped(before, ss, now)
    ensures now == Enqueued(before, message)
    ensures done <==> message == [] || (IsValidState(before.state) && |Slices(message)| <= Room(before))
  {
    var ss := Slices(message);
    assert ss[..|ss|] == ss;
    PushedNone(before, ss);
  }
}
