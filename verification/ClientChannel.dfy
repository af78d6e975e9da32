/** RIPCClientChannel of ripcqccomponent/ipcbase/ripcclientchannel.cpp. */
module ClientChannels {
  import opened Wire
  import opened RpcBuffers
  import opened LocalSockets
  import opened ClientDecoder

  /** Request ids count up in 32 bits and skip 0. */
  function NextId(id: u32): (r: u32)
    ensures r != 0
  {
    if (id + 1) % U32 == 0 then 1 else (id + 1) % U32
  }

  /** A frame as the senders lay it out, field by field. */
  method BuildMessage(f: Frame) returns (m: array<Byte>)
    requires Sendable(f)
    ensures fresh(m) && m[..] == Encode(f)
  {
    var length := HEADER + |f.payload|;
    m := new Byte[length](_ => 0);
    CopyBytes(m, 0, MAGIC);
    CopyBytes(m, 4, Le32(length));
    assert m[..8] == MAGIC + Le32(length);
    CopyBytes(m, 8, Le32(f.version));
    assert m[..12] == m[..8] + Le32(f.version);
    CopyBytes(m, 12, Le32(f.cid));
    assert m[..16] == m[..12] + Le32(f.cid);
    CopyBytes(m, 16, Le32(f.sid));
    assert m[..20] == m[..16] + Le32(f.sid);
    CopyBytes(m, 20, f.payload);
  }

  function Registered(c: Client, id: u32, cob: Handler, recvBuf: Handler): Client {
    c.(cobs := c.cobs[id := cob], buffers := c.buffers[id := recvBuf])
  }

  /** A request whose frame does not fit in the socket's queue is taken back and its callback run. */
  function Outcome(c: Client, s: Sock, f: Frame, cob: Handler): Client
    requires Sendable(f)
  {
    if |Slices(Encode(f))| <= Room(s) then c
    else c.(cobs := c.cobs - {f.cid}, buffers := c.buffers - {f.cid}, log := c.log + [Failed(cob)])
  }

  class ClientChannel {
    const buffer: RpcBuffer
    const socket: LocalSocket
    var processor: bool   // m_serviceProcessor is set
    var currentId: u32    // m_currentSequanceId
    var serverSeq: u32    // m_serverSequanceId
    var cobs: map<u32, Handler>
    var buffers: map<u32, Handler>
    var closed: bool
    var log: seq<Effect>

    ghost predicate Valid()
      reads this, buffer, socket, socket.ring
    {
      buffer.Valid() && socket.Valid()
    }

    ghost function Abs(): Client
      reads this, buffer, buffer.d, socket, socket.ring
      requires Valid()
    {
      Client(buffer.Data(), buffer.pos, cobs, buffers, serverSeq, closed, log)
    }

    constructor (socket: LocalSocket)
      requires socket.Valid()
      ensures Valid() && this.socket == socket && !processor && currentId == 0
      ensures Abs() == Client([], 0, map[], map[], 0, false, [])
      ensures fresh(buffer) && fresh(buffer.d)
    {
      this.socket := socket;
      buffer := new RpcBuffer();
      processor, currentId, serverSeq, cobs, buffers, closed, log := false, 0, 0, map[], map[], false, [];
    }

    predicate Good()
      reads this, socket
    {
      IsValidState(socket.state)
    }

    method Close()
      requires Valid()
      modifies this, buffer`pos, buffer`size, buffer.d, socket`state, socket`success
      ensures Valid() && Abs() == Closed(old(Abs()))
      ensures processor == old(processor) && currentId == old(currentId)
      ensures !Good() && socket.Abs() == old(socket.Abs()).(state := UnconnectedState, success := false)
    {
      buffer.Clear();
      buffers, cobs, serverSeq, closed := map[], map[], 0, true;
      socket.Disconnect();
    }

    /** A request; `cob` is called at once if the channel is not good or the slices do not all fit. */
    method SendAndRecvMessage(cob: Handler, payload: seq<Byte>, recvBuf: Handler)
      requires Valid() && Sendable(Frame(0, NextId(currentId), 0, payload))
      modifies this`currentId, this`cobs, this`buffers, this`log, socket`sem, socket.ring, socket.ring.messages
      ensures Valid()
      ensures !Good() ==> Abs() == old(Abs()).(log := old(log) + [Failed(cob)]) && currentId == old(currentId)
                          && socket.Abs() == old(socket.Abs())
      ensures Good() ==>
        var id := NextId(old(currentId));
        var f := Frame(0, id, 0, payload);
        && currentId == id
        && socket.Abs() == Enqueued(old(socket.Abs()), Encode(f))
        && Abs() == Outcome(Registered(old(Abs()), id, cob, recvBuf), old(socket.Abs()), f, cob)
    {
      if !Good() {
        log := log + [Failed(cob)];
        return;
      }
      currentId := (currentId + 1) % U32;
      if currentId == 0 {
        currentId := 1;
      }
      cobs := cobs[currentId := cob];
      buffers := buffers[currentId := recvBuf];
      SendMessage(cob, payload);
    }

    method SendMessage(cob: Handler, payload: seq<Byte>)
      requires Valid() && Good() && Sendable(Frame(0, currentId, 0, payload))
      modifies this`cobs, this`buffers, this`log, socket`sem, socket.ring, socket.ring.messages
      ensures Valid()
      ensures var f := Frame(0, currentId, 0, payload);
        && socket.Abs() == Enqueued(old(socket.Abs()), Encode(f))
        && Abs() == Outcome(old(Abs()), old(socket.Abs()), f, cob)
    {
      var m := BuildMessage(Frame(0, currentId, 0, payload));
      var done := socket.SendSliced(m[..]);
      if !done {
        cobs := cobs - {currentId};
        buffers := buffers - {currentId};
        log := log + [Failed(cob)];
      }
    }

    /** The answer to a request of the server, sent when the processor completes. */
    method SendReply(payload: seq<Byte>, version: u32, cid: u32)
      requires Valid() && Sendable(Frame(version, cid, 0, payload))
      modifies socket`sem, socket.ring, socket.ring.messages
      ensures Valid() && Abs() == old(Abs())
      ensures socket.Abs() == Enqueued(old(socket.Abs()), Encode(Frame(version, cid, 0, payload)))
    {
      var m := BuildMessage(Frame(version, cid, 0, payload));
      var done := socket.SendSliced(m[..]);
    }

    method OnFrame(f: Frame, length: u32) returns (again: bool)
      requires Valid() && length <= |buffer.Data()|
      modifies this, buffer`pos, buffer`size, buffer.d, socket`state, socket`success
      ensures Valid() && processor == old(processor)
      ensures Turn(Abs(), again) == Dispatch(old(Abs()), f, length, processor)
    {
      if f.cid == 0 {
        if processor {
          log := log + [Pushed(f.payload)];
          buffer.Commit(length);
        }
      } else if f.version == CLIENT_MODE {
        if processor {
          buffer.Commit(length);
          log := log + [Asked(f.cid, f.payload)];
        }
      } else {
        if f.cid !in cobs {
          Close();
          return false;
        }
        if f.cid !in buffers {
          Close();
          return false;
        }
        buffer.Commit(length);
        log := log + [Answered(cobs[f.cid], buffers[f.cid], f.payload)];
        cobs := cobs - {f.cid};
        buffers := buffers - {f.cid};
      }
      return true;
    }

    method ReadPayload(head: seq<Byte>, length: u32) returns (again: bool)
      requires Valid() && |head| == HEADER && HEADER <= length <= buffer.size
      modifies this, buffer`pos, buffer`size, buffer.d, socket`state, socket`success
      ensures Valid() && processor == old(processor)
      ensures Turn(Abs(), again) == OnPayload(old(Abs()), head, length, processor)
    {
      ghost var s := buffer.Data();
      var ok, at := buffer.Read(length - HEADER);
      if !ok {
        Close();
        return false;
      }
      serverSeq := (serverSeq + 1) % U32;
      var payload := buffer.d[at..at + (length - HEADER)];
      assert payload == s[at..at + (length - HEADER)];
      again := OnFrame(Incoming(head, payload), length);
    }

    /** One turn of the loop of onRecvData. */
    method NextFrame() returns (again: bool)
      requires Valid() && buffer.size > HEADER
      modifies this, buffer`pos, buffer`size, buffer.d, socket`state, socket`success
      ensures Valid() && processor == old(processor)
      ensures Turn(Abs(), again) == OneTurn(old(Abs()), processor)
    {
      ghost var s := buffer.Data();
      var ok, at := buffer.Read(HEADER);
      if !ok {
        Close();
        return false;
      }
      var head := buffer.d[at..at + HEADER];
      assert head == s[at..at + HEADER];
      var length := FromLe32(head[4..8]);
      if head[..4] != MAGIC {
        Close();
        return false;
      }
      if length < HEADER {
        Close();
        return false;
      }
      if buffer.size < length {
        buffer.Unread();
        return false;
      }
      again := ReadPayload(head, length);
    }

    /** Terminates on every input, also where a turn reads a frame without committing it. */
    method OnRecvData(data: seq<Byte>)
      requires Valid() && |data| < U32 && Fits(buffer.capacity, buffer.size, |data|)
      modifies this, buffer, buffer.d, socket`state, socket`success
      ensures Valid() && processor == old(processor)
      ensures Abs() == Receive(old(Abs()), data, processor)
    {
      buffer.Append(data);
      var again := true;
      while again && buffer.size > HEADER
        invariant Valid() && processor == old(processor)
        invariant buffer.d == old(buffer.d) || fresh(buffer.d)
        invariant (if again then Drain(Abs(), processor) else Abs()) == Receive(old(Abs()), data, processor)
        decreases again, buffer.size, buffer.size - buffer.pos
      {
        again := NextFrame();
      }
    }
  }
}
