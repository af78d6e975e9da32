/**
 RIPCServerConnectionPrivate and RIPCServerToClientChannel of ripcqccomponent/ipcbase: the
 server's end of a connection.  Signals to the connection's thread are direct calls here.
 */
module ServerConnections {
  import opened Wire
  import opened LocalSockets
  import opened ServerDecoder
  import ClientDecoder
  import opened ClientChannels

  class ServerConnection {
    const socket: LocalSocket
    var buffer: seq<Byte>
    var serverSeq: u32     // m_serverSequanceId
    var finished: nat      // how often connectionFinished was emitted
    var log: seq<Call>

    ghost predicate Valid()
      reads this, socket, socket.ring
    {
      socket.Valid()
    }

    ghost function Abs(): Server
      reads this
    {
      Server(buffer, finished, log)
    }

    constructor (socket: LocalSocket)
      requires socket.Valid()
      ensures Valid() && this.socket == socket && Abs() == Server([], 0, []) && serverSeq == 0
    {
      this.socket := socket;
      buffer, serverSeq, finished, log := [], 0, 0, [];
    }

    method OnRecvData(bytes: seq<Byte>)
      requires Valid()
      modifies this`buffer, this`finished, this`log
      ensures Valid() && Abs() == Receive(old(Abs()), bytes)
    {
      buffer := buffer + bytes;
      ProcessBuffer();
    }

    /** process(); it always ends, since every turn that goes on removes a frame. */
    method ProcessBuffer()
      requires Valid()
      modifies this`buffer, this`finished, this`log
      ensures Valid() && Abs() == Process(old(Abs()))
    {
      if |buffer| > LIMIT {
        finished := finished + 1;
        return;
      }
      var again := true;
      while again && |buffer| > HEADER
        invariant Valid()
        invariant (if again then Drain(Abs()) else Abs()) == Drain(old(Abs()))
        decreases again, |buffer|
      {
        again := NextFrame();
      }
    }

    method NextFrame() returns (again: bool)
      requires Valid() && |buffer| > HEADER
      modifies this`buffer, this`finished, this`log
      ensures Valid() && Turn(Abs(), again) == OneTurn(old(Abs()))
    {
      var head := buffer[..HEADER];
      if head[..4] != MAGIC {
        finished := finished + 1;
        return false;
      }
      var length := FromLe32(head[4..8]);
      if length < HEADER {
        finished := finished + 1;
        return false;
      }
      if |buffer| < length {
        return false;
      }
      var payload := buffer[HEADER..length];
      var f := ClientDecoder.Incoming(head, payload);
      if |payload| == |BYE| && f.cid == 0 {
        if payload == BYE {
          finished := finished + 1;
          return false;
        }
      }
      if f.version == CLIENT_MODE {
        log := log + [Buffered(payload, f.cid)];
      } else {
        log := log + [Processed(payload, f.cid)];
      }
      buffer := buffer[length..];
      return true;
    }

    /** The reply to the request `id`. */
    method SendMessage(payload: seq<Byte>, id: u32)
      requires Valid() && Sendable(Frame(0, id, serverSeq, payload))
      modifies this`serverSeq, this`finished, socket`sem, socket.ring, socket.ring.messages
      ensures Valid() && buffer == old(buffer) && log == old(log)
      ensures !socket.state.ConnectedState? ==>
        socket.Abs() == old(socket.Abs()) && finished == old(finished) && serverSeq == old(serverSeq)
      ensures socket.state.ConnectedState? ==>
        var m := Encode(Frame(0, id, old(serverSeq), payload));
        && serverSeq == (old(serverSeq) + 1) % U32
        && socket.Abs() == Enqueued(old(socket.Abs()), m)
        && finished == old(finished) + (if |Slices(m)| <= Room(old(socket.Abs())) then 0 else 1)
    {
      if !socket.state.ConnectedState? {
        return;
      }
      var m := BuildMessage(Frame(0, id, serverSeq, payload));
      serverSeq := (serverSeq + 1) % U32;
      var done := socket.SendSliced(m[..]);
      if !done {
        finished := finished + 1;
      }
    }

    /** A message that has been laid out already. */
    method SendBuffer(message: seq<Byte>)
      requires Valid() && |message| < 0x8000_0000
      modifies this`finished, socket`sem, socket.ring, socket.ring.messages
      ensures Valid() && buffer == old(buffer) && log == old(log)
      ensures !socket.state.ConnectedState? ==> socket.Abs() == old(socket.Abs()) && finished == old(finished)
      ensures socket.state.ConnectedState? ==>
        && socket.Abs() == Enqueued(old(socket.Abs()), message)
        && finished == old(finished) + (if |Slices(message)| <= Room(old(socket.Abs())) then 0 else 1)
    {
      if !socket.state.ConnectedState? {
        return;
      }
      var done := socket.SendSliced(message);
      if !done {
        finished := finished + 1;
      }
    }
  }

  /** Requests and messages from the server to the client, over the same connection. */
  class ServerToClientChannel {
    const connection: ServerConnection
    var currentId: u32
    var cobs: map<u32, ClientDecoder.Handler>
    var buffers: map<u32, ClientDecoder.Handler>
    var log: seq<ClientDecoder.Effect>

    ghost predicate Valid()
      reads this, connection, connection.socket, connection.socket.ring
    {
      connection.Valid()
    }

    constructor (connection: ServerConnection)
      requires connection.Valid()
      ensures Valid() && this.connection == connection && currentId == 1
      ensures cobs == map[] && buffers == map[] && log == []
    {
      this.connection := connection;
      currentId, cobs, buffers, log := 1, map[], map[], [];
    }

    /** A message without reply: id 0. */
    method SendMessage(payload: seq<Byte>)
      requires Valid() && Sendable(Frame(0, 0, 0, payload))
      modifies connection`finished, connection.socket`sem, connection.socket.ring, connection.socket.ring.messages
      ensures Valid() && connection.log == old(connection.log) && connection.buffer == old(connection.buffer)
      ensures connection.socket.Abs() ==
        if connection.socket.state.ConnectedState?
        then Enqueued(old(connection.socket.Abs()), Encode(Frame(0, 0, 0, payload)))
        else old(connection.socket.Abs())
    {
      var m := BuildMessage(Frame(0, 0, 0, payload));
      connection.SendBuffer(m[..]);
    }

    /** A request to the client, marked by its version. */
    method SendAndRecvMessage(cob: ClientDecoder.Handler, payload: seq<Byte>, recvBuf: ClientDecoder.Handler)
      requires Valid() && Sendable(Frame(CLIENT_MODE, NextId(currentId), 0, payload))
      modifies this, connection`finished, connection.socket`sem, connection.socket.ring, connection.socket.ring.messages
      ensures Valid() && connection.log == old(connection.log) && connection.buffer == old(connection.buffer)
      ensures !connection.socket.state.ConnectedState? ==>
        && log == old(log) + [ClientDecoder.Failed(cob)]
        && cobs == old(cobs) && buffers == old(buffers) && currentId == old(currentId)
        && connection.socket.Abs() == old(connection.socket.Abs())
      ensures connection.socket.state.ConnectedState? ==>
        var id := NextId(old(currentId));
        && log == old(log) && currentId == id
        && cobs == old(cobs)[id := cob] && buffers == old(buffers)[id := recvBuf]
        && connection.socket.Abs()
           == Enqueued(old(connection.socket.Abs()), Encode(Frame(CLIENT_MODE, id, 0, payload)))
    {
      if !connection.socket.state.ConnectedState? {
        log := log + [ClientDecoder.Failed(cob)];
        return;
      }
      currentId := (currentId + 1) % U32;
      if currentId == 0 {
        currentId := 1;
      }
      cobs := cobs[currentId := cob];
      buffers := buffers[currentId := recvBuf];
      var m := BuildMessage(Frame(CLIENT_MODE, currentId, 0, payload));
      connection.SendBuffer(m[..]);
    }

    /** The answer of the client.  The callback stays registered, so it may run again. */
    method OnReceivedBuffer(payload: seq<Byte>, cid: u32)
      requires Valid()
      modifies this`log
      ensures log == AfterAnswer(old(log), cobs, buffers, payload, cid)
    {
      if cid !in cobs {
        return;
      }
      if cid !in buffers {
        return;
      }
      log := log + [ClientDecoder.Answered(cobs[cid], buffers[cid], payload)];
    }
  }

  // ---------------------------------------------------------------- answers that come more than once

  type Handlers = map<u32, ClientDecoder.Handler>

  function AfterAnswer(
      log: seq<ClientDecoder.Effect>, cobs: Handlers, buffers: Handlers, payload: seq<Byte>, cid: u32): seq<ClientDecoder.Effect>
  {
    if cid in cobs && cid in buffers then log + [ClientDecoder.Answered(cobs[cid], buffers[cid], payload)] else log
  }

  datatype Arrival = Arrival(payload: seq<Byte>, cid: u32)

  /** The log after a run of answers; the maps do not change. */
  function AfterAnswers(
      log: seq<ClientDecoder.Effect>, cobs: Handlers, buffers: Handlers, arrivals: seq<Arrival>): seq<ClientDecoder.Effect>
    decreases |arrivals|
  {
    if arrivals == [] then log
    else AfterAnswers(AfterAnswer(log, cobs, buffers, arrivals[0].payload, arrivals[0].cid), cobs, buffers, arrivals[1..])
  }

  function RunsOf(log: seq<ClientDecoder.Effect>, cob: ClientDecoder.Handler): nat {
    if log == [] then 0
    else
      var last := log[|log| - 1];
      RunsOf(log[..|log| - 1], cob) + if last.Answered? && last.cob == cob then 1 else 0
  }

  /** The answers to a request whose callback is `cob`. */
  function AnswersFor(cobs: Handlers, buffers: Handlers, arrivals: seq<Arrival>, cob: ClientDecoder.Handler): nat {
    if arrivals == [] then 0
    else
      var cid := arrivals[0].cid;
      (if cid in cobs && cid in buffers && cobs[cid] == cob then 1 else 0) + AnswersFor(cobs, buffers, arrivals[1..], cob)
  }

  /** A callback of the server runs once for every answer with an id of its own, however many there are. */
  lemma {:induction false} EveryAnswerRuns(
      log: seq<ClientDecoder.Effect>, cobs: Handlers, buffers: Handlers, arrivals: seq<Arrival>, cob: ClientDecoder.Handler)
    ensures RunsOf(AfterAnswers(log, cobs, buffers, arrivals), cob) == RunsOf(log, cob) + AnswersFor(cobs, buffers, arrivals, cob)
    decreases |arrivals|
  {
    if arrivals != [] {
      var next := AfterAnswer(log, cobs, buffers, arrivals[0].payload, arrivals[0].cid);
      assert next != log ==> next[..|log|] == log;
      EveryAnswerRuns(next, cobs, buffers, arrivals[1..], cob);
    }
  }

  /** What the callback `cob` was given, in order: its buffer and the payload put there. */
  function GivenTo(log: seq<ClientDecoder.Effect>, cob: ClientDecoder.Handler): seq<(ClientDecoder.Handler, seq<Byte>)> {
    if log == [] then []
    else if log[0].Answered? && log[0].cob == cob then [(log[0].buffer, log[0].payload)] + GivenTo(log[1..], cob)
    else GivenTo(log[1..], cob)
  }

  /** The answers that bear an id of `cob`, with the buffer registered under that id. */
  function AnsweredTo(cobs: Handlers, buffers: Handlers, arrivals: seq<Arrival>, cob: ClientDecoder.Handler)
    : seq<(ClientDecoder.Handler, seq<Byte>)>
  {
    if arrivals == [] then []
    else
      var a := arrivals[0];
      if a.cid in cobs && a.cid in buffers && cobs[a.cid] == cob
      then [(buffers[a.cid], a.payload)] + AnsweredTo(cobs, buffers, arrivals[1..], cob)
      else AnsweredTo(cobs, buffers, arrivals[1..], cob)
  }

  lemma {:induction false} GivenMore(log: seq<ClientDecoder.Effect>, e: ClientDecoder.Effect, cob: ClientDecoder.Handler)
    ensures GivenTo(log + [e], cob)
            == GivenTo(log, cob) + (if e.Answered? && e.cob == cob then [(e.buffer, e.payload)] else [])
  {
    if log == [] {
      assert [e][1..] == [];
    } else {
      assert (log + [e])[1..] == log[1..] + [e];
      GivenMore(log[1..], e, cob);
    }
  }

  /** Every callback of the server is given the payloads of the answers with its ids, all of them and in order. */
  lemma {:induction false} AnswersGivenAsArrived(
      log: seq<ClientDecoder.Effect>, cobs: Handlers, buffers: Handlers, arrivals: seq<Arrival>, cob: ClientDecoder.Handler)
    ensures GivenTo(AfterAnswers(log, cobs, buffers, arrivals), cob)
            == GivenTo(log, cob) + AnsweredTo(cobs, buffers, arrivals, cob)
    decreases |arrivals|
  {
    if arrivals != [] {
      var a := arrivals[0];
      if a.cid in cobs && a.cid in buffers {
        GivenMore(log, ClientDecoder.Answered(cobs[a.cid], buffers[a.cid], a.payload), cob);
      }
      AnswersGivenAsArrived(AfterAnswer(log, cobs, buffers, a.payload, a.cid), cobs, buffers, arrivals[1..], cob);
    }
  }
}
