/** What RIPCClientChannel::onRecvData computes, as functions on values. */
module ClientDecoder {
  import opened Wire
  import opened RpcBuffers

  // Callbacks and the service processor return without re-entering the decoder.
  type Handler = nat  // a callback, or the buffer its reply goes to

  datatype Effect =
    | Pushed(payload: seq<Byte>)                                  // server message without reply
    | Asked(cid: u32, payload: seq<Byte>)                         // request of the server to the client
    | Answered(cob: Handler, buffer: Handler, payload: seq<Byte>) // buffer filled, then callback run
    | Failed(cob: Handler)                                        // callback run without a reply

  datatype Client = Client(
    data: seq<Byte>, pos: nat, cobs: map<u32, Handler>, buffers: map<u32, Handler>,
    serverSeq: u32, closed: bool, log: seq<Effect>)

  datatype Turn = Turn(next: Client, again: bool)

  function Closed(c: Client): Client {
    c.(data := [], pos := 0, cobs := map[], buffers := map[], serverSeq := 0, closed := true)
  }

  predicate ForProcessor(f: Frame) {
    f.cid == 0 || f.version == CLIENT_MODE
  }

  predicate Known(c: Client, cid: u32) {
    cid in c.cobs && cid in c.buffers
  }

  function EffectOf(c: Client, f: Frame): Effect
    requires ForProcessor(f) || Known(c, f.cid)
  {
    if f.cid == 0 then Pushed(f.payload)
    else if f.version == CLIENT_MODE then Asked(f.cid, f.payload)
    else Answered(c.cobs[f.cid], c.buffers[f.cid], f.payload)
  }

  // ---------------------------------------------------------------- the loop on bytes

  function CommitFrame(c: Client, length: nat, e: Effect): Client {
    c.(data := Committed(c.data, length), pos := 0, log := c.log + [e])
  }

  /** A frame of `length` bytes has been read.  Without a processor its frames stay uncommitted. */
  function Dispatch(c: Client, f: Frame, length: nat, processor: bool): Turn {
    if ForProcessor(f) then Turn(if processor then CommitFrame(c, length, EffectOf(c, f)) else c, true)
    else if !Known(c, f.cid) then Turn(Closed(c), false)
    else Turn(CommitFrame(c, length, EffectOf(c, f)).(cobs := c.cobs - {f.cid}, buffers := c.buffers - {f.cid}), true)
  }

  function Incoming(head: seq<Byte>, payload: seq<Byte>): Frame
    requires |head| == HEADER
  {
    Frame(FromLe32(head[8..12]), FromLe32(head[12..16]), FromLe32(head[16..20]), payload)
  }

  /** The payload of a checked header: `pos` is behind the header, `length` counts from its start. */
  function OnPayload(c: Client, head: seq<Byte>, length: nat, processor: bool): Turn
    requires |head| == HEADER && HEADER <= length && c.pos <= |c.data|
  {
    if |c.data| - c.pos < length - HEADER then Turn(Closed(c), false)
    else
      var end := c.pos + (length - HEADER);
      Dispatch(c.(pos := end, serverSeq := (c.serverSeq + 1) % U32), Incoming(head, c.data[c.pos..end]), length, processor)
  }

  /** One turn of the loop. */
  function OneTurn(c: Client, processor: bool): (t: Turn)
    requires |c.data| > HEADER && c.pos <= |c.data|
    ensures t.next.pos <= |t.next.data|
    ensures t.again ==> |t.next.data| < |c.data| || (t.next.data == c.data && t.next.pos > c.pos)
  {
    if |c.data| - c.pos < HEADER then Turn(Closed(c), false)
    else
      var head := c.data[c.pos..c.pos + HEADER];
      var length := FromLe32(head[4..8]);
      if head[..4] != MAGIC then Turn(Closed(c), false)
      else if length < HEADER then Turn(Closed(c), false)
      else if |c.data| < length then Turn(c.(pos := 0), false)
      else OnPayload(c.(pos := c.pos + HEADER), head, length, processor)
  }

  /** The loop; it ends on every input because each turn shortens what is left to read. */
  function Drain(c: Client, processor: bool): (r: Client)
    requires c.pos <= |c.data|
    ensures r.pos <= |r.data|
    decreases |c.data|, |c.data| - c.pos
  {
    if |c.data| <= HEADER then c
    else
      var t := OneTurn(c, processor);
      if t.again then Drain(t.next, processor) else t.next
  }

  function Receive(c: Client, chunk: seq<Byte>, processor: bool): Client
    requires c.pos <= |c.data|
  {
    Drain(c.(data := c.data + chunk), processor)
  }

  /** A socket that has been closed delivers nothing more. */
  function ReceiveAll(c: Client, chunks: seq<seq<Byte>>, processor: bool): Client
    requires c.pos <= |c.data|
    decreases |chunks|
  {
    if chunks == [] || c.closed then c else ReceiveAll(Receive(c, chunks[0], processor), chunks[1..], processor)
  }

  // ---------------------------------------------------------------- the same on frames

  function OnFrame(c: Client, f: Frame): Client {
    var d := c.(serverSeq := (c.serverSeq + 1) % U32);
    if ForProcessor(f) then d.(log := c.log + [EffectOf(c, f)])
    else if !Known(c, f.cid) then Closed(c)
    else d.(log := c.log + [EffectOf(c, f)], cobs := c.cobs - {f.cid}, buffers := c.buffers - {f.cid})
  }

  function Serve(c: Client, frames: seq<Frame>): Client
    decreases |frames|
  {
    if frames == [] || c.closed then c else Serve(OnFrame(c, frames[0]), frames[1..])
  }

  /** What a receiver that decodes with `Parse` and serves the frames ends up with. */
  function Reference(c: Client): Client {
    var p := Parse(c.data);
    var d := Serve(c, p.frames);
    if d.closed then d else if p.bad then Closed(d) else d.(data := p.rest)
  }

  lemma TurnLooks(c: Client, processor: bool)
    requires |c.data| > HEADER && c.pos == 0
    ensures OneTurn(c, processor) ==
            match Look(c.data)
            case Wait => Turn(c, false)
            case Bad => Turn(Closed(c), false)
            case Whole(f, n) => Dispatch(c.(pos := n, serverSeq := (c.serverSeq + 1) % U32), f, n, processor)
  {
    var s := c.data;
    var head := s[..HEADER];
    assert head[..4] == s[..4] && head[4..8] == s[4..8] && head[8..12] == s[8..12];
    assert head[12..16] == s[12..16] && head[16..20] == s[16..20];
  }

  lemma ServeFirst(c: Client, f: Frame, tail: seq<Frame>)
    requires !c.closed
    ensures Serve(c, [f] + tail) == Serve(OnFrame(c, f), tail)
  {
    assert ([f] + tail)[1..] == tail;
  }

  /** Serving frames does not look at the undecoded bytes, and closing discards them. */
  lemma {:induction false} ServeIgnoresData(c: Client, data: seq<Byte>, frames: seq<Frame>)
    requires !c.closed
    ensures var d := Serve(c, frames);
            Serve(c.(data := data), frames) == if d.closed then d else d.(data := data)
    decreases |frames|
  {
    if frames != [] && !OnFrame(c, frames[0]).closed {
      ServeIgnoresData(OnFrame(c, frames[0]), data, frames[1..]);
    }
  }

  lemma DispatchIsOnFrame(c: Client, f: Frame, n: nat)
    requires c.pos == 0 && !c.closed && n <= |c.data|
    ensures var d := OnFrame(c, f);
            Dispatch(c.(pos := n, serverSeq := (c.serverSeq + 1) % U32), f, n, true)
            == if d.closed then Turn(d, false) else Turn(d.(data := c.data[n..]), true)
  {
  }

  /** One turn with a processor, in terms of the reference decoder. */
  lemma DrainUnfolds(c: Client)
    requires c.pos == 0 && !c.closed
    ensures Look(c.data).Wait? ==> Drain(c, true) == c
    ensures Look(c.data).Bad? ==> Drain(c, true) == Closed(c)
    ensures Look(c.data).Whole? ==>
      var d := OnFrame(c, Look(c.data).frame);
      Drain(c, true) == if d.closed then d else Drain(d.(data := c.data[Look(c.data).length..]), true)
  {
    if |c.data| > HEADER {
      TurnLooks(c, true);
      var t := OneTurn(c, true);
      assert Drain(c, true) == if t.again then Drain(t.next, true) else t.next;
      if Look(c.data).Whole? {
        DispatchIsOnFrame(c, Look(c.data).frame, Look(c.data).length);
      }
    }
  }

  lemma ReferenceUnfolds(c: Client)
    requires !c.closed
    ensures Look(c.data).Wait? ==> Reference(c) == c
    ensures Look(c.data).Bad? ==> Reference(c) == Closed(c)
    ensures Look(c.data).Whole? ==>
      var d := OnFrame(c, Look(c.data).frame);
      Reference(c) == if d.closed then d else Reference(d.(data := c.data[Look(c.data).length..]))
  {
    if Look(c.data).Whole? {
      var f, n := Look(c.data).frame, Look(c.data).length;
      var d := OnFrame(c, f);
      var p := Parse(c.data[n..]);
      ServeFirst(c, f, p.frames);
      if !d.closed { ServeIgnoresData(d, c.data[n..], p.frames); }
    }
  }

  /** With a processor the byte loop is the reference decoder followed by serving the frames. */
  lemma {:induction false} DrainIsReference(c: Client)
    requires c.pos == 0 && !c.closed
    ensures Drain(c, true) == Reference(c)
    decreases |c.data|
  {
    DrainUnfolds(c);
    ReferenceUnfolds(c);
    if Look(c.data).Whole? {
      var d := OnFrame(c, Look(c.data).frame);
      if !d.closed { DrainIsReference(d.(data := c.data[Look(c.data).length..])); }
    }
  }

  lemma {:induction false} ServeConcat(c: Client, a: seq<Frame>, b: seq<Frame>)
    ensures Serve(c, a + b) == Serve(Serve(c, a), b)
    decreases |a|
  {
    if a == [] {
      assert a + b == b;
    } else if !c.closed {
      assert (a + b)[1..] == a[1..] + b;
      ServeConcat(OnFrame(c, a[0]), a[1..], b);
    }
  }

  lemma ReferenceTwice(c: Client, b: seq<Byte>)
    requires !c.closed
    ensures var d := Reference(c);
            Reference(c.(data := c.data + b)) == if d.closed then d else Reference(d.(data := d.data + b))
  {
    var all := c.data + b;
    var p := Parse(c.data);
    var e := Serve(c, p.frames);
    ParseConcat(c.data, b);
    ServeIgnoresData(c, all, p.frames);
    if !p.bad {
      var q := Parse(p.rest + b);
      ServeConcat(c.(data := all), p.frames, q.frames);
      if !e.closed {
        ServeIgnoresData(e, all, q.frames);
        ServeIgnoresData(e, p.rest + b, q.frames);
      }
    }
  }

  lemma {:induction false} ServeKeepsPos(c: Client, frames: seq<Frame>)
    requires c.pos == 0
    ensures Serve(c, frames).pos == 0
    decreases |frames|
  {
    if frames != [] && !c.closed {
      ServeKeepsPos(OnFrame(c, frames[0]), frames[1..]);
    }
  }

  /** Receiving in two goes is receiving at once, as long as the first does not close. */
  lemma ReceiveTwice(c: Client, a: seq<Byte>, b: seq<Byte>)
    requires c.pos == 0 && !c.closed
    ensures var d := Receive(c, a, true);
            && d.pos == 0
            && Receive(c, a + b, true) == if d.closed then d else Receive(d, b, true)
  {
    var first := c.(data := c.data + a);
    assert c.data + (a + b) == first.data + b;
    ServeKeepsPos(first, Parse(first.data).frames);
    ReferenceTwice(first, b);
    DrainIsReference(first);
    DrainIsReference(c.(data := c.data + (a + b)));
    var d := Reference(first);
    if !d.closed {
      DrainIsReference(d.(data := d.data + b));
    }
  }

  /**
   Chunk independence: with a processor, every way of cutting the bytes leaves the client in the
   same state, with the same callbacks run in the same order, also when the stream makes it close.
   */
  lemma {:induction false} ClientChunkIndependence(c: Client, chunks: seq<seq<Byte>>)
    requires c.pos == 0 && !c.closed && Look(c.data).Wait?
    ensures ReceiveAll(c, chunks, true) == Receive(c, Flatten(chunks), true)
    decreases |chunks|
  {
    if chunks == [] {
      assert c.data + [] == c.data;
      DrainIsReference(c);
    } else {
      var d := Receive(c, chunks[0], true);
      ReceiveTwice(c, chunks[0], Flatten(chunks[1..]));
      if !d.closed {
        DrainIsReference(c.(data := c.data + chunks[0]));
        RestWaits(c.data + chunks[0]);
        ClientChunkIndependence(d, chunks[1..]);
      }
    }
  }

  // ---------------------------------------------------------------- when a stream closes

  /** Every reply is to a pending request, and none is answered twice. */
  predicate Answerable(c: Client, frames: seq<Frame>) {
    && (forall i :: 0 <= i < |frames| && !ForProcessor(frames[i]) ==> Known(c, frames[i].cid))
    && (forall i, j :: 0 <= i < j < |frames| && !ForProcessor(frames[i]) && !ForProcessor(frames[j])
          ==> frames[i].cid != frames[j].cid)
  }

  function ReplyIds(frames: seq<Frame>): set<u32> {
    set i | 0 <= i < |frames| && !ForProcessor(frames[i]) :: frames[i].cid
  }

  function Effects(c: Client, frames: seq<Frame>): seq<Effect>
    requires Answerable(c, frames)
  {
    seq(|frames|, i requires 0 <= i < |frames| => EffectOf(c, frames[i]))
  }

  lemma AnswerableTail(c: Client, frames: seq<Frame>)
    requires frames != [] && (ForProcessor(frames[0]) || Known(c, frames[0].cid))
    ensures Answerable(c, frames) <==> Answerable(OnFrame(c, frames[0]), frames[1..])
  {
    var d, rest := OnFrame(c, frames[0]), frames[1..];
    if Answerable(d, rest) {
      forall i | 0 <= i < |frames| && !ForProcessor(frames[i]) ensures Known(c, frames[i].cid) {
        if i > 0 { assert frames[i] == rest[i - 1] && Known(d, rest[i - 1].cid); }
      }
      forall i, j | 0 <= i < j < |frames| && !ForProcessor(frames[i]) && !ForProcessor(frames[j])
        ensures frames[i].cid != frames[j].cid
      {
        assert frames[j] == rest[j - 1] && Known(d, rest[j - 1].cid);
        if i > 0 { assert frames[i] == rest[i - 1]; }
      }
    }
  }

  /** Each frame has its effect, in order; a reply runs the callback registered under its id. */
  lemma {:induction false} ServeAnswers(c: Client, frames: seq<Frame>)
    requires !c.closed
    ensures !Serve(c, frames).closed <==> Answerable(c, frames)
    ensures Answerable(c, frames) ==>
              && Serve(c, frames).log == c.log + Effects(c, frames)
              && Serve(c, frames).cobs == c.cobs - ReplyIds(frames)
              && Serve(c, frames).buffers == c.buffers - ReplyIds(frames)
    decreases |frames|
  {
    if frames != [] {
      var d, rest := OnFrame(c, frames[0]), frames[1..];
      if d.closed {
        assert !ForProcessor(frames[0]) && !Known(c, frames[0].cid);
      } else {
        AnswerableTail(c, frames);
        ServeAnswers(d, rest);
        if Answerable(c, frames) {
          ServeAnswersStep(c, frames);
        }
      }
    }
  }

  lemma ReplyIdsFirst(frames: seq<Frame>)
    requires frames != []
    ensures ReplyIds(frames) == ReplyIds(frames[1..]) + (if ForProcessor(frames[0]) then {} else {frames[0].cid})
  {
    var rest := frames[1..];
    forall x | x in ReplyIds(frames)
      ensures x in ReplyIds(rest) || (!ForProcessor(frames[0]) && x == frames[0].cid)
    {
      var i :| 0 <= i < |frames| && !ForProcessor(frames[i]) && frames[i].cid == x;
      if i > 0 { assert rest[i - 1] == frames[i]; }
    }
    forall x | x in ReplyIds(rest) ensures x in ReplyIds(frames) {
      var i :| 0 <= i < |rest| && !ForProcessor(rest[i]) && rest[i].cid == x;
      assert frames[i + 1] == rest[i];
    }
  }

  lemma EffectsFirst(c: Client, frames: seq<Frame>)
    requires frames != [] && Answerable(c, frames)
    requires var d := OnFrame(c, frames[0]); Answerable(d, frames[1..])
    ensures Effects(c, frames) == [EffectOf(c, frames[0])] + Effects(OnFrame(c, frames[0]), frames[1..])
  {
    var d, rest := OnFrame(c, frames[0]), frames[1..];
    forall i | 0 <= i < |rest| ensures EffectOf(c, frames[i + 1]) == EffectOf(d, rest[i]) {
      assert frames[i + 1] == rest[i];
    }
  }

  lemma ServeAnswersStep(c: Client, frames: seq<Frame>)
    requires !c.closed && frames != [] && Answerable(c, frames)
    requires var d := OnFrame(c, frames[0]); !d.closed && Answerable(d, frames[1..])
    ensures var d := OnFrame(c, frames[0]);
            && d.log + Effects(d, frames[1..]) == c.log + Effects(c, frames)
            && d.cobs - ReplyIds(frames[1..]) == c.cobs - ReplyIds(frames)
            && d.buffers - ReplyIds(frames[1..]) == c.buffers - ReplyIds(frames)
  {
    ReplyIdsFirst(frames);
    EffectsFirst(c, frames);
  }

  /** Exactly when a stream, however cut, makes the client close. */
  lemma ClosesIff(c: Client, chunks: seq<seq<Byte>>)
    requires c.pos == 0 && !c.closed && Look(c.data).Wait?
    ensures var p := Parse(c.data + Flatten(chunks));
            ReceiveAll(c, chunks, true).closed <==> p.bad || !Answerable(c, p.frames)
  {
    ClientChunkIndependence(c, chunks);
    var now := c.(data := c.data + Flatten(chunks));
    DrainIsReference(now);
    ServeAnswers(now, Parse(now.data).frames);
  }

  /** The client counts the frames it has served, modulo 2^32. */
  lemma {:induction false} ServeCounts(c: Client, frames: seq<Frame>)
    requires !Serve(c, frames).closed
    ensures Serve(c, frames).serverSeq == (c.serverSeq + |frames|) % 0x1_0000_0000
    decreases |frames|
  {
    if frames != [] && !c.closed {
      ServeCounts(OnFrame(c, frames[0]), frames[1..]);
    }
  }

  lemma {:induction false} ServeForgets(c: Client, frames: seq<Frame>)
    requires !c.closed && Serve(c, frames).closed
    ensures var d := Serve(c, frames);
            d.data == [] && d.pos == 0 && d.cobs == map[] && d.buffers == map[] && d.serverSeq == 0
    decreases |frames|
  {
    if frames != [] && !OnFrame(c, frames[0]).closed { ServeForgets(OnFrame(c, frames[0]), frames[1..]); }
  }

  /** A client that a stream makes close keeps no byte and no request, so no callback runs any more. */
  lemma CloseForgets(c: Client, chunks: seq<seq<Byte>>, later: seq<seq<Byte>>)
    requires c.pos == 0 && !c.closed && Look(c.data).Wait? && ReceiveAll(c, chunks, true).closed
    ensures var d := ReceiveAll(c, chunks, true);
            && d.data == [] && d.pos == 0 && d.cobs == map[] && d.buffers == map[] && d.serverSeq == 0
            && ReceiveAll(d, later, true) == d
  {
    ClientChunkIndependence(c, chunks);
    var now := c.(data := c.data + Flatten(chunks));
    DrainIsReference(now);
    var frames := Parse(now.data).frames;
    if Serve(now, frames).closed { ServeForgets(now, frames); }
  }
}
