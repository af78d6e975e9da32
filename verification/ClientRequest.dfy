/** What becomes of a request, and of the stream, when its slices do not all fit in the socket's queue. */
module ClientRequests {
  import opened Wire
  import opened LocalSockets
  import opened ClientDecoder
  import opened ClientChannels

  /** The slices of 2^18 bytes that a payload takes together with its header. */
  function SlicesFor(payload: seq<Byte>): nat {
    (|payload| + 20 + 0x3_FFFF) / 0x4_0000
  }

  /**
   A request stays registered exactly if all its slices fit beside the queued ones; otherwise its
   callback has run once, without a reply, and nothing is registered under its id.
   */
  lemma RequestKeptIff(c: Client, s: Sock, id: u32, payload: seq<Byte>, cob: Handler, recvBuf: Handler)
    requires Sendable(Frame(0, id, 0, payload))
    ensures var k := Outcome(Registered(c, id, cob, recvBuf), s, Frame(0, id, 0, payload), cob);
            if |s.queue| + SlicesFor(payload) <= 1024
            then k == c.(cobs := c.cobs[id := cob], buffers := c.buffers[id := recvBuf])
            else k == c.(cobs := c.cobs - {id}, buffers := c.buffers - {id}, log := c.log + [Failed(cob)])
  {
    var m := Encode(Frame(0, id, 0, payload));
    SlicesCount(m);
    assert c.cobs[id := cob] - {id} == c.cobs - {id};
    assert c.buffers[id := recvBuf] - {id} == c.buffers - {id};
  }

  // ---------------------------------------------------------------- the stream after a refusal

  lemma {:induction false} FirstSlices(m: seq<Byte>, k: nat)
    requires k < |Slices(m)|
    ensures k * SLICE < |m| && Flatten(Slices(m)[..k]) == m[..k * SLICE]
    decreases k
  {
    if k > 0 {
      FirstSlices(m[SLICE..], k - 1);
      assert Slices(m)[..k][1..] == Slices(m[SLICE..])[..k - 1];
      assert m[..k * SLICE] == m[..SLICE] + m[SLICE..][..(k - 1) * SLICE];
    }
  }

  /** The bytes a send adds to the queue: the whole frame if it fits, else its first slices. */
  lemma QueuedBytes(s: Sock, f: Frame)
    requires Sendable(f) && IsValidState(s.state) && |s.queue| <= 1024
    ensures var n := (1024 - |s.queue|) * 0x4_0000;
            Flatten(Enqueued(s, Encode(f)).queue)
            == Flatten(s.queue) + (if |s.queue| + SlicesFor(f.payload) <= 1024 then Encode(f) else Torn(f, n))
    ensures |s.queue| + SlicesFor(f.payload) > 1024 ==> (1024 - |s.queue|) * 0x4_0000 < 20 + |f.payload|
  {
    var m := Encode(f);
    var k := Room(s);
    SlicesCount(m);
    SlicesFit(m);
    if |Slices(m)| <= k {
      FlattenConcat(s.queue, Slices(m));
    } else {
      FirstSlices(m, k);
      FlattenConcat(s.queue, Slices(m)[..k]);
    }
  }

  /** The first `n` bytes of a frame. */
  function Torn(f: Frame, n: nat): seq<Byte>
    requires Sendable(f)
  {
    if n < |Encode(f)| then Encode(f)[..n] else Encode(f)
  }

  /**
   Once a slice of a refused request is queued the stream is out of step: whatever is sent after it
   is taken for the rest of its payload, until the announced length is reached.
   */
  lemma TornFrameSwallows(f: Frame, n: nat, rest: seq<Byte>)
    requires Sendable(f) && 20 < n < 20 + |f.payload|
    ensures var s := Torn(f, n) + rest;
            && (Look(s).Wait? <==> n + |rest| < 20 + |f.payload|)
            && !Look(s).Bad?
            && (Look(s).Whole? ==>
                  Look(s).frame == f.(payload := f.payload[..n - 20] + rest[..20 + |f.payload| - n]))
  {
    var s := Torn(f, n) + rest;
    SameHead(f, n, rest);
    HeadOf(f);
    if n + |rest| >= HEADER + |f.payload| {
      assert s[HEADER..HEADER + |f.payload|] == f.payload[..n - 20] + rest[..20 + |f.payload| - n];
    }
  }

  lemma SameHead(f: Frame, n: nat, rest: seq<Byte>)
    requires Sendable(f) && 20 < n < 20 + |f.payload|
    ensures var s, e := Torn(f, n) + rest, Encode(f);
            s[..4] == e[..4] && s[4..8] == e[4..8] && s[8..12] == e[8..12] && s[12..16] == e[12..16] && s[16..20] == e[16..20]
  {
  }

  lemma HeadOf(f: Frame)
    requires Sendable(f)
    ensures var e := Encode(f);
            && e[..4] == MAGIC && e[4..8] == Le32(HEADER + |f.payload|) && e[8..12] == Le32(f.version)
            && e[12..16] == Le32(f.cid) && e[16..20] == Le32(f.sid)
    ensures FromLe32(Le32(HEADER + |f.payload|)) == HEADER + |f.payload|
    ensures FromLe32(Le32(f.version)) == f.version && FromLe32(Le32(f.cid)) == f.cid && FromLe32(Le32(f.sid)) == f.sid
  {
    Le32RoundTrip(HEADER + |f.payload|);
    Le32RoundTrip(f.version);
    Le32RoundTrip(f.cid);
    Le32RoundTrip(f.sid);
  }
}
