/** RIPCClientChannel::onRecvData when no service processor is set. */
module ClientAlone {
  import opened Wire
  import opened ClientDecoder

  /** None of the frames served before a close is meant for the processor. */
  predicate NoneForProcessor(c: Client, frames: seq<Frame>)
    decreases |frames|
  {
    frames == [] || c.closed || (!ForProcessor(frames[0]) && NoneForProcessor(OnFrame(c, frames[0]), frames[1..]))
  }

  /** How many frames the processor has been handed. */
  function Handed(log: seq<Effect>): nat {
    if log == [] then 0 else Handed(log[..|log| - 1]) + if log[|log| - 1].Pushed? || log[|log| - 1].Asked? then 1 else 0
  }

  lemma HandedOne(log: seq<Effect>, e: Effect)
    ensures Handed(log + [e]) == Handed(log) + if e.Pushed? || e.Asked? then 1 else 0
  {
    assert (log + [e])[..|log|] == log;
  }

  // ---------------------------------------------------------------- nothing for the processor

  lemma TurnsEqual(c: Client)
    requires |c.data| > HEADER && c.pos == 0 && (Look(c.data).Whole? ==> !ForProcessor(Look(c.data).frame))
    ensures OneTurn(c, false) == OneTurn(c, true)
  {
    TurnLooks(c, false);
    TurnLooks(c, true);
  }

  lemma {:induction false} DrainsEqual(c: Client)
    requires c.pos == 0 && !c.closed && NoneForProcessor(c, Parse(c.data).frames)
    ensures Drain(c, false) == Drain(c, true)
    decreases |c.data|
  {
    if |c.data| > HEADER {
      if Look(c.data).Whole? {
        var f, n := Look(c.data).frame, Look(c.data).length;
        var p := Parse(c.data[n..]);
        assert ([f] + p.frames)[1..] == p.frames;
        TurnsEqual(c);
        TurnLooks(c, true);
        DispatchIsOnFrame(c, f, n);
        var d := OnFrame(c, f);
        if !d.closed {
          NoneIgnoresData(d, c.data[n..], p.frames);
          DrainsEqual(d.(data := c.data[n..]));
        }
      } else {
        TurnsEqual(c);
        TurnLooks(c, true);
      }
    }
  }

  lemma {:induction false} NoneIgnoresData(c: Client, data: seq<Byte>, frames: seq<Frame>)
    ensures NoneForProcessor(c.(data := data), frames) == NoneForProcessor(c, frames)
    decreases |frames|
  {
    if frames != [] && !c.closed && !ForProcessor(frames[0]) {
      var d := OnFrame(c, frames[0]);
      if !d.closed {
        assert OnFrame(c.(data := data), frames[0]) == d.(data := data);
        NoneIgnoresData(d, data, frames[1..]);
      }
    }
  }

  lemma {:induction false} NoneConcat(c: Client, a: seq<Frame>, b: seq<Frame>)
    ensures NoneForProcessor(c, a + b) <==> NoneForProcessor(c, a) && NoneForProcessor(Serve(c, a), b)
    decreases |a|
  {
    if a == [] {
      assert a + b == b;
    } else if !c.closed {
      assert (a + b)[1..] == a[1..] + b;
      NoneConcat(OnFrame(c, a[0]), a[1..], b);
    }
  }

  /** The first chunk and the rest of the stream, in terms of the frames of the whole. */
  lemma NoneSplits(c: Client, a: seq<Byte>, b: seq<Byte>)
    requires c.pos == 0 && !c.closed && NoneForProcessor(c, Parse(c.data + (a + b)).frames)
    ensures NoneForProcessor(c, Parse(c.data + a).frames)
    ensures var d := Receive(c, a, true);
            d.closed || (d.pos == 0 && Look(d.data).Wait? && NoneForProcessor(d, Parse(d.data + b).frames))
  {
    var all, first := c.data + a + b, c.(data := c.data + a);
    assert c.data + (a + b) == all;
    var p := Parse(first.data);
    ParseConcat(first.data, b);
    DrainIsReference(first);
    if p.bad {
    } else {
      var q := Parse(p.rest + b);
      NoneConcat(c, p.frames, q.frames);
      ServeIgnoresData(c, first.data, p.frames);
      ServeKeepsPos(c, p.frames);
      var e := Serve(c, p.frames);
      if !e.closed {
        RestWaits(first.data);
        NoneIgnoresData(e, p.rest, q.frames);
      }
    }
  }

  lemma {:induction false} ReceivesEqual(c: Client, chunks: seq<seq<Byte>>)
    requires c.pos == 0 && !c.closed && Look(c.data).Wait?
    requires NoneForProcessor(c, Parse(c.data + Flatten(chunks)).frames)
    ensures ReceiveAll(c, chunks, false) == ReceiveAll(c, chunks, true)
    decreases |chunks|
  {
    if chunks != [] {
      NoneSplits(c, chunks[0], Flatten(chunks[1..]));
      var first := c.(data := c.data + chunks[0]);
      NoneIgnoresData(c, first.data, Parse(first.data).frames);
      DrainsEqual(first);
      var d := Receive(c, chunks[0], true);
      if !d.closed { ReceivesEqual(d, chunks[1..]); }
    }
  }

  // ---------------------------------------------------------------- something for the processor

  lemma TurnHands(c: Client)
    requires |c.data| > HEADER && c.pos <= |c.data|
    ensures Handed(OneTurn(c, false).next.log) == Handed(c.log) && c.log <= OneTurn(c, false).next.log
  {
    var log := OneTurn(c, false).next.log;
    if log != c.log {
      assert log == c.log + [log[|c.log|]] && log[|c.log|].Answered?;
      HandedOne(c.log, log[|c.log|]);
    }
  }

  lemma {:induction false} DrainHands(c: Client)
    requires c.pos <= |c.data|
    ensures Handed(Drain(c, false).log) == Handed(c.log) && c.log <= Drain(c, false).log
    decreases |c.data|, |c.data| - c.pos
  {
    if |c.data| > HEADER {
      TurnHands(c);
      var t := OneTurn(c, false);
      if t.again { DrainHands(t.next); }
    }
  }

  lemma {:induction false} ReceivesHand(c: Client, chunks: seq<seq<Byte>>)
    requires c.pos <= |c.data|
    ensures Handed(ReceiveAll(c, chunks, false).log) == Handed(c.log)
    decreases |chunks|
  {
    if chunks != [] && !c.closed {
      DrainHands(c.(data := c.data + chunks[0]));
      ReceivesHand(Receive(c, chunks[0], false), chunks[1..]);
    }
  }

  lemma {:induction false} ServeHands(c: Client, frames: seq<Frame>)
    ensures Handed(Serve(c, frames).log) >= Handed(c.log)
    ensures !NoneForProcessor(c, frames) ==> Handed(Serve(c, frames).log) > Handed(c.log)
    decreases |frames|
  {
    if frames != [] && !c.closed {
      var d := OnFrame(c, frames[0]);
      if ForProcessor(frames[0]) || Known(c, frames[0].cid) { HandedOne(c.log, EffectOf(c, frames[0])); }
      ServeHands(d, frames[1..]);
    }
  }

  /**
   A client without a processor fares like one with a processor, on any cutting of any stream,
   exactly if no frame served before a close is meant for the processor.
   */
  lemma AloneIff(c: Client, chunks: seq<seq<Byte>>)
    requires c.pos == 0 && !c.closed && Look(c.data).Wait?
    ensures ReceiveAll(c, chunks, false) == ReceiveAll(c, chunks, true)
            <==> NoneForProcessor(c, Parse(c.data + Flatten(chunks)).frames)
  {
    var now := c.(data := c.data + Flatten(chunks));
    var frames := Parse(now.data).frames;
    if NoneForProcessor(c, frames) {
      ReceivesEqual(c, chunks);
    } else {
      ReceivesHand(c, chunks);
      ClientChunkIndependence(c, chunks);
      DrainIsReference(now);
      NoneIgnoresData(c, now.data, frames);
      ServeHands(now, frames);
    }
  }

  // ---------------------------------------------------------------- a push and a reply

  lemma PastTheEnd(c: Client)
    requires |c.data| > HEADER && c.pos == |c.data|
    ensures Drain(c, false) == Closed(c)
  {
    assert OneTurn(c, false) == Turn(Closed(c), false);
  }

  /** The first turn reads a frame for the processor and leaves it where it is. */
  lemma Unconsumed(c: Client, push: Frame, tail: seq<Byte>)
    requires Sendable(push) && push.payload != [] && ForProcessor(push) && c.data == Encode(push) + tail && c.pos == 0
    ensures OneTurn(c, false) == Turn(c.(pos := |Encode(push)|, serverSeq := (c.serverSeq + 1) % U32), true)
  {
    LookEncode(push, tail);
    TurnLooks(c, false);
  }

  lemma HeaderOf(s: seq<Byte>, f: Frame)
    requires Sendable(f) && s == Encode(f)
    ensures s[..HEADER][..4] == MAGIC && FromLe32(s[..HEADER][4..8]) == |s|
    ensures Incoming(s[..HEADER], s[HEADER..]) == f
  {
    EncodeParts(f, []);
    assert s + [] == s;
    var head := s[..HEADER];
    assert head[..4] == s[..4] && head[4..8] == s[4..8] && head[8..12] == s[8..12];
    assert head[12..16] == s[12..16] && head[16..20] == s[16..20];
    Le32RoundTrip(HEADER + |f.payload|);
    Le32RoundTrip(f.version);
    Le32RoundTrip(f.cid);
    Le32RoundTrip(f.sid);
  }

  /** A reply behind it is read, and its length is cut off the front of the buffer. */
  lemma ReplyBehind(c: Client, before: seq<Byte>, s: seq<Byte>, reply: Frame)
    requires Sendable(reply) && s == Encode(reply) && !ForProcessor(reply) && Known(c, reply.cid)
    requires c.data == before + s && c.pos == |before| > 0
    ensures OneTurn(c, false).again
    ensures OneTurn(c, false).next.log == c.log + [EffectOf(c, reply)]
    ensures OneTurn(c, false).next.data == c.data[|s|..]
  {
    HeaderOf(s, reply);
    assert c.data[c.pos..c.pos + HEADER] == s[..HEADER];
    assert c.data[c.pos + HEADER..c.pos + |s|] == s[HEADER..];
  }

  lemma OneChunk(c: Client, chunk: seq<Byte>)
    requires c.pos <= |c.data| && !c.closed
    ensures ReceiveAll(c, [chunk], false) == Receive(c, chunk, false)
  {
    var chunks := [chunk];
    assert chunks[1..] == [];
  }

  lemma PushCloses(c: Client, push: Frame)
    requires c.pos == 0 && c.data == [] && Sendable(push) && push.payload != [] && ForProcessor(push)
    ensures Receive(c, Encode(push), false) == Closed(c)
  {
    var first := c.(data := c.data + Encode(push));
    assert first.data == Encode(push) == Encode(push) + [];
    Unconsumed(first, push, []);
    PastTheEnd(OneTurn(first, false).next);
  }

  lemma DrainGoesOn(c: Client, next: Client)
    requires |c.data| > HEADER && c.pos <= |c.data| && OneTurn(c, false) == Turn(next, true)
    ensures next.pos <= |next.data| && Drain(c, false) == Drain(next, false)
  {
  }

  /** Behind an unconsumed frame, the reply is answered. */
  lemma DrainAnswers(c: Client, before: seq<Byte>, s: seq<Byte>, reply: Frame)
    requires Sendable(reply) && s == Encode(reply) && !ForProcessor(reply) && Known(c, reply.cid)
    requires c.data == before + s && c.pos == |before| > 0
    ensures c.log + [EffectOf(c, reply)] <= Drain(c, false).log
  {
    ReplyBehind(c, before, s, reply);
    var t := OneTurn(c, false);
    DrainGoesOn(c, t.next);
    DrainHands(t.next);
  }

  lemma ReplyAnswered(c: Client, push: Frame, reply: Frame)
    requires c.pos == 0 && c.data == [] && Sendable(push) && push.payload != [] && ForProcessor(push)
    requires Sendable(reply) && !ForProcessor(reply) && Known(c, reply.cid)
    ensures c.log + [EffectOf(c, reply)] <= Receive(c, Encode(push) + Encode(reply), false).log
  {
    var a, b := Encode(push), Encode(reply);
    var d := c.(data := c.data + (a + b));
    assert d.data == a + b;
    Unconsumed(d, push, b);
    var e := d.(pos := |a|, serverSeq := (d.serverSeq + 1) % U32);
    DrainGoesOn(d, e);
    DrainAnswers(e, a, b, reply);
  }

  /**
   Chunk independence fails without a processor.  A push and the reply behind it in one chunk: the
   reply is answered, and its length is cut off the push.  In two chunks: the push closes the
   channel, and the reply is never looked at.
   */
  lemma PushThenReply(c: Client, push: Frame, reply: Frame)
    requires c.pos == 0 && c.data == [] && !c.closed
    requires Sendable(push) && push.payload != [] && ForProcessor(push)
    requires Sendable(reply) && !ForProcessor(reply) && Known(c, reply.cid)
    ensures var once := ReceiveAll(c, [Encode(push) + Encode(reply)], false);
            c.log + [EffectOf(c, reply)] <= once.log
    ensures var twice := ReceiveAll(c, [Encode(push), Encode(reply)], false);
            twice.closed && twice.log == c.log
  {
    OneChunk(c, Encode(push) + Encode(reply));
    ReplyAnswered(c, push, reply);
    PushCloses(c, push);
    var chunks := [Encode(push), Encode(reply)];
    assert chunks[0] == Encode(push);
  }

  /** A lone frame for the processor is consumed exactly if one is set; otherwise the client closes. */
  lemma LonePushConsumedIff(c: Client, f: Frame, processor: bool)
    requires c.pos == 0 && c.data == [] && !c.closed
    requires Sendable(f) && f.payload != [] && ForProcessor(f)
    ensures var r := Receive(c, Encode(f), processor);
            && (!r.closed <==> processor)
            && r.data == []
            && r.log == (if processor then c.log + [EffectOf(c, f)] else c.log)
  {
    var d := c.(data := c.data + Encode(f));
    assert d.data == Encode(f) == Encode(f) + [];
    if processor {
      DrainIsReference(d);
      RoundTripOne(f);
      ServeFirst(d, f, []);
      assert [f] + [] == [f];
    } else {
      PushCloses(c, f);
    }
  }
}
