/** What RIPCServerConnectionPrivate::process computes, as functions on values, compared with the other decoders. */
module ServerDecoder {
  import opened Wire
  import ClientDecoder

  const LIMIT: nat := 0x200_0000  // 32 MB
  const BYE: seq<Byte> := [68, 73, 83, 67, 79, 78, 78, 69, 84, 95, 82, 69, 81, 85, 69, 83, 84, 49, 49, 48]

  datatype Call =
    | Buffered(payload: seq<Byte>, cid: u32)   // receivedBuffer, the answer to a request of the server
    | Processed(payload: seq<Byte>, cid: u32)  // a request handed to the processor

  /** `finished` counts how often connectionFinished was emitted. */
  datatype Server = Server(buffer: seq<Byte>, finished: nat, log: seq<Call>)

  function CallOf(f: Frame): Call {
    if f.version == CLIENT_MODE then Buffered(f.payload, f.cid) else Processed(f.payload, f.cid)
  }

  predicate IsBye(f: Frame) {
    f.cid == 0 && f.payload == BYE
  }

  function Finish(s: Server): Server {
    s.(finished := s.finished + 1)
  }

  // ---------------------------------------------------------------- the loop on bytes

  datatype Turn = Turn(next: Server, again: bool)

  function OnFrame(s: Server, f: Frame, length: nat): Turn
    requires length <= |s.buffer|
  {
    if IsBye(f) then Turn(Finish(s), false)
    else Turn(s.(buffer := s.buffer[length..], log := s.log + [CallOf(f)]), true)
  }

  function OneTurn(s: Server): (t: Turn)
    requires |s.buffer| > HEADER
    ensures t.again ==> |t.next.buffer| < |s.buffer|
  {
    var head := s.buffer[..HEADER];
    var length := FromLe32(head[4..8]);
    if head[..4] != MAGIC then Turn(Finish(s), false)
    else if length < HEADER then Turn(Finish(s), false)
    else if |s.buffer| < length then Turn(s, false)
    else OnFrame(s, ClientDecoder.Incoming(head, s.buffer[HEADER..length]), length)
  }

  function Drain(s: Server): Server
    decreases |s.buffer|
  {
    if |s.buffer| <= HEADER then s
    else
      var t := OneTurn(s);
      if t.again then Drain(t.next) else t.next
  }

  function Process(s: Server): Server {
    if |s.buffer| > LIMIT then Finish(s) else Drain(s)
  }

  function Receive(s: Server, chunk: seq<Byte>): Server {
    Process(s.(buffer := s.buffer + chunk))
  }

  /** A connection that has finished is torn down and receives nothing more. */
  function ReceiveAll(s: Server, chunks: seq<seq<Byte>>): Server
    decreases |chunks|
  {
    if chunks == [] || s.finished > 0 then s else ReceiveAll(Receive(s, chunks[0]), chunks[1..])
  }

  /** No chunk makes the buffer exceed the guard. */
  predicate WithinGuard(s: Server, chunks: seq<seq<Byte>>)
    decreases |chunks|
  {
    chunks == [] || s.finished > 0
    || (|s.buffer| + |chunks[0]| <= LIMIT && WithinGuard(Receive(s, chunks[0]), chunks[1..]))
  }

  // ---------------------------------------------------------------- the same on frames

  function Calls(frames: seq<Frame>): seq<Call> {
    seq(|frames|, i requires 0 <= i < |frames| => CallOf(frames[i]))
  }

  function BeforeBye(frames: seq<Frame>): (r: seq<Frame>)
    ensures r <= frames
  {
    if frames == [] || IsBye(frames[0]) then [] else [frames[0]] + BeforeBye(frames[1..])
  }

  lemma {:induction false} BeforeByeMeans(frames: seq<Frame>)
    ensures forall f <- BeforeBye(frames) :: !IsBye(f)
    ensures BeforeBye(frames) != frames ==> IsBye(frames[|BeforeBye(frames)|])
  {
    if frames != [] && !IsBye(frames[0]) {
      BeforeByeMeans(frames[1..]);
      assert frames == [frames[0]] + frames[1..];
    }
  }

  lemma BeforeByeFirst(f: Frame, frames: seq<Frame>)
    requires !IsBye(f)
    ensures BeforeBye([f] + frames) == [f] + BeforeBye(frames)
    ensures BeforeBye([f] + frames) == [f] + frames <==> BeforeBye(frames) == frames
  {
    assert ([f] + frames)[1..] == frames;
    assert ([f] + BeforeBye(frames))[1..] == BeforeBye(frames);
  }

  lemma {:induction false} BeforeByeConcat(a: seq<Frame>, b: seq<Frame>)
    ensures BeforeBye(a + b) == if BeforeBye(a) == a then a + BeforeBye(b) else BeforeBye(a)
  {
    if a == [] {
      assert a + b == b;
    } else if !IsBye(a[0]) {
      var f, rest := a[0], a[1..];
      assert a == [f] + rest && a + b == [f] + (rest + b);
      BeforeByeConcat(rest, b);
      BeforeByeFirst(f, rest);
      BeforeByeFirst(f, rest + b);
      assert [f] + (rest + BeforeBye(b)) == ([f] + rest) + BeforeBye(b);
    }
  }

  lemma CallsConcat(a: seq<Frame>, b: seq<Frame>)
    ensures Calls(a + b) == Calls(a) + Calls(b)
  {
  }

  lemma TurnLooks(s: Server)
    requires |s.buffer| > HEADER
    ensures Look(s.buffer).Wait? ==> OneTurn(s) == Turn(s, false)
    ensures Look(s.buffer).Bad? ==> OneTurn(s) == Turn(Finish(s), false)
    ensures Look(s.buffer).Whole? ==> OneTurn(s) == OnFrame(s, Look(s.buffer).frame, Look(s.buffer).length)
  {
    var b := s.buffer;
    var head := b[..HEADER];
    assert head[..4] == b[..4] && head[4..8] == b[4..8] && head[8..12] == b[8..12];
    assert head[12..16] == b[12..16] && head[16..20] == b[16..20];
  }

  /** What the server makes of decoded frames and what is left of the bytes. */
  predicate Decodes(s: Server, p: Parsed, r: Server) {
    var served := BeforeBye(p.frames);
    && r.log == s.log + Calls(served)
    && (r.finished == s.finished || r.finished == s.finished + 1)
    && (r.finished == s.finished <==> served == p.frames && !p.bad)
    && (r.finished == s.finished ==> r.buffer == p.rest)
  }

  lemma CallsFirst(f: Frame, frames: seq<Frame>)
    ensures Calls([f] + frames) == [CallOf(f)] + Calls(frames)
  {
    CallsConcat([f], frames);
    assert Calls([f]) == [CallOf(f)];
  }

  lemma DecodesFirst(s: Server, f: Frame, p: Parsed, r: Server, b: seq<Byte>)
    requires !IsBye(f) && Decodes(s.(buffer := b, log := s.log + [CallOf(f)]), p, r)
    ensures Decodes(s, Parsed([f] + p.frames, p.rest, p.bad), r)
  {
    BeforeByeFirst(f, p.frames);
    CallsFirst(f, BeforeBye(p.frames));
  }

  /** The loop is the reference decoder, cut short by a goodbye. */
  lemma {:induction false} DrainDecodes(s: Server)
    ensures Decodes(s, Parse(s.buffer), Drain(s))
    decreases |s.buffer|
  {
    if |s.buffer| > HEADER {
      TurnLooks(s);
      var t := OneTurn(s);
      assert Drain(s) == if t.again then Drain(t.next) else t.next;
      if Look(s.buffer).Whole? {
        var f, n := Look(s.buffer).frame, Look(s.buffer).length;
        var p := Parse(s.buffer[n..]);
        if IsBye(f) {
          assert BeforeBye([f] + p.frames) == [];
        } else {
          DrainDecodes(t.next);
          DecodesFirst(s, f, p, Drain(t.next), s.buffer[n..]);
        }
      }
    }
  }

  lemma ServedConcat(a: seq<Frame>, b: seq<Frame>)
    requires BeforeBye(a) == a
    ensures BeforeBye(a + b) == a + BeforeBye(b)
    ensures BeforeBye(a + b) == a + b <==> BeforeBye(b) == b
  {
    BeforeByeConcat(a, b);
    assert |BeforeBye(b)| == |b| ==> BeforeBye(b) == b;
  }

  lemma LogConcat(log: seq<Call>, a: seq<Frame>, b: seq<Frame>)
    ensures log + Calls(a) + Calls(b) == log + Calls(a + b)
  {
    CallsConcat(a, b);
  }

  lemma DecodesTwice(s: Server, p: Parsed, m: Server, q: Parsed, r: Server)
    requires Decodes(s, p, m) && m.finished == s.finished && Decodes(m, q, r)
    ensures Decodes(s, Parsed(p.frames + q.frames, q.rest, q.bad), r)
  {
    ServedConcat(p.frames, q.frames);
    LogConcat(s.log, p.frames, BeforeBye(q.frames));
  }

  lemma DecodesCut(s: Server, p: Parsed, m: Server, more: Parsed)
    requires Decodes(s, p, m) && m.finished != s.finished
    requires p.frames <= more.frames && (p.bad ==> more == Parsed(p.frames, more.rest, true))
    ensures Decodes(s, more, m)
  {
    if !p.bad {
      BeforeByeConcat(p.frames, more.frames[|p.frames|..]);
      assert more.frames == p.frames + more.frames[|p.frames|..];
    }
  }

  /**
   Chunk independence: as long as the buffer stays within its guard, every way of cutting the
   bytes makes the server handle the frames of the whole stream, in order, up to a goodbye; it
   finishes exactly if there is one or the stream is malformed, and otherwise keeps the same rest.
   */
  lemma {:induction false} ServerChunkIndependence(s: Server, chunks: seq<seq<Byte>>)
    requires s.finished == 0 && Look(s.buffer).Wait? && WithinGuard(s, chunks)
    ensures Decodes(s, Parse(s.buffer + Flatten(chunks)), ReceiveAll(s, chunks))
    decreases |chunks|
  {
    if chunks == [] {
      assert s.buffer + [] == s.buffer;
    } else {
      var a, b := s.buffer + chunks[0], Flatten(chunks[1..]);
      assert s.buffer + Flatten(chunks) == a + b;
      var p := Parse(a);
      var m := Receive(s, chunks[0]);
      DrainDecodes(s.(buffer := a));
      assert Decodes(s, p, m);
      ParseConcat(a, b);
      if m.finished > 0 {
        DecodesCut(s, p, m, Parse(a + b));
      } else {
        RestWaits(a);
        ServerChunkIndependence(m, chunks[1..]);
        DecodesTwice(s, p, m, Parse(p.rest + b), ReceiveAll(m, chunks[1..]));
      }
    }
  }

  // ---------------------------------------------------------------- the size guard

  lemma {:induction false} DrainShrinks(s: Server)
    ensures |Drain(s).buffer| <= |s.buffer|
    decreases |s.buffer|
  {
    if |s.buffer| > HEADER && OneTurn(s).again {
      DrainShrinks(OneTurn(s).next);
    }
  }

  lemma {:induction false} SmallStreamsFit(s: Server, chunks: seq<seq<Byte>>)
    requires |s.buffer| + |Flatten(chunks)| <= LIMIT
    ensures WithinGuard(s, chunks)
    decreases |chunks|
  {
    if chunks != [] && s.finished == 0 {
      DrainShrinks(s.(buffer := s.buffer + chunks[0]));
      SmallStreamsFit(Receive(s, chunks[0]), chunks[1..]);
    }
  }

  lemma PartWaits(f: Frame, part: seq<Byte>, missing: seq<Byte>)
    requires Sendable(f) && part + missing == Encode(f) && missing != []
    ensures Look(part).Wait?
  {
    if |part| > HEADER {
      EncodeParts(f, []);
      Le32RoundTrip(HEADER + |f.payload|);
      assert Encode(f) + [] == part + missing;
      assert part[..4] == (part + missing)[..4] && part[4..8] == (part + missing)[4..8];
    }
  }

  lemma {:induction false} TooLongFinishes(s: Server, f: Frame, chunks: seq<seq<Byte>>)
    requires Sendable(f) && |Encode(f)| > LIMIT && |s.buffer| <= LIMIT && s.buffer + Flatten(chunks) == Encode(f)
    ensures ReceiveAll(s, chunks).finished > 0
    decreases |chunks|
  {
    if chunks != [] && s.finished == 0 {
      var next := s.(buffer := s.buffer + chunks[0]);
      assert s.buffer + Flatten(chunks) == next.buffer + Flatten(chunks[1..]);
      if |next.buffer| <= LIMIT {
        PartWaits(f, next.buffer, Flatten(chunks[1..]));
        if |next.buffer| > HEADER { TurnLooks(next); }
        TooLongFinishes(next, f, chunks[1..]);
      } else {
        var m := Receive(s, chunks[0]);
        assert m.finished > 0 && ReceiveAll(m, chunks[1..]) == m;
      }
    }
  }

  /** However it is cut, a frame on a fresh connection is served exactly if it is within the guard. */
  lemma FrameServedIff(f: Frame, chunks: seq<seq<Byte>>)
    requires Sendable(f) && f.payload != [] && !IsBye(f) && Flatten(chunks) == Encode(f)
    ensures var r := ReceiveAll(Server([], 0, []), chunks);
            r == Server([], 0, [CallOf(f)]) <==> |Encode(f)| <= LIMIT
  {
    var s := Server([], 0, []);
    assert [] + Flatten(chunks) == Flatten(chunks);
    if |Encode(f)| <= LIMIT {
      SmallStreamsFit(s, chunks);
      ServerChunkIndependence(s, chunks);
      RoundTripOne(f);
      BeforeByeFirst(f, []);
      CallsFirst(f, []);
      assert [f] + [] == [f] && [] + [CallOf(f)] == [CallOf(f)] && Calls([]) == [];
    } else {
      TooLongFinishes(s, f, chunks);
    }
  }

  /** No chunk makes what is left of the stream before it exceed the guard; a condition on bytes alone. */
  predicate Guarded(rest: seq<Byte>, chunks: seq<seq<Byte>>)
    decreases |chunks|
  {
    chunks == [] || (|rest| + |chunks[0]| <= LIMIT && Guarded(Parse(rest + chunks[0]).rest, chunks[1..]))
  }

  /** Well-formed bytes without a goodbye. */
  predicate Plain(p: Parsed) {
    !p.bad && BeforeBye(p.frames) == p.frames
  }

  lemma PlainSplits(a: seq<Byte>, b: seq<Byte>)
    requires Plain(Parse(a + b))
    ensures Plain(Parse(a)) && Plain(Parse(Parse(a).rest + b))
  {
    ParseConcat(a, b);
    var p := Parse(a);
    assert !p.bad;
    BeforeByeConcat(p.frames, Parse(p.rest + b).frames);
    if BeforeBye(p.frames) == p.frames { ServedConcat(p.frames, Parse(p.rest + b).frames); }
  }

  lemma {:induction false} GuardIff(s: Server, chunks: seq<seq<Byte>>)
    requires s.finished == 0 && Look(s.buffer).Wait? && Plain(Parse(s.buffer + Flatten(chunks)))
    ensures WithinGuard(s, chunks) <==> Guarded(s.buffer, chunks)
    ensures ReceiveAll(s, chunks).finished == 0 ==> Guarded(s.buffer, chunks)
    decreases |chunks|
  {
    if chunks != [] {
      var a, b := s.buffer + chunks[0], Flatten(chunks[1..]);
      assert s.buffer + Flatten(chunks) == a + b;
      PlainSplits(a, b);
      DrainDecodes(s.(buffer := a));
      RestWaits(a);
      if |a| <= LIMIT {
        GuardIff(Receive(s, chunks[0]), chunks[1..]);
      } else {
        var m := Receive(s, chunks[0]);
        assert m.finished > 0 && ReceiveAll(m, chunks[1..]) == m;
      }
    }
  }

  /**
   A well-formed stream without a goodbye is served, frame by frame and to the last, exactly if no
   chunk of it exceeds the guard together with what is left of the chunks before.
   */
  lemma StreamServedIff(s: Server, chunks: seq<seq<Byte>>)
    requires s.finished == 0 && Look(s.buffer).Wait? && Plain(Parse(s.buffer + Flatten(chunks)))
    ensures var p := Parse(s.buffer + Flatten(chunks));
            && (Guarded(s.buffer, chunks) <==> ReceiveAll(s, chunks).finished == 0)
            && (Guarded(s.buffer, chunks) <==> ReceiveAll(s, chunks) == Server(p.rest, 0, s.log + Calls(p.frames)))
  {
    GuardIff(s, chunks);
    if Guarded(s.buffer, chunks) { ServerChunkIndependence(s, chunks); }
  }

  lemma OneChunk(s: Server, chunk: seq<Byte>)
    requires s.finished == 0
    ensures ReceiveAll(s, [chunk]) == Receive(s, chunk)
  {
    var chunks := [chunk];
    assert chunks[1..] == [];
  }

  lemma TwoFit(a: seq<Byte>, b: seq<Byte>)
    requires |a| <= LIMIT && |b| <= LIMIT && Parse(a).rest == []
    ensures Guarded([], [a, b]) && Flatten([a, b]) == a + b
  {
    var one, two := [b], [a, b];
    assert two[1..] == one && one[1..] == [];
    assert [] + a == a && [] + b == b;
    assert Flatten(one) == b + [] == b;
    assert Guarded([], one);
  }

  lemma TwoFrames(f: Frame, g: Frame)
    requires Sendable(f) && Sendable(g) && f.payload != [] && g.payload != []
    ensures Parse(Encode(f) + Encode(g)) == Parsed([f, g], [], false)
  {
    ParseFirst(f, Encode(g));
    RoundTripOne(g);
    assert [f] + [g] == [f, g];
  }

  lemma BothServed(f: Frame, g: Frame)
    requires Sendable(f) && Sendable(g) && f.payload != [] && g.payload != [] && !IsBye(f) && !IsBye(g)
    requires |Encode(f)| <= LIMIT && |Encode(g)| <= LIMIT
    ensures ReceiveAll(Server([], 0, []), [Encode(f), Encode(g)]) == Server([], 0, [CallOf(f), CallOf(g)])
  {
    TwoFrames(f, g);
    RoundTripOne(f);
    TwoFit(Encode(f), Encode(g));
    PlainPair(f, g);
    assert [] + (Encode(f) + Encode(g)) == Encode(f) + Encode(g);
    StreamServedIff(Server([], 0, []), [Encode(f), Encode(g)]);
  }

  lemma PlainPair(f: Frame, g: Frame)
    requires !IsBye(f) && !IsBye(g)
    ensures BeforeBye([f, g]) == [f, g]
    ensures [] + Calls([f, g]) == [CallOf(f), CallOf(g)]
  {
    BeforeByeFirst(f, [g]);
    BeforeByeFirst(g, []);
    assert [f] + [g] == [f, g] && [g] + [] == [g];
  }

  /** Two frames that fit one by one but not together are served in two chunks and finish in one. */
  lemma TogetherTooLong(f: Frame, g: Frame)
    requires Sendable(f) && Sendable(g) && f.payload != [] && g.payload != [] && !IsBye(f) && !IsBye(g)
    requires |Encode(f)| <= LIMIT && |Encode(g)| <= LIMIT < |Encode(f)| + |Encode(g)|
    ensures ReceiveAll(Server([], 0, []), [Encode(f) + Encode(g)]) == Server(Encode(f) + Encode(g), 1, [])
    ensures ReceiveAll(Server([], 0, []), [Encode(f), Encode(g)]) == Server([], 0, [CallOf(f), CallOf(g)])
  {
    var a, b := Encode(f), Encode(g);
    OneChunk(Server([], 0, []), a + b);
    assert [] + (a + b) == a + b;
    BothServed(f, g);
  }

  /** Two frames of 20 MB. */
  lemma TwentyMegabytes()
    ensures exists f, g :: Sendable(f) && Sendable(g)
              && ReceiveAll(Server([], 0, []), [Encode(f) + Encode(g)]).finished == 1
              && ReceiveAll(Server([], 0, []), [Encode(f), Encode(g)]) == Server([], 0, [CallOf(f), CallOf(g)])
  {
    var f := Frame(0, 1, 0, seq(0x140_0000, _ => 0));
    TogetherTooLong(f, f);
  }

  /**
   The two decoders agree: fed the same well-formed bytes, cut in any two ways, both handle the
   frames of the stream, one effect and one call for each, and keep the same undecoded rest.
   */
  lemma DecodersAgree(c: ClientDecoder.Client, cs: seq<seq<Byte>>, s: Server, ss: seq<seq<Byte>>)
    requires c.pos == 0 && !c.closed && s.finished == 0 && c.data == s.buffer && Look(s.buffer).Wait?
    requires Flatten(cs) == Flatten(ss) && WithinGuard(s, ss)
    requires var p := Parse(s.buffer + Flatten(ss));
             !p.bad && ClientDecoder.Answerable(c, p.frames) && BeforeBye(p.frames) == p.frames
    ensures var p := Parse(s.buffer + Flatten(ss));
            var c' := ClientDecoder.ReceiveAll(c, cs, true);
            var s' := ReceiveAll(s, ss);
            && !c'.closed && s'.finished == 0
            && c'.log == c.log + ClientDecoder.Effects(c, p.frames)
            && s'.log == s.log + Calls(p.frames)
            && c'.data == s'.buffer == p.rest
  {
    ServerChunkIndependence(s, ss);
    ClientDecoder.ClientChunkIndependence(c, cs);
    var now := c.(data := c.data + Flatten(cs));
    ClientDecoder.DrainIsReference(now);
    ClientDecoder.ServeAnswers(now, Parse(now.data).frames);
    assert ClientDecoder.Effects(now, Parse(now.data).frames) == ClientDecoder.Effects(c, Parse(now.data).frames);
  }

  /** The goodbye of the client, as text. */
  const BYE_TEXT: string := "DISCONNET_REQUEST110"

  predicate SaysBye(payload: seq<Byte>) {
    |payload| == |BYE_TEXT| && forall i :: 0 <= i < |payload| ==> payload[i] == BYE_TEXT[i] as int
  }

  lemma ByeIff(f: Frame)
    ensures IsBye(f) <==> f.cid == 0 && SaysBye(f.payload)
  {
    assert SaysBye(BYE);
    if SaysBye(f.payload) {
      assert forall i :: 0 <= i < |f.payload| ==> f.payload[i] == BYE[i];
      assert f.payload == BYE;
    }
  }

  /** A well-formed stream within the guard ends the connection exactly if some message without id says goodbye. */
  lemma GoodbyeEndsIff(s: Server, chunks: seq<seq<Byte>>)
    requires s.finished == 0 && Look(s.buffer).Wait? && WithinGuard(s, chunks)
    requires !Parse(s.buffer + Flatten(chunks)).bad
    ensures ReceiveAll(s, chunks).finished > 0
            <==> exists f <- Parse(s.buffer + Flatten(chunks)).frames :: f.cid == 0 && SaysBye(f.payload)
  {
    var frames := Parse(s.buffer + Flatten(chunks)).frames;
    ServerChunkIndependence(s, chunks);
    BeforeByeMeans(frames);
    forall f | f in frames ensures IsBye(f) <==> f.cid == 0 && SaysBye(f.payload) { ByeIff(f); }
    if BeforeBye(frames) != frames {
      assert frames[|BeforeBye(frames)|] in frames;
    }
  }
}
