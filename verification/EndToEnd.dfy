/** From the sender's frames over the link to what either receiver makes of them. */
module EndToEnd {
  import opened Wire
  import Link
  import ClientDecoder
  import ServerDecoder

  lemma Arrived(actions: seq<Link.Action>)
    requires Link.Runs(Link.Init(), actions)
    ensures var n := Link.Exec(Link.Init(), actions);
            Parse(n.received) == Parsed(n.delivered, n.rest, false) && n.delivered <= n.submitted
  {
    Link.InitInv();
    Link.RunKeepsInv(Link.Init(), actions);
    Link.StreamSafety(actions);
  }

  lemma AnswerablePrefix(c: ClientDecoder.Client, frames: seq<Frame>, all: seq<Frame>)
    requires frames <= all && ClientDecoder.Answerable(c, all)
    ensures ClientDecoder.Answerable(c, frames)
  {
  }

  lemma ReferenceServes(c: ClientDecoder.Client, frames: seq<Frame>, rest: seq<Byte>)
    requires !c.closed && Parse(c.data) == Parsed(frames, rest, false) && ClientDecoder.Answerable(c, frames)
    ensures var r := ClientDecoder.Reference(c);
            !r.closed && r.data == rest && r.log == c.log + ClientDecoder.Effects(c, frames)
  {
    ClientDecoder.ServeAnswers(c, frames);
  }

  lemma EffectsIgnoreData(c: ClientDecoder.Client, data: seq<Byte>, frames: seq<Frame>)
    requires ClientDecoder.Answerable(c, frames)
    ensures ClientDecoder.Answerable(c.(data := data), frames)
    ensures ClientDecoder.Effects(c.(data := data), frames) == ClientDecoder.Effects(c, frames)
  {
  }

  lemma ClientServes(c: ClientDecoder.Client, chunks: seq<seq<Byte>>, frames: seq<Frame>, rest: seq<Byte>)
    requires c.data == [] && c.pos == 0 && !c.closed
    requires Parse(Flatten(chunks)) == Parsed(frames, rest, false) && ClientDecoder.Answerable(c, frames)
    ensures var r := ClientDecoder.ReceiveAll(c, chunks, true);
            !r.closed && r.data == rest && r.log == c.log + ClientDecoder.Effects(c, frames)
  {
    var now := c.(data := Flatten(chunks));
    assert c.(data := c.data + Flatten(chunks)) == now by {
      assert c.data + Flatten(chunks) == Flatten(chunks);
    }
    EffectsIgnoreData(c, Flatten(chunks), frames);
    ReferenceServes(now, frames, rest);
    ClientDecoder.DrainIsReference(now);
    ClientDecoder.ClientChunkIndependence(c, chunks);
  }

  /**
   Over every run of the link, however the pipe cut the bytes that have arrived: a client with a
   processor to which only replies it waits for are sent has handled exactly the frames delivered,
   a prefix of those sent, each with its effect and in order, and buffers the rest.
   */
  lemma ClientGetsWhatWasSent(
      actions: seq<Link.Action>, c: ClientDecoder.Client, chunks: seq<seq<Byte>>)
    requires Link.Runs(Link.Init(), actions)
    requires c.data == [] && c.pos == 0 && !c.closed
    requires var n := Link.Exec(Link.Init(), actions);
             Flatten(chunks) == n.received && ClientDecoder.Answerable(c, n.submitted)
    ensures var n := Link.Exec(Link.Init(), actions);
            var r := ClientDecoder.ReceiveAll(c, chunks, true);
            && n.delivered <= n.submitted && ClientDecoder.Answerable(c, n.delivered)
            && !r.closed && r.data == n.rest
            && r.log == c.log + ClientDecoder.Effects(c, n.delivered)
  {
    var n := Link.Exec(Link.Init(), actions);
    Arrived(actions);
    AnswerablePrefix(c, n.delivered, n.submitted);
    ClientServes(c, chunks, n.delivered, n.rest);
  }

  lemma NoByePrefix(frames: seq<Frame>, all: seq<Frame>)
    requires frames <= all && forall f <- all :: !ServerDecoder.IsBye(f)
    ensures ServerDecoder.BeforeBye(frames) == frames
  {
    assert forall i :: 0 <= i < |frames| ==> frames[i] == all[i] && all[i] in all;
    ServerDecoder.BeforeByeMeans(frames);
  }

  /** The same for the server, within its size guard and without a goodbye. */
  lemma ServerGetsWhatWasSent(actions: seq<Link.Action>, chunks: seq<seq<Byte>>)
    requires Link.Runs(Link.Init(), actions)
    requires var n := Link.Exec(Link.Init(), actions);
             && Flatten(chunks) == n.received
             && (forall f <- n.submitted :: !ServerDecoder.IsBye(f))
    requires ServerDecoder.WithinGuard(ServerDecoder.Server([], 0, []), chunks)
    ensures var n := Link.Exec(Link.Init(), actions);
            && n.delivered <= n.submitted
            && ServerDecoder.ReceiveAll(ServerDecoder.Server([], 0, []), chunks)
               == ServerDecoder.Server(n.rest, 0, ServerDecoder.Calls(n.delivered))
  {
    var n := Link.Exec(Link.Init(), actions);
    var s := ServerDecoder.Server([], 0, []);
    Arrived(actions);
    NoByePrefix(n.delivered, n.submitted);
    ServerDecoder.ServerChunkIndependence(s, chunks);
    assert [] + n.received == n.received;
    assert [] + ServerDecoder.Calls(n.delivered) == ServerDecoder.Calls(n.delivered);
  }
}
