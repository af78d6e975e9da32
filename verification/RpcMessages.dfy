/** Every message of a connection, one way or the other, is handled as what it was sent as, once and in order. */
module RpcMessages {
  import opened Wire
  import opened ClientDecoder
  import opened Rpc
  import ServerDecoder
  import ClientChannels

  /** The steps of a run that are not arrivals. */
  function Told(actions: seq<Action>): seq<Action> {
    if actions == [] then []
    else if actions[0].ServerReceives? || actions[0].ClientReceives? then Told(actions[1..])
    else [actions[0]] + Told(actions[1..])
  }

  lemma {:induction false} ToldConcat(a: seq<Action>, b: seq<Action>)
    ensures Told(a + b) == Told(a) + Told(b)
  {
    if a == [] {
      assert a + b == b;
    } else {
      assert (a + b)[1..] == a[1..] + b;
      ToldConcat(a[1..], b);
    }
  }

  // ---- what was sent

  /** The messages without reply that the server has sent. */
  function PushesOf(actions: seq<Action>): seq<seq<Byte>> {
    if actions == [] then []
    else if actions[0].ServerPushes? then [actions[0].payload] + PushesOf(actions[1..]) else PushesOf(actions[1..])
  }

  /** The requests of the server to the client, with their ids. */
  function AsksOf(actions: seq<Action>): seq<Job> {
    if actions == [] then []
    else if actions[0].ServerAsks? then [Job(actions[0].id, actions[0].payload)] + AsksOf(actions[1..]) else AsksOf(actions[1..])
  }

  /** The answers of the client to those, with their ids. */
  function BacksOf(actions: seq<Action>): seq<Job> {
    if actions == [] then []
    else if actions[0].ClientReplies? then [Job(actions[0].id, actions[0].payload)] + BacksOf(actions[1..]) else BacksOf(actions[1..])
  }

  // ---- what is on its way

  function PushFrames(frames: seq<Frame>): seq<seq<Byte>> {
    if frames == [] then [] else if frames[0].cid == 0 then [frames[0].payload] + PushFrames(frames[1..]) else PushFrames(frames[1..])
  }

  predicate IsAsk(f: Frame) {
    f.version == CLIENT_MODE && f.cid != 0
  }

  function AskFrames(frames: seq<Frame>): seq<Job> {
    if frames == [] then []
    else if IsAsk(frames[0]) then [Job(frames[0].cid, frames[0].payload)] + AskFrames(frames[1..]) else AskFrames(frames[1..])
  }

  function BackFrames(frames: seq<Frame>): seq<Job> {
    if frames == [] then []
    else if frames[0].version == CLIENT_MODE then [Job(frames[0].cid, frames[0].payload)] + BackFrames(frames[1..]) else BackFrames(frames[1..])
  }

  // ---- what was handled

  /** What the processor of the client was handed to process without a reply. */
  function PushedIn(log: seq<Effect>): seq<seq<Byte>> {
    if log == [] then []
    else
      var last := log[|log| - 1];
      PushedIn(log[..|log| - 1]) + if last.Pushed? then [last.payload] else []
  }

  /** What it was handed to answer, with the id to answer under. */
  function AskedIn(log: seq<Effect>): seq<Job> {
    if log == [] then []
    else
      var last := log[|log| - 1];
      AskedIn(log[..|log| - 1]) + if last.Asked? then [Job(last.cid, last.payload)] else []
  }

  /** What receivedBuffer of the server was called with. */
  function BufferedIn(calls: seq<ServerDecoder.Call>): seq<Job> {
    if calls == [] then []
    else
      var last := calls[|calls| - 1];
      BufferedIn(calls[..|calls| - 1]) + if last.Buffered? then [Job(last.cid, last.payload)] else []
  }

  // ---------------------------------------------------------------- conservation

  predicate Handled(n: Net, pushes: seq<seq<Byte>>, asks: seq<Job>, backs: seq<Job>) {
    && PushedIn(n.client.log) + PushFrames(n.replies) == pushes
    && AskedIn(n.client.log) + AskFrames(n.replies) == asks
    && BufferedIn(n.backs) + BackFrames(n.requests) == backs
  }

  lemma {:induction false} PushAppend(frames: seq<Frame>, f: Frame)
    ensures PushFrames(frames + [f]) == PushFrames(frames) + if f.cid == 0 then [f.payload] else []
  {
    if frames == [] {
      assert frames + [f] == [f] && [f][1..] == frames;
    } else {
      assert (frames + [f])[1..] == frames[1..] + [f];
      PushAppend(frames[1..], f);
    }
  }

  lemma {:induction false} AskAppend(frames: seq<Frame>, f: Frame)
    ensures AskFrames(frames + [f]) == AskFrames(frames) + if IsAsk(f) then [Job(f.cid, f.payload)] else []
  {
    if frames == [] {
      assert frames + [f] == [f] && [f][1..] == frames;
    } else {
      assert (frames + [f])[1..] == frames[1..] + [f];
      AskAppend(frames[1..], f);
    }
  }

  lemma {:induction false} BackAppend(frames: seq<Frame>, f: Frame)
    ensures BackFrames(frames + [f]) == BackFrames(frames) + if f.version == CLIENT_MODE then [Job(f.cid, f.payload)] else []
  {
    if frames == [] {
      assert frames + [f] == [f] && [f][1..] == frames;
    } else {
      assert (frames + [f])[1..] == frames[1..] + [f];
      BackAppend(frames[1..], f);
    }
  }

  lemma FramesAppend(frames: seq<Frame>, f: Frame)
    ensures PushFrames(frames + [f]) == PushFrames(frames) + if f.cid == 0 then [f.payload] else []
    ensures AskFrames(frames + [f]) == AskFrames(frames) + if IsAsk(f) then [Job(f.cid, f.payload)] else []
    ensures BackFrames(frames + [f]) == BackFrames(frames) + if f.version == CLIENT_MODE then [Job(f.cid, f.payload)] else []
  {
    PushAppend(frames, f);
    AskAppend(frames, f);
    BackAppend(frames, f);
  }

  lemma LogAppend(log: seq<Effect>, e: Effect)
    ensures PushedIn(log + [e]) == PushedIn(log) + if e.Pushed? then [e.payload] else []
    ensures AskedIn(log + [e]) == AskedIn(log) + if e.Asked? then [Job(e.cid, e.payload)] else []
  {
    assert (log + [e])[..|log|] == log;
  }

  lemma CallsAppend(calls: seq<ServerDecoder.Call>, call: ServerDecoder.Call)
    ensures BufferedIn(calls + [call]) == BufferedIn(calls) + if call.Buffered? then [Job(call.cid, call.payload)] else []
  {
    assert (calls + [call])[..|calls|] == calls;
  }

  /** Something taken off the front of what is on its way and put behind what was handled. */
  lemma Moves<T>(done: seq<T>, one: seq<T>, ahead: seq<T>)
    ensures (done + one) + ahead == done + (one + ahead)
  {
  }

  /** What serving one frame adds to the log, and what it takes off the stream. */
  lemma ServedLog(n: Net, f: Frame)
    requires n.replies != [] && f == n.replies[0]
    ensures var log := DoClientReceives(n).client.log;
            && PushedIn(log) == PushedIn(n.client.log) + (if f.cid == 0 then [f.payload] else [])
            && AskedIn(log) == AskedIn(n.client.log) + (if IsAsk(f) then [Job(f.cid, f.payload)] else [])
  {
    if ForProcessor(f) || Known(n.client, f.cid) { LogAppend(n.client.log, EffectOf(n.client, f)); }
  }

  lemma PushUncons(frames: seq<Frame>)
    requires frames != []
    ensures PushFrames(frames) == (if frames[0].cid == 0 then [frames[0].payload] else []) + PushFrames(frames[1..])
  {
  }

  lemma AskUncons(frames: seq<Frame>)
    requires frames != []
    ensures AskFrames(frames)
            == (if IsAsk(frames[0]) then [Job(frames[0].cid, frames[0].payload)] else []) + AskFrames(frames[1..])
  {
  }

  lemma ClientHandles(n: Net)
    requires n.replies != [] && !n.client.closed
    ensures var m := DoClientReceives(n);
            && PushedIn(m.client.log) + PushFrames(m.replies) == PushedIn(n.client.log) + PushFrames(n.replies)
            && AskedIn(m.client.log) + AskFrames(m.replies) == AskedIn(n.client.log) + AskFrames(n.replies)
  {
    var f, rest := n.replies[0], n.replies[1..];
    ServedLog(n, f);
    PushUncons(n.replies);
    AskUncons(n.replies);
    Moves(PushedIn(n.client.log), if f.cid == 0 then [f.payload] else [], PushFrames(rest));
    Moves(AskedIn(n.client.log), if IsAsk(f) then [Job(f.cid, f.payload)] else [], AskFrames(rest));
  }

  lemma ServerHandles(n: Net)
    requires n.requests != []
    ensures var m := DoServerReceives(n);
            BufferedIn(m.backs) + BackFrames(m.requests) == BufferedIn(n.backs) + BackFrames(n.requests)
  {
    var f, rest := n.requests[0], n.requests[1..];
    if f.version == CLIENT_MODE { CallsAppend(n.backs, ServerDecoder.Buffered(f.payload, f.cid)); }
    Moves(BufferedIn(n.backs), if f.version == CLIENT_MODE then [Job(f.cid, f.payload)] else [], BackFrames(rest));
  }

  /** The processor of the server never has id 0 to answer. */
  predicate NonZero(n: Net) {
    && (forall f <- n.requests :: f.version != CLIENT_MODE ==> f.cid != 0)
    && (forall j <- n.working :: j.cid != 0)
  }

  lemma NonZeroStep(n: Net, a: Action, service: Service)
    requires NonZero(n) && Enabled(n, a)
    ensures NonZero(Apply(n, a, service))
  {
    match a
    case ServerReceives => assert n.requests == [n.requests[0]] + n.requests[1..];
    case Complete(i) =>
    case _ =>
  }

  lemma SentHandled(n: Net, a: Action, service: Service, pushes: seq<seq<Byte>>, asks: seq<Job>, backs: seq<Job>)
    requires Handled(n, pushes, asks, backs) && NonZero(n) && Enabled(n, a) && !a.ServerReceives? && !a.ClientReceives?
    ensures Handled(Apply(n, a, service), pushes + PushesOf([a]), asks + AsksOf([a]), backs + BacksOf([a]))
  {
    assert [a][1..] == [];
    match a
    case Send(r) => FramesAppend(n.requests, Frame(0, ClientChannels.NextId(n.currentId), 0, r.payload));
    case Complete(i) =>
      assert n.working[i] in n.working;
      FramesAppend(n.replies, Frame(0, n.working[i].cid, n.serverSeq, service(n.working[i].payload)));
    case ServerPushes(p) => FramesAppend(n.replies, Frame(0, 0, 0, p));
    case ServerAsks(id, p) => FramesAppend(n.replies, Frame(CLIENT_MODE, id, 0, p));
    case ClientReplies(id, p) => FramesAppend(n.requests, Frame(CLIENT_MODE, id, 0, p));
  }

  lemma StepHandled(n: Net, a: Action, service: Service, pushes: seq<seq<Byte>>, asks: seq<Job>, backs: seq<Job>)
    requires Handled(n, pushes, asks, backs) && NonZero(n) && Enabled(n, a)
    ensures Handled(Apply(n, a, service), pushes + PushesOf([a]), asks + AsksOf([a]), backs + BacksOf([a]))
  {
    assert [a][1..] == [];
    if a.ClientReceives? {
      ClientHandles(n);
    } else if a.ServerReceives? {
      ServerHandles(n);
    } else {
      SentHandled(n, a, service, pushes, asks, backs);
    }
  }

  lemma PushesFirst(a: Action, rest: seq<Action>)
    ensures PushesOf([a] + rest) == PushesOf([a]) + PushesOf(rest)
  {
    assert ([a] + rest)[1..] == rest && [a][1..] == [];
  }

  lemma AsksFirst(a: Action, rest: seq<Action>)
    ensures AsksOf([a] + rest) == AsksOf([a]) + AsksOf(rest)
  {
    assert ([a] + rest)[1..] == rest && [a][1..] == [];
  }

  lemma BacksFirst(a: Action, rest: seq<Action>)
    ensures BacksOf([a] + rest) == BacksOf([a]) + BacksOf(rest)
  {
    assert ([a] + rest)[1..] == rest && [a][1..] == [];
  }

  lemma SentFirst(a: Action, rest: seq<Action>)
    ensures PushesOf([a] + rest) == PushesOf([a]) + PushesOf(rest)
    ensures AsksOf([a] + rest) == AsksOf([a]) + AsksOf(rest)
    ensures BacksOf([a] + rest) == BacksOf([a]) + BacksOf(rest)
  {
    PushesFirst(a, rest);
    AsksFirst(a, rest);
    BacksFirst(a, rest);
  }

  lemma {:induction false} RunHandled(
      n: Net, actions: seq<Action>, service: Service, pushes: seq<seq<Byte>>, asks: seq<Job>, backs: seq<Job>)
    requires Handled(n, pushes, asks, backs) && NonZero(n) && Runs(n, actions, service)
    ensures Handled(Exec(n, actions, service), pushes + PushesOf(actions), asks + AsksOf(actions), backs + BacksOf(actions))
    decreases |actions|
  {
    if actions != [] {
      var a, rest := actions[0], actions[1..];
      assert actions == [a] + rest;
      StepHandled(n, a, service, pushes, asks, backs);
      NonZeroStep(n, a, service);
      RunHandled(Apply(n, a, service), rest, service, pushes + PushesOf([a]), asks + AsksOf([a]), backs + BacksOf([a]));
      SentFirst(a, rest);
      Moves(pushes, PushesOf([a]), PushesOf(rest));
      Moves(asks, AsksOf([a]), AsksOf(rest));
      Moves(backs, BacksOf([a]), BacksOf(rest));
    }
  }

  lemma HandledFrom(n: Net, actions: seq<Action>, service: Service)
    requires Handled(n, [], [], []) && NonZero(n) && Runs(n, actions, service)
    ensures Handled(Exec(n, actions, service), PushesOf(actions), AsksOf(actions), BacksOf(actions))
  {
    var pushes, asks, backs := PushesOf(actions), AsksOf(actions), BacksOf(actions);
    RunHandled(n, actions, service, [], [], []);
    assert [] + pushes == pushes && [] + asks == asks && [] + backs == backs;
  }

  /**
   In every run, guarded or not: the messages the client's processor was handed are, in order and
   with nothing else between, those the server has pushed, less the ones still on their way; the
   requests it was handed are those the server has asked, each with its id; and the answers the
   server got to its own requests are those the client has given, each with its id.
   */
  lemma MessagesHandledAsSent(actions: seq<Action>, service: Service)
    requires Runs(Init(), actions, service)
    ensures var n := Exec(Init(), actions, service);
            && PushedIn(n.client.log) + PushFrames(n.replies) == PushesOf(actions)
            && AskedIn(n.client.log) + AskFrames(n.replies) == AsksOf(actions)
            && BufferedIn(n.backs) + BackFrames(n.requests) == BacksOf(actions)
  {
    HandledFrom(Init(), actions, service);
  }

  /** What was sent is among the steps that are not arrivals. */
  lemma {:induction false} SentIsTold(actions: seq<Action>)
    ensures PushesOf(Told(actions)) == PushesOf(actions)
    ensures AsksOf(Told(actions)) == AsksOf(actions)
    ensures BacksOf(Told(actions)) == BacksOf(actions)
  {
    if actions != [] {
      SentIsTold(actions[1..]);
      if !actions[0].ServerReceives? && !actions[0].ClientReceives? {
        SentFirst(actions[0], Told(actions[1..]));
      }
      assert actions == [actions[0]] + actions[1..];
      SentFirst(actions[0], actions[1..]);
    }
  }
}
