/** Request and reply over a whole connection, at the level of frames. */
module Rpc {
  import opened Wire
  import opened ClientDecoder
  import ClientChannels
  import ServerDecoder

  /** The processor of the server, as a function of the request. */
  type Service = seq<Byte> -> seq<Byte>

  datatype Request = Request(cob: Handler, buffer: Handler, payload: seq<Byte>)

  datatype Job = Job(cid: u32, payload: seq<Byte>)

  /**
   The client's two maps, the stream of requests, the server's processing and the stream of
   replies.  `Link` shows that the streams are FIFO; the client's reaction to a frame is
   `ClientDecoder.OnFrame` with a processor.  The rest is history: all requests in order, the id
   each was given, the last request of each id, and the requests answered, all by their numbers.
   */
  datatype Net = Net(
    client: Client, currentId: u32, requests: seq<Frame>, working: seq<Job>, replies: seq<Frame>,
    serverSeq: u32, backs: seq<ServerDecoder.Call>, issued: seq<Request>, ids: seq<u32>,
    serial: map<u32, nat>, answered: seq<nat>)

  datatype Action =
    | Send(request: Request)
    | ServerReceives
    | Complete(index: nat)
    | ServerPushes(payload: seq<Byte>)
    | ServerAsks(id: u32, payload: seq<Byte>)
    | ClientReceives
    | ClientReplies(id: u32, payload: seq<Byte>)

  function Init(): Net {
    Net(Client([], 0, map[], map[], 0, false, []), 0, [], [], [], 0, [], [], [], map[], [])
  }

  predicate Enabled(n: Net, a: Action) {
    match a
    case Send(_) => true
    case ServerReceives => n.requests != []
    case Complete(i) => i < |n.working|
    case ServerPushes(_) => true
    case ServerAsks(id, _) => id != 0
    case ClientReceives => n.replies != [] && !n.client.closed
    case ClientReplies(_, _) => true
  }

  function Removed(jobs: seq<Job>, i: nat): seq<Job>
    requires i < |jobs|
  {
    jobs[..i] + jobs[i + 1..]
  }

  function DoSend(n: Net, r: Request): Net {
    var id := ClientChannels.NextId(n.currentId);
    n.(currentId := id, client := ClientChannels.Registered(n.client, id, r.cob, r.buffer),
       requests := n.requests + [Frame(0, id, 0, r.payload)],
       issued := n.issued + [r], ids := n.ids + [id], serial := n.serial[id := |n.issued|])
  }

  /** process(): a request goes to the processor, the answer to a reverse request to its channel. */
  function DoServerReceives(n: Net): Net
    requires n.requests != []
  {
    var rest := n.(requests := n.requests[1..]);
    match ServerDecoder.CallOf(n.requests[0])
    case Processed(payload, cid) => rest.(working := n.working + [Job(cid, payload)])
    case Buffered(payload, cid) => rest.(backs := n.backs + [ServerDecoder.Buffered(payload, cid)])
  }

  function DoComplete(n: Net, i: nat, service: Service): Net
    requires i < |n.working|
  {
    var job := n.working[i];
    n.(working := Removed(n.working, i), serverSeq := (n.serverSeq + 1) % U32,
       replies := n.replies + [Frame(0, job.cid, n.serverSeq, service(job.payload))])
  }

  predicate IsReply(f: Frame) {
    !ForProcessor(f)
  }

  function DoClientReceives(n: Net): Net
    requires n.replies != []
  {
    var f := n.replies[0];
    n.(client := OnFrame(n.client, f), replies := n.replies[1..],
       answered := if IsReply(f) && Known(n.client, f.cid) && f.cid in n.serial then n.answered + [n.serial[f.cid]]
                   else n.answered)
  }

  function Apply(n: Net, a: Action, service: Service): Net
    requires Enabled(n, a)
  {
    match a
    case Send(r) => DoSend(n, r)
    case ServerReceives => DoServerReceives(n)
    case Complete(i) => DoComplete(n, i, service)
    case ServerPushes(p) => n.(replies := n.replies + [Frame(0, 0, 0, p)])
    case ServerAsks(id, p) => n.(replies := n.replies + [Frame(CLIENT_MODE, id, 0, p)])
    case ClientReceives => DoClientReceives(n)
    case ClientReplies(id, p) => n.(requests := n.requests + [Frame(CLIENT_MODE, id, 0, p)])
  }

  predicate Runs(n: Net, actions: seq<Action>, service: Service)
    decreases |actions|
  {
    actions == [] || (Enabled(n, actions[0]) && Runs(Apply(n, actions[0], service), actions[1..], service))
  }

  function Exec(n: Net, actions: seq<Action>, service: Service): Net
    requires Runs(n, actions, service)
    decreases |actions|
  {
    if actions == [] then n else Exec(Apply(n, actions[0], service), actions[1..], service)
  }

  /** Every request gets an id that is not pending. */
  predicate Guarded(n: Net, actions: seq<Action>, service: Service)
    requires Runs(n, actions, service)
    decreases |actions|
  {
    actions == []
    || ((actions[0].Send? ==> ClientChannels.NextId(n.currentId) !in n.client.cobs)
        && Guarded(Apply(n, actions[0], service), actions[1..], service))
  }

  // ---------------------------------------------------------------- where a request is

  function IsAt(f: Frame, id: u32): nat {
    if f.version != CLIENT_MODE && f.cid != 0 && f.cid == id then 1 else 0
  }

  /** How often `id` occurs as a request, or a reply, in a stream. */
  function InStream(frames: seq<Frame>, id: u32): nat {
    if frames == [] then 0 else IsAt(frames[0], id) + InStream(frames[1..], id)
  }

  function InJobs(jobs: seq<Job>, id: u32): nat {
    if jobs == [] then 0 else (if jobs[0].cid == id then 1 else 0) + InJobs(jobs[1..], id)
  }

  function Places(n: Net, id: u32): nat {
    InStream(n.requests, id) + InJobs(n.working, id) + InStream(n.replies, id)
  }

  lemma {:induction false} StreamAppend(frames: seq<Frame>, f: Frame, id: u32)
    ensures InStream(frames + [f], id) == InStream(frames, id) + IsAt(f, id)
  {
    if frames == [] {
      assert [f][1..] == [];
    } else {
      assert (frames + [f])[1..] == frames[1..] + [f];
      StreamAppend(frames[1..], f, id);
    }
  }

  lemma {:induction false} JobsAppend(jobs: seq<Job>, j: Job, id: u32)
    ensures InJobs(jobs + [j], id) == InJobs(jobs, id) + if j.cid == id then 1 else 0
  {
    if jobs == [] {
      assert [j][1..] == [];
    } else {
      assert (jobs + [j])[1..] == jobs[1..] + [j];
      JobsAppend(jobs[1..], j, id);
    }
  }

  lemma {:induction false} JobsRemove(jobs: seq<Job>, i: nat, id: u32)
    requires i < |jobs|
    ensures InJobs(jobs, id) == InJobs(Removed(jobs, i), id) + if jobs[i].cid == id then 1 else 0
  {
    if i == 0 {
      assert Removed(jobs, 0) == jobs[1..];
    } else {
      assert Removed(jobs, i)[1..] == Removed(jobs[1..], i - 1);
      JobsRemove(jobs[1..], i - 1, id);
    }
  }

  // ---------------------------------------------------------------- invariant

  predicate PlacedAt(n: Net, id: u32) {
    Places(n, id) == if id in n.client.cobs then 1 else 0
  }

  /** Every pending id is in exactly one place, and no other id is in any. */
  ghost predicate Placed(n: Net) {
    && n.client.cobs.Keys == n.client.buffers.Keys
    && 0 !in n.client.cobs
    && forall id: u32 :: PlacedAt(n, id)
  }

  /** The request that was given `cid` last. */
  predicate Names(n: Net, cid: u32) {
    cid in n.serial && n.serial[cid] < |n.issued|
  }

  /** What travels is what was asked, and what comes back is its reply. */
  predicate Genuine(n: Net, service: Service) {
    && (forall f <- n.requests :: f.version != CLIENT_MODE ==>
          f.cid != 0 && Names(n, f.cid) && f.payload == n.issued[n.serial[f.cid]].payload)
    && (forall j <- n.working :: j.cid != 0 && Names(n, j.cid) && j.payload == n.issued[n.serial[j.cid]].payload)
    && (forall f <- n.replies :: IsReply(f) ==>
          Names(n, f.cid) && f.payload == service(n.issued[n.serial[f.cid]].payload))
  }

  predicate Registry(n: Net) {
    && |n.ids| == |n.issued|
    && (forall id <- n.serial :: n.serial[id] < |n.ids| && n.ids[n.serial[id]] == id)
    && (forall id <- n.client.cobs :: id in n.serial && n.client.cobs[id] == n.issued[n.serial[id]].cob)
    && (forall id <- n.client.buffers :: id in n.serial && n.client.buffers[id] == n.issued[n.serial[id]].buffer)
  }

  /** The reply to request `k`, as its callback sees it. */
  function OwnReply(issued: seq<Request>, service: Service, k: nat): Effect
    requires k < |issued|
  {
    var r := issued[k];
    Answered(r.cob, r.buffer, service(r.payload))
  }

  /** Request `k` has its callback registered. */
  predicate Waits(n: Net, k: nat) {
    k < |n.ids| && n.ids[k] in n.client.cobs && n.ids[k] in n.serial && n.serial[n.ids[k]] == k
  }

  function Answers(log: seq<Effect>): seq<Effect> {
    if log == [] then []
    else if log[|log|-1].Answered? then Answers(log[..|log|-1]) + [log[|log|-1]]
    else Answers(log[..|log|-1])
  }

  /** A request is answered exactly if it was issued and is not waiting any more. */
  predicate Settled(n: Net) {
    && !n.client.closed
    && (forall i :: 0 <= i < |n.answered| ==> n.answered[i] < |n.issued| && !Waits(n, n.answered[i]))
    && (forall i, j :: 0 <= i < j < |n.answered| ==> n.answered[i] != n.answered[j])
    && (forall k :: 0 <= k < |n.issued| ==> Waits(n, k) || k in n.answered)
  }

  predicate Logged(n: Net, service: Service) {
    var answers := Answers(n.client.log);
    && |answers| == |n.answered|
    && (forall i :: 0 <= i < |n.answered| ==>
          n.answered[i] < |n.issued| && answers[i] == OwnReply(n.issued, service, n.answered[i]))
  }

  ghost predicate Inv(n: Net, service: Service) {
    Placed(n) && Genuine(n, service) && Registry(n) && Settled(n) && Logged(n, service)
  }

  lemma AnswersAppend(log: seq<Effect>, e: Effect)
    ensures Answers(log + [e]) == if e.Answered? then Answers(log) + [e] else Answers(log)
  {
    assert (log + [e])[..|log|] == log;
  }

  /** An id that is not pending is in no stream. */
  lemma {:induction false} StreamMember(frames: seq<Frame>, f: Frame)
    requires f in frames && f.version != CLIENT_MODE && f.cid != 0
    ensures InStream(frames, f.cid) > 0
  {
    if frames[0] != f { StreamMember(frames[1..], f); }
  }

  lemma {:induction false} JobsMember(jobs: seq<Job>, j: Job)
    requires j in jobs
    ensures InJobs(jobs, j.cid) > 0
  {
    if jobs[0] != j { JobsMember(jobs[1..], j); }
  }

  lemma FreeIdUnused(n: Net, service: Service, id: u32)
    requires Placed(n) && Genuine(n, service) && id !in n.client.cobs
    ensures forall f <- n.requests :: f.version != CLIENT_MODE ==> f.cid != id
    ensures forall j <- n.working :: j.cid != id
    ensures forall f <- n.replies :: IsReply(f) ==> f.cid != id
  {
    assert PlacedAt(n, id);
    forall f | f in n.requests && f.version != CLIENT_MODE ensures f.cid != id { StreamMember(n.requests, f); }
    forall j | j in n.working ensures j.cid != id { JobsMember(n.working, j); }
    forall f | f in n.replies && IsReply(f) ensures f.cid != id { StreamMember(n.replies, f); }
  }

  /** A reply that arrives finds its callback and its buffer. */
  lemma ReplyIsKnown(n: Net)
    requires Placed(n) && n.replies != [] && IsReply(n.replies[0])
    ensures Known(n.client, n.replies[0].cid)
  {
    assert PlacedAt(n, n.replies[0].cid);
  }

  // ---- no id is lost or doubled

  lemma PlacesAfterSend(n: Net, r: Request, id: u32)
    ensures Places(DoSend(n, r), id) == Places(n, id) + if id == ClientChannels.NextId(n.currentId) then 1 else 0
  {
    StreamAppend(n.requests, Frame(0, ClientChannels.NextId(n.currentId), 0, r.payload), id);
  }

  lemma PlacedAtSend(n: Net, r: Request, id: u32)
    requires Placed(n) && ClientChannels.NextId(n.currentId) !in n.client.cobs
    ensures PlacedAt(DoSend(n, r), id)
  {
    assert PlacedAt(n, id);
    PlacesAfterSend(n, r, id);
  }

  lemma PlacedAtServerReceives(n: Net, service: Service, id: u32)
    requires Placed(n) && Genuine(n, service) && n.requests != []
    ensures PlacedAt(DoServerReceives(n), id)
  {
    assert PlacedAt(n, id);
    var f := n.requests[0];
    assert f in n.requests;
    JobsAppend(n.working, Job(f.cid, f.payload), id);
  }

  lemma PlacedAtComplete(n: Net, i: nat, service: Service, id: u32)
    requires Placed(n) && Genuine(n, service) && i < |n.working|
    ensures PlacedAt(DoComplete(n, i, service), id)
  {
    assert PlacedAt(n, id);
    var job := n.working[i];
    assert job in n.working;
    JobsRemove(n.working, i, id);
    StreamAppend(n.replies, Frame(0, job.cid, n.serverSeq, service(job.payload)), id);
  }

  lemma PlacedAtClientReceives(n: Net, id: u32)
    requires Placed(n) && n.replies != [] && !n.client.closed
    ensures PlacedAt(DoClientReceives(n), id)
  {
    assert PlacedAt(n, id);
    if IsReply(n.replies[0]) { ReplyIsKnown(n); }
  }

  /** The guard of one step. */
  predicate Fresh(n: Net, a: Action) {
    a.Send? ==> ClientChannels.NextId(n.currentId) !in n.client.cobs
  }

  lemma PlacedAtStep(n: Net, a: Action, service: Service, id: u32)
    requires Placed(n) && Genuine(n, service) && Enabled(n, a) && Fresh(n, a)
    ensures PlacedAt(Apply(n, a, service), id)
  {
    assert PlacedAt(n, id);
    match a
    case Send(r) => PlacedAtSend(n, r, id);
    case ServerReceives => PlacedAtServerReceives(n, service, id);
    case Complete(i) => PlacedAtComplete(n, i, service, id);
    case ServerPushes(p) => StreamAppend(n.replies, Frame(0, 0, 0, p), id);
    case ServerAsks(k, p) => StreamAppend(n.replies, Frame(CLIENT_MODE, k, 0, p), id);
    case ClientReceives => PlacedAtClientReceives(n, id);
    case ClientReplies(k, p) => StreamAppend(n.requests, Frame(CLIENT_MODE, k, 0, p), id);
  }

  lemma PlacedStep(n: Net, a: Action, service: Service)
    requires Placed(n) && Genuine(n, service) && Enabled(n, a) && Fresh(n, a)
    ensures Placed(Apply(n, a, service))
  {
    var m := Apply(n, a, service);
    if a.ClientReceives? && IsReply(n.replies[0]) { ReplyIsKnown(n); }
    assert m.client.cobs.Keys == m.client.buffers.Keys;
    forall id: u32 ensures PlacedAt(m, id) { PlacedAtStep(n, a, service, id); }
  }

  // ---- contents

  lemma GenuineSend(n: Net, r: Request, service: Service)
    requires Placed(n) && Registry(n) && Genuine(n, service) && Fresh(n, Send(r))
    ensures Genuine(DoSend(n, r), service)
  {
    FreeIdUnused(n, service, ClientChannels.NextId(n.currentId));
  }

  lemma GenuineServer(n: Net, a: Action, service: Service)
    requires Genuine(n, service) && Enabled(n, a) && (a.ServerReceives? || a.Complete?)
    ensures Genuine(Apply(n, a, service), service)
  {
    if a.ServerReceives? {
      assert n.requests == [n.requests[0]] + n.requests[1..];
    } else {
      assert n.working[a.index] in n.working;
    }
  }

  lemma GenuineStep(n: Net, a: Action, service: Service)
    requires Placed(n) && Registry(n) && Genuine(n, service) && Enabled(n, a) && Fresh(n, a)
    ensures Genuine(Apply(n, a, service), service)
  {
    match a
    case Send(r) => GenuineSend(n, r, service);
    case ServerReceives => GenuineServer(n, a, service);
    case Complete(i) => GenuineServer(n, a, service);
    case ServerPushes(p) =>
    case ServerAsks(k, p) =>
    case ClientReceives =>
      assert n.replies == [n.replies[0]] + n.replies[1..];
    case ClientReplies(k, p) =>
  }

  lemma RegistryStep(n: Net, a: Action, service: Service)
    requires Placed(n) && Registry(n) && Enabled(n, a)
    ensures Registry(Apply(n, a, service))
  {
    match a
    case Send(r) =>
    case ClientReceives => if IsReply(n.replies[0]) { ReplyIsKnown(n); }
    case ServerReceives =>
    case Complete(i) =>
    case ServerPushes(p) =>
    case ServerAsks(k, p) =>
    case ClientReplies(k, p) =>
  }

  // ---- history

  lemma WaitsAfterSend(n: Net, r: Request, k: nat)
    requires Registry(n) && Fresh(n, Send(r))
    ensures Waits(DoSend(n, r), k) <==> Waits(n, k) || k == |n.issued|
  {
  }

  lemma SettledSend(n: Net, r: Request)
    requires Registry(n) && Settled(n) && Fresh(n, Send(r))
    ensures Settled(DoSend(n, r))
  {
    var m := DoSend(n, r);
    forall k: nat ensures Waits(m, k) <==> Waits(n, k) || k == |n.issued| { WaitsAfterSend(n, r, k); }
  }

  lemma WaitsAfterReply(n: Net, k: nat)
    requires Registry(n) && Enabled(n, ClientReceives) && IsReply(n.replies[0]) && Known(n.client, n.replies[0].cid)
    ensures n.replies[0].cid in n.serial && Waits(n, n.serial[n.replies[0].cid])
    ensures Waits(DoClientReceives(n), k) <==> Waits(n, k) && k != n.serial[n.replies[0].cid]
  {
  }

  lemma SettledReceives(n: Net)
    requires Placed(n) && Registry(n) && Settled(n) && Enabled(n, ClientReceives)
    ensures Settled(DoClientReceives(n))
  {
    var cid := n.replies[0].cid;
    if IsReply(n.replies[0]) {
      ReplyIsKnown(n);
      var m := DoClientReceives(n);
      forall k: nat ensures Waits(m, k) <==> Waits(n, k) && k != n.serial[cid] { WaitsAfterReply(n, k); }
      WaitsAfterReply(n, 0);
      assert m.answered == n.answered + [n.serial[cid]];
      assert m.answered[|n.answered|] == n.serial[cid];
      forall k | 0 <= k < |m.issued| ensures Waits(m, k) || k in m.answered {
        assert Waits(n, k) || k in n.answered;
      }
    }
  }

  lemma SettledStep(n: Net, a: Action, service: Service)
    requires Placed(n) && Registry(n) && Settled(n) && Enabled(n, a) && Fresh(n, a)
    ensures Settled(Apply(n, a, service))
  {
    match a
    case Send(r) => SettledSend(n, r);
    case ClientReceives => SettledReceives(n);
    case ServerReceives => SettledSame(n, Apply(n, a, service));
    case Complete(i) => SettledSame(n, Apply(n, a, service));
    case ServerPushes(p) => SettledSame(n, Apply(n, a, service));
    case ServerAsks(k, p) => SettledSame(n, Apply(n, a, service));
    case ClientReplies(k, p) => SettledSame(n, Apply(n, a, service));
  }

  lemma SettledSame(n: Net, m: Net)
    requires Settled(n) && m.client == n.client
    requires m.issued == n.issued && m.ids == n.ids && m.serial == n.serial && m.answered == n.answered
    ensures Settled(m)
  {
    forall k: nat ensures Waits(m, k) == Waits(n, k) { }
  }

  lemma LoggedMore(n: Net, service: Service, e: Effect)
    requires Logged(n, service) && !e.Answered?
    ensures Logged(n.(client := n.client.(log := n.client.log + [e])), service)
  {
    AnswersAppend(n.client.log, e);
  }

  lemma LoggedAnswer(n: Net, service: Service, k: nat)
    requires Logged(n, service) && k < |n.issued|
    ensures var log := n.client.log + [OwnReply(n.issued, service, k)];
            Logged(n.(client := n.client.(log := log), answered := n.answered + [k]), service)
  {
    AnswersAppend(n.client.log, OwnReply(n.issued, service, k));
  }

  lemma LoggedReceives(n: Net, service: Service)
    requires Placed(n) && Registry(n) && Genuine(n, service) && Logged(n, service) && Enabled(n, ClientReceives)
    ensures Logged(DoClientReceives(n), service)
  {
    var f := n.replies[0];
    assert f in n.replies;
    if IsReply(f) {
      ReplyIsKnown(n);
      LoggedAnswer(n, service, n.serial[f.cid]);
    } else {
      LoggedMore(n, service, EffectOf(n.client, f));
    }
  }

  lemma LoggedStep(n: Net, a: Action, service: Service)
    requires Placed(n) && Registry(n) && Genuine(n, service) && Logged(n, service) && Enabled(n, a)
    ensures Logged(Apply(n, a, service), service)
  {
    match a
    case Send(r) =>
    case ClientReceives => LoggedReceives(n, service);
    case ServerReceives =>
    case Complete(i) =>
    case ServerPushes(p) =>
    case ServerAsks(k, p) =>
    case ClientReplies(k, p) =>
  }

  lemma InvStep(n: Net, a: Action, service: Service)
    requires Inv(n, service) && Enabled(n, a) && Fresh(n, a)
    ensures Inv(Apply(n, a, service), service)
  {
    PlacedStep(n, a, service);
    GenuineStep(n, a, service);
    RegistryStep(n, a, service);
    SettledStep(n, a, service);
    LoggedStep(n, a, service);
  }

  lemma {:induction false} RunKeepsInv(n: Net, actions: seq<Action>, service: Service)
    requires Inv(n, service) && Runs(n, actions, service) && Guarded(n, actions, service)
    ensures Inv(Exec(n, actions, service), service)
    decreases |actions|
  {
    if actions != [] {
      InvStep(n, actions[0], service);
      RunKeepsInv(Apply(n, actions[0], service), actions[1..], service);
    }
  }

  lemma InitInv(service: Service)
    ensures Inv(Init(), service)
  {
  }

  // ---------------------------------------------------------------- main results

  /**
   In every guarded run, of any length, each id with a callback is in exactly one of the request
   stream, the server's processing and the reply stream, and nothing else is there; the two maps
   have equal keys, without 0.
   */
  lemma EachRequestInOnePlace(actions: seq<Action>, service: Service, id: u32)
    requires Runs(Init(), actions, service) && Guarded(Init(), actions, service)
    ensures var n := Exec(Init(), actions, service);
            && n.client.cobs.Keys == n.client.buffers.Keys && 0 !in n.client.cobs
            && InStream(n.requests, id) + InJobs(n.working, id) + InStream(n.replies, id)
               == if id in n.client.cobs then 1 else 0
  {
    InitInv(service);
    RunKeepsInv(Init(), actions, service);
    assert PlacedAt(Exec(Init(), actions, service), id);
  }

  /**
   Callbacks run at most once for each request, after its buffer has been filled with the reply
   computed for that request; a request that was issued is answered or still registered.
   */
  lemma CallbacksGetTheirReplies(actions: seq<Action>, service: Service)
    requires Runs(Init(), actions, service) && Guarded(Init(), actions, service)
    ensures var n := Exec(Init(), actions, service);
            var answers := Answers(n.client.log);
            && |answers| == |n.answered|
            && (forall i :: 0 <= i < |n.answered| ==>
                  n.answered[i] < |n.issued| && answers[i] == OwnReply(n.issued, service, n.answered[i]))
            && (forall i, j :: 0 <= i < j < |n.answered| ==> n.answered[i] != n.answered[j])
            && (forall k :: 0 <= k < |n.issued| ==> (k in n.answered <==> !Waits(n, k)))
  {
    InitInv(service);
    RunKeepsInv(Init(), actions, service);
  }

  /** No reply is unexpected: the branches that close the channel for an unknown id are not taken. */
  lemma NeverUnexpected(actions: seq<Action>, service: Service)
    requires Runs(Init(), actions, service) && Guarded(Init(), actions, service)
    ensures var n := Exec(Init(), actions, service);
            && !n.client.closed
            && (n.replies != [] && IsReply(n.replies[0]) ==> Known(n.client, n.replies[0].cid))
  {
    InitInv(service);
    RunKeepsInv(Init(), actions, service);
    var n := Exec(Init(), actions, service);
    if n.replies != [] && IsReply(n.replies[0]) { ReplyIsKnown(n); }
  }

  /** When both streams and the server are idle, no callback is left waiting. */
  lemma IdleMeansAnswered(actions: seq<Action>, service: Service)
    requires Runs(Init(), actions, service) && Guarded(Init(), actions, service)
    ensures var n := Exec(Init(), actions, service);
            n.requests == [] && n.working == [] && n.replies == [] ==>
              n.client.cobs == map[] && forall k :: 0 <= k < |n.issued| ==> k in n.answered
  {
    InitInv(service);
    RunKeepsInv(Init(), actions, service);
    var n := Exec(Init(), actions, service);
    if n.requests == [] && n.working == [] && n.replies == [] {
      forall id: u32 ensures id !in n.client.cobs { assert PlacedAt(n, id); }
      forall k | 0 <= k < |n.issued| ensures k in n.answered { assert Waits(n, k) || k in n.answered; }
    }
  }

  // ---------------------------------------------------------------- the guard

  /** One more request keeps all this exactly if its id is not pending. */
  lemma GuardExact(n: Net, r: Request, service: Service)
    requires Inv(n, service)
    ensures Inv(DoSend(n, r), service) <==> ClientChannels.NextId(n.currentId) !in n.client.cobs
  {
    var id := ClientChannels.NextId(n.currentId);
    if id in n.client.cobs {
      assert PlacedAt(n, id);
      PlacesAfterSend(n, r, id);
      assert !PlacedAt(DoSend(n, r), id);
    } else {
      InvStep(n, Send(r), service);
    }
  }

  function Sends(actions: seq<Action>): nat {
    if actions == [] then 0 else (if actions[0].Send? then 1 else 0) + Sends(actions[1..])
  }

  /** As long as no id has been used twice. */
  predicate LowIds(n: Net) {
    n.currentId == |n.issued| && forall id <- n.client.cobs :: id <= |n.issued|
  }

  lemma LowIdsStep(n: Net, a: Action, service: Service)
    requires LowIds(n) && Enabled(n, a) && (a.Send? ==> |n.issued| < U32 - 1)
    ensures LowIds(Apply(n, a, service)) && Fresh(n, a)
    ensures |Apply(n, a, service).issued| == |n.issued| + if a.Send? then 1 else 0
  {
  }

  /** Fewer than 2^32 requests never meet a pending id. */
  lemma {:induction false} FewSendsGuarded(n: Net, actions: seq<Action>, service: Service)
    requires LowIds(n) && Runs(n, actions, service) && |n.issued| + Sends(actions) < U32
    ensures Guarded(n, actions, service)
    decreases |actions|
  {
    if actions != [] {
      LowIdsStep(n, actions[0], service);
      FewSendsGuarded(Apply(n, actions[0], service), actions[1..], service);
    }
  }

  // ---- 2^32 requests, the first still pending

  /** `k` requests have been sent, the first of them `first`, and nothing else has happened. */
  predicate Sent(n: Net, k: nat, first: Request) {
    && 1 <= k == n.currentId == |n.issued| && n.requests != [] && n.requests[0] == Frame(0, 1, 0, first.payload)
    && n.working == [] && n.replies == [] && n.client.log == [] && !n.client.closed
    && 1 in n.client.cobs && 1 in n.client.buffers
  }

  function Fill(filler: Request, count: nat): seq<Action> {
    if count == 0 then [] else [Send(filler)] + Fill(filler, count - 1)
  }

  lemma {:induction false} Filled(n: Net, k: nat, first: Request, filler: Request, count: nat, service: Service)
    requires Sent(n, k, first) && k + count <= U32 - 1
    ensures Runs(n, Fill(filler, count), service)
    ensures Sent(Exec(n, Fill(filler, count), service), k + count, first)
    decreases count
  {
    if count > 0 {
      var actions := Fill(filler, count);
      assert actions[1..] == Fill(filler, count - 1);
      Filled(DoSend(n, filler), k + 1, first, filler, count - 1, service);
    }
  }

  lemma {:induction false} RunsConcat(n: Net, a: seq<Action>, b: seq<Action>, service: Service)
    requires Runs(n, a, service) && Runs(Exec(n, a, service), b, service)
    ensures Runs(n, a + b, service) && Exec(n, a + b, service) == Exec(Exec(n, a, service), b, service)
    decreases |a|
  {
    if a == [] {
      assert a + b == b;
    } else {
      assert (a + b)[1..] == a[1..] + b;
      RunsConcat(Apply(n, a[0], service), a[1..], b, service);
    }
  }

  lemma RunsOne(n: Net, a: Action, service: Service)
    requires Enabled(n, a)
    ensures Runs(n, [a], service) && Exec(n, [a], service) == Apply(n, a, service)
  {
    assert [a][1..] == [];
    assert Runs(Apply(n, a, service), [], service);
  }

  lemma RunsMore(n: Net, run: seq<Action>, a: Action, service: Service)
    requires Runs(n, run, service) && Enabled(Exec(n, run, service), a)
    ensures Runs(n, run + [a], service) && Exec(n, run + [a], service) == Apply(Exec(n, run, service), a, service)
  {
    RunsOne(Exec(n, run, service), a, service);
    RunsConcat(n, run, [a], service);
  }

  lemma {:induction false} GuardedSplits(n: Net, a: seq<Action>, b: seq<Action>, service: Service)
    requires Runs(n, a, service) && Runs(Exec(n, a, service), b, service)
    requires Runs(n, a + b, service) && Guarded(n, a + b, service)
    ensures Guarded(Exec(n, a, service), b, service)
    decreases |a|
  {
    if a == [] {
      assert a + b == b;
    } else {
      assert (a + b)[1..] == a[1..] + b;
      GuardedSplits(Apply(n, a[0], service), a[1..], b, service);
    }
  }

  /** The request with number 2^32 takes the id of the first one and its place in both maps. */
  lemma Overwritten(n: Net, first: Request, last: Request)
    requires Sent(n, U32 - 1, first)
    ensures var m := DoSend(n, last);
            && m.requests != [] && m.requests[0] == Frame(0, 1, 0, first.payload)
            && m.working == [] && m.replies == [] && m.client.log == [] && !m.client.closed
            && 1 in m.client.cobs && m.client.cobs[1] == last.cob
            && 1 in m.client.buffers && m.client.buffers[1] == last.buffer && |m.issued| == U32
  {
  }

  lemma WrongReply(m: Net, first: Request, last: Request, service: Service)
    requires m.requests != [] && m.requests[0] == Frame(0, 1, 0, first.payload)
    requires m.working == [] && m.replies == [] && m.client.log == [] && !m.client.closed
    requires 1 in m.client.cobs && m.client.cobs[1] == last.cob && 1 in m.client.buffers && m.client.buffers[1] == last.buffer
    ensures var m1 := DoServerReceives(m);
            && m1.working == [Job(1, first.payload)]
            && var m2 := DoComplete(m1, 0, service);
               && m2.replies != [] && !m2.client.closed && DoClientReceives(m2).issued == m.issued
               && DoClientReceives(m2).client.log == [Answered(last.cob, last.buffer, service(first.payload))]
  {
  }

  lemma FillsUp(first: Request, filler: Request, service: Service) returns (run: seq<Action>)
    ensures Runs(Init(), run, service) && Sent(Exec(Init(), run, service), U32 - 1, first)
  {
    RunsOne(Init(), Send(first), service);
    Filled(DoSend(Init(), first), 1, first, filler, U32 - 2, service);
    run := [Send(first)] + Fill(filler, U32 - 2);
    RunsConcat(Init(), [Send(first)], Fill(filler, U32 - 2), service);
  }

  function Rest(last: Request): seq<Action> {
    [Send(last)] + [ServerReceives] + [Complete(0)] + [ClientReceives]
  }

  /** The rest of the run, from the state in which all other ids are pending. */
  lemma RestRuns(n: Net, first: Request, last: Request, service: Service)
    requires Sent(n, U32 - 1, first)
    ensures Runs(n, Rest(last), service) && |Exec(n, Rest(last), service).issued| == U32
    ensures Exec(n, Rest(last), service).client.log == [Answered(last.cob, last.buffer, service(first.payload))]
  {
    Overwritten(n, first, last);
    RunsOne(n, Send(last), service);
    WrongReply(DoSend(n, last), first, last, service);
    RunsMore(n, [Send(last)], ServerReceives, service);
    RunsMore(n, [Send(last)] + [ServerReceives], Complete(0), service);
    RunsMore(n, [Send(last)] + [ServerReceives] + [Complete(0)], ClientReceives, service);
  }

  lemma RestUnguarded(n: Net, first: Request, last: Request, service: Service)
    requires Sent(n, U32 - 1, first) && Runs(n, Rest(last), service)
    ensures !Guarded(n, Rest(last), service)
  {
    assert Rest(last)[0] == Send(last);
  }

  /**
   Without the guard the matching fails.  Of 2^32 requests none of which has been answered the last
   takes the place of the first, and its callback gets the reply to the first.
   */
  lemma WrapMismatches(first: Request, filler: Request, last: Request, service: Service)
    ensures exists actions :: Runs(Init(), actions, service) && |Exec(Init(), actions, service).issued| == U32
              && !Guarded(Init(), actions, service)
              && Exec(Init(), actions, service).client.log
                 == [Answered(last.cob, last.buffer, service(first.payload))]
  {
    var run := FillsUp(first, filler, service);
    var n := Exec(Init(), run, service);
    RestRuns(n, first, last, service);
    RunsConcat(Init(), run, Rest(last), service);
    RestUnguarded(n, first, last, service);
    if Guarded(Init(), run + Rest(last), service) { GuardedSplits(Init(), run, Rest(last), service); }
  }
}
