/** Request and reply over two links, byte by byte: the composition of Link, the decoders and Rpc. */
module Connections {
  import opened Wire
  import opened ClientDecoder
  import Link
  import Rpc
  import RpcMessages
  import ClientChannels
  import ServerDecoder

  /**
   A link from the client to the server and one back, the client's and the server's receiving
   state, and the fields of `Rpc.Net` that are not streams of frames.
   */
  datatype Conn = Conn(
    up: Link.Net, down: Link.Net, client: Client, server: ServerDecoder.Server,
    currentId: u32, working: seq<Rpc.Job>, serverSeq: u32, backs: seq<ServerDecoder.Call>,
    issued: seq<Rpc.Request>, ids: seq<u32>, serial: map<u32, nat>, answered: seq<nat>)

  datatype Step =
    | Ask(request: Rpc.Request)
    | Answer(index: nat)
    | Notify(payload: seq<Byte>)
    | AskBack(id: u32, payload: seq<Byte>)
    | AnswerBack(id: u32, payload: seq<Byte>)
    | Up(a: Link.Action)
    | Down(a: Link.Action)

  function Init(): Conn {
    Conn(Link.Init(), Link.Init(), Client([], 0, map[], map[], 0, false, []), ServerDecoder.Server([], 0, []),
         0, [], 0, [], [], [], map[], [])
  }

  function AskFrame(c: Conn, r: Rpc.Request): Frame {
    Frame(0, ClientChannels.NextId(c.currentId), 0, r.payload)
  }

  function AnswerFrame(c: Conn, i: nat, service: Rpc.Service): Frame
    requires i < |c.working|
  {
    Frame(0, c.working[i].cid, c.serverSeq, service(c.working[i].payload))
  }

  /** Requests keep the guard of `Rpc`, and chunks that of the server's buffer. */
  predicate Enabled(c: Conn, s: Step, service: Rpc.Service) {
    match s
    case Ask(r) =>
      Link.Enabled(c.up, Link.Submit(AskFrame(c, r))) && ClientChannels.NextId(c.currentId) !in c.client.cobs
    case Answer(i) => i < |c.working| && Link.Enabled(c.down, Link.Submit(AnswerFrame(c, i, service)))
    case Notify(p) => Link.Enabled(c.down, Link.Submit(Frame(0, 0, 0, p)))
    case AskBack(id, p) => id != 0 && Link.Enabled(c.down, Link.Submit(Frame(CLIENT_MODE, id, 0, p)))
    case AnswerBack(id, p) => id != 0 && Link.Enabled(c.up, Link.Submit(Frame(CLIENT_MODE, id, 0, p)))
    case Up(a) => !a.Submit? && Link.Enabled(c.up, a) && (a.Arrive? ==> |c.server.buffer| + a.count <= ServerDecoder.LIMIT)
    case Down(a) => !a.Submit? && Link.Enabled(c.down, a) && (a.Arrive? ==> !c.client.closed)
  }

  /** The jobs, and the answers to the server's own requests, among the calls of the server. */
  function JobsOf(calls: seq<ServerDecoder.Call>): seq<Rpc.Job> {
    if calls == [] then []
    else if calls[0].Processed? then [Rpc.Job(calls[0].cid, calls[0].payload)] + JobsOf(calls[1..])
    else JobsOf(calls[1..])
  }

  function BacksOf(calls: seq<ServerDecoder.Call>): seq<ServerDecoder.Call> {
    if calls == [] then []
    else if calls[0].Buffered? then [calls[0]] + BacksOf(calls[1..])
    else BacksOf(calls[1..])
  }

  /** A chunk reaches the server: what its decoder calls is put to work. */
  function ServerGets(c: Conn, k: nat): Conn
    requires k <= |c.up.wire|
  {
    var server := ServerDecoder.Receive(c.server, c.up.wire[..k]);
    var calls := if |c.server.log| <= |server.log| then server.log[|c.server.log|..] else [];
    c.(server := server, working := c.working + JobsOf(calls), backs := c.backs + BacksOf(calls))
  }

  /** A chunk reaches the client.  The last field is history. */
  function ClientGets(c: Conn, k: nat): Conn
    requires k <= |c.down.wire| && c.client.pos <= |c.client.data|
  {
    c.(client := ClientDecoder.Receive(c.client, c.down.wire[..k], true),
       answered := AnsweredBy(c, Parse(c.down.rest + c.down.wire[..k]).frames))
  }

  /** The requests answered when these frames are served. */
  function AnsweredBy(c: Conn, frames: seq<Frame>): seq<nat>
    decreases |frames|
  {
    if frames == [] then c.answered
    else
      var f := frames[0];
      var more := if Rpc.IsReply(f) && Known(c.client, f.cid) && f.cid in c.serial then [c.serial[f.cid]] else [];
      AnsweredBy(c.(client := OnFrame(c.client, f), answered := c.answered + more), frames[1..])
  }

  function Apply(c: Conn, s: Step, service: Rpc.Service): Conn
    requires Enabled(c, s, service) && c.client.pos <= |c.client.data|
  {
    match s
    case Ask(r) =>
      var id := ClientChannels.NextId(c.currentId);
      c.(up := Link.Apply(c.up, Link.Submit(AskFrame(c, r))), currentId := id,
         client := ClientChannels.Registered(c.client, id, r.cob, r.buffer),
         issued := c.issued + [r], ids := c.ids + [id], serial := c.serial[id := |c.issued|])
    case Answer(i) =>
      c.(down := Link.Apply(c.down, Link.Submit(AnswerFrame(c, i, service))),
         working := Rpc.Removed(c.working, i), serverSeq := (c.serverSeq + 1) % U32)
    case Notify(p) => c.(down := Link.Apply(c.down, Link.Submit(Frame(0, 0, 0, p))))
    case AskBack(id, p) => c.(down := Link.Apply(c.down, Link.Submit(Frame(CLIENT_MODE, id, 0, p))))
    case AnswerBack(id, p) => c.(up := Link.Apply(c.up, Link.Submit(Frame(CLIENT_MODE, id, 0, p))))
    case Up(a) => (if a.Arrive? then ServerGets(c, a.count) else c).(up := Link.Apply(c.up, a))
    case Down(a) => (if a.Arrive? then ClientGets(c, a.count) else c).(down := Link.Apply(c.down, a))
  }

  // ---------------------------------------------------------------- the frames in flight

  /** The frames submitted to a link and not delivered yet. */
  function InFlight(n: Link.Net): seq<Frame> {
    if |n.delivered| <= |n.submitted| then n.submitted[|n.delivered|..] else []
  }

  function Abs(c: Conn): Rpc.Net {
    Rpc.Net(c.client.(data := []), c.currentId, InFlight(c.up), c.working, InFlight(c.down), c.serverSeq, c.backs,
            c.issued, c.ids, c.serial, c.answered)
  }

  predicate Ends(c: Conn) {
    && c.client.pos == 0 && c.client.data == c.down.rest
    && c.server.finished == 0 && c.server.buffer == c.up.rest
    && (forall f <- c.up.submitted :: !ServerDecoder.IsBye(f))
  }

  ghost predicate Inv(c: Conn, service: Rpc.Service) {
    Link.Inv(c.up) && Link.Inv(c.down) && Ends(c) && Rpc.Inv(Abs(c), service)
  }

  /** A guarded run of `Rpc` between two of its states, in which the steps `told` are all but the arrivals. */
  ghost predicate Matches(n: Rpc.Net, m: Rpc.Net, service: Rpc.Service, told: seq<Rpc.Action>) {
    exists run :: Rpc.Runs(n, run, service) && Rpc.Guarded(n, run, service) && Rpc.Exec(n, run, service) == m
                  && RpcMessages.Told(run) == told
  }

  lemma MatchesNone(n: Rpc.Net, service: Rpc.Service)
    ensures Matches(n, n, service, [])
  {
    var none: seq<Rpc.Action> := [];
    assert RpcMessages.Told(none) == [];
    assert Rpc.Runs(n, none, service) && Rpc.Guarded(n, none, service) && Rpc.Exec(n, none, service) == n;
  }

  predicate Arrives(a: Rpc.Action) {
    a.ServerReceives? || a.ClientReceives?
  }

  lemma MatchesOne(n: Rpc.Net, a: Rpc.Action, service: Rpc.Service)
    requires Rpc.Enabled(n, a) && Rpc.Fresh(n, a)
    ensures Matches(n, Rpc.Apply(n, a, service), service, if Arrives(a) then [] else [a])
  {
    Rpc.RunsOne(n, a, service);
    var run := [a];
    assert Rpc.Guarded(n, run, service);
    assert run[1..] == [];
    assert RpcMessages.Told(run) == if Arrives(a) then [] else [a];
  }

  lemma {:induction false} GuardedConcat(n: Rpc.Net, a: seq<Rpc.Action>, b: seq<Rpc.Action>, service: Rpc.Service)
    requires Rpc.Runs(n, a, service) && Rpc.Guarded(n, a, service)
    requires Rpc.Runs(Rpc.Exec(n, a, service), b, service) && Rpc.Guarded(Rpc.Exec(n, a, service), b, service)
    requires Rpc.Runs(n, a + b, service)
    ensures Rpc.Guarded(n, a + b, service)
    decreases |a|
  {
    if a == [] {
      assert a + b == b;
    } else {
      assert (a + b)[1..] == a[1..] + b;
      GuardedConcat(Rpc.Apply(n, a[0], service), a[1..], b, service);
    }
  }

  lemma MatchesTwice(n: Rpc.Net, m: Rpc.Net, l: Rpc.Net, service: Rpc.Service, t: seq<Rpc.Action>, u: seq<Rpc.Action>)
    requires Matches(n, m, service, t) && Matches(m, l, service, u)
    ensures Matches(n, l, service, t + u)
  {
    var a :| Rpc.Runs(n, a, service) && Rpc.Guarded(n, a, service) && Rpc.Exec(n, a, service) == m && RpcMessages.Told(a) == t;
    var b :| Rpc.Runs(m, b, service) && Rpc.Guarded(m, b, service) && Rpc.Exec(m, b, service) == l && RpcMessages.Told(b) == u;
    Rpc.RunsConcat(n, a, b, service);
    GuardedConcat(n, a, b, service);
    RpcMessages.ToldConcat(a, b);
  }

  /** Arrivals only. */
  lemma MatchesQuietly(n: Rpc.Net, m: Rpc.Net, l: Rpc.Net, service: Rpc.Service)
    requires Matches(n, m, service, []) && Matches(m, l, service, [])
    ensures Matches(n, l, service, [])
  {
    var none: seq<Rpc.Action> := [];
    MatchesTwice(n, m, l, service, none, none);
    assert none + none == none;
  }

  lemma MatchesKeeps(n: Rpc.Net, m: Rpc.Net, service: Rpc.Service, told: seq<Rpc.Action>)
    requires Rpc.Inv(n, service) && Matches(n, m, service, told)
    ensures Rpc.Inv(m, service)
  {
    var a :| Rpc.Runs(n, a, service) && Rpc.Guarded(n, a, service) && Rpc.Exec(n, a, service) == m && RpcMessages.Told(a) == told;
    Rpc.RunKeepsInv(n, a, service);
  }

  // ---------------------------------------------------------------- arrivals

  /** Frames of the request stream are served one by one. */
  lemma {:induction false} ServerTakes(n: Rpc.Net, frames: seq<Frame>, tail: seq<Frame>, service: Rpc.Service)
    requires n.requests == frames + tail
    ensures var calls := ServerDecoder.Calls(frames);
            Matches(n, n.(requests := tail, working := n.working + JobsOf(calls), backs := n.backs + BacksOf(calls)), service, [])
    decreases |frames|
  {
    if frames == [] {
      assert frames + tail == tail && n.working + [] == n.working && n.backs + [] == n.backs;
      MatchesNone(n, service);
    } else {
      var f, rest := frames[0], frames[1..];
      assert (frames + tail)[1..] == rest + tail;
      var m := Rpc.DoServerReceives(n);
      MatchesOne(n, Rpc.ServerReceives, service);
      ServerTakes(m, rest, tail, service);
      CallsUncons(f, frames, rest);
      var calls := ServerDecoder.Calls(rest);
      JobsMove(n, m, f, calls);
      MatchesQuietly(n, m, m.(requests := tail, working := m.working + JobsOf(calls), backs := m.backs + BacksOf(calls)), service);
    }
  }

  lemma CallsUncons(f: Frame, frames: seq<Frame>, rest: seq<Frame>)
    requires frames != [] && f == frames[0] && rest == frames[1..]
    ensures ServerDecoder.Calls(frames) == [ServerDecoder.CallOf(f)] + ServerDecoder.Calls(rest)
  {
    assert frames == [f] + rest;
    ServerDecoder.CallsFirst(f, rest);
  }

  lemma CallMoves(call: ServerDecoder.Call, calls: seq<ServerDecoder.Call>)
    ensures JobsOf([call] + calls) == (if call.Processed? then [Rpc.Job(call.cid, call.payload)] else []) + JobsOf(calls)
    ensures BacksOf([call] + calls) == (if call.Buffered? then [call] else []) + BacksOf(calls)
  {
    assert ([call] + calls)[1..] == calls;
  }

  lemma Associates<T>(a: seq<T>, b: seq<T>, c: seq<T>)
    ensures (a + b) + c == a + (b + c)
  {
  }

  lemma JobsMove(n: Rpc.Net, m: Rpc.Net, f: Frame, calls: seq<ServerDecoder.Call>)
    requires n.requests != [] && n.requests[0] == f && m == Rpc.DoServerReceives(n)
    ensures m.working + JobsOf(calls) == n.working + JobsOf([ServerDecoder.CallOf(f)] + calls)
    ensures m.backs + BacksOf(calls) == n.backs + BacksOf([ServerDecoder.CallOf(f)] + calls)
  {
    var call := ServerDecoder.CallOf(f);
    CallMoves(call, calls);
    if call.Processed? {
      Associates(n.working, [Rpc.Job(call.cid, call.payload)], JobsOf(calls));
    } else {
      Associates(n.backs, [call], BacksOf(calls));
    }
  }

  /** Frames of the reply stream are served one by one. */
  lemma {:induction false} ClientTakes(n: Rpc.Net, c: Conn, frames: seq<Frame>, tail: seq<Frame>, service: Rpc.Service)
    requires Rpc.Inv(n, service) && n.replies == frames + tail
    requires c.client == n.client && c.serial == n.serial && c.answered == n.answered
    ensures Matches(n, n.(client := Serve(n.client, frames), replies := tail, answered := AnsweredBy(c, frames)), service, [])
    decreases |frames|
  {
    if frames == [] {
      assert frames + tail == tail;
      MatchesNone(n, service);
    } else {
      var f, rest := frames[0], frames[1..];
      assert (frames + tail)[1..] == rest + tail;
      var m := Rpc.DoClientReceives(n);
      MatchesOne(n, Rpc.ClientReceives, service);
      MatchesKeeps(n, m, service, []);
      var more := if Rpc.IsReply(f) && Known(c.client, f.cid) && f.cid in c.serial then [c.serial[f.cid]] else [];
      var d := c.(client := OnFrame(c.client, f), answered := c.answered + more);
      assert d.answered == m.answered;
      ClientTakes(m, d, rest, tail, service);
      MatchesQuietly(n, m, m.(client := Serve(m.client, rest), replies := tail, answered := AnsweredBy(d, rest)), service);
    }
  }

  lemma FrontOf(submitted: seq<Frame>, delivered: seq<Frame>, frames: seq<Frame>)
    requires delivered + frames <= submitted
    ensures submitted[|delivered|..] == frames + submitted[|delivered + frames|..]
  {
    assert submitted[..|delivered + frames|] == delivered + frames;
  }

  /** What a chunk adds to the frames delivered is the front of those in flight. */
  lemma ArrivalFront(n: Link.Net, k: nat)
    requires Link.Inv(n) && Link.Enabled(n, Link.Arrive(k))
    ensures var m := Link.Apply(n, Link.Arrive(k)); var p := Parse(n.rest + n.wire[..k]);
            && Link.Inv(m) && !p.bad && m.rest == p.rest && m.submitted == n.submitted
            && |n.delivered| <= |n.submitted| && InFlight(n) == p.frames + InFlight(m)
  {
    var m := Link.Apply(n, Link.Arrive(k));
    Link.InvStep(n, Link.Arrive(k));
    Delivers(n);
    Delivers(m);
    FrontOf(n.submitted, n.delivered, Parse(n.rest + n.wire[..k]).frames);
  }

  lemma Delivers(n: Link.Net)
    requires Link.Inv(n)
    ensures n.delivered <= n.submitted && Look(n.rest).Wait?
  {
    var missing := Link.Missing(n, 0);
    assert n.received + n.wire[..0] == n.received;
    PrefixParses(n.submitted, n.received, missing);
    RestWaits(n.received);
  }

  // ---------------------------------------------------------------- each step is a run of Rpc

  lemma SubmitAppends(n: Link.Net, f: Frame)
    requires Link.Inv(n) && Link.Enabled(n, Link.Submit(f))
    ensures var m := Link.Apply(n, Link.Submit(f));
            Link.Inv(m) && InFlight(m) == InFlight(n) + [f] && m.rest == n.rest && m.submitted == n.submitted + [f]
  {
    Link.InvStep(n, Link.Submit(f));
    Delivers(n);
  }

  lemma OtherStays(n: Link.Net, a: Link.Action)
    requires Link.Inv(n) && Link.Enabled(n, a) && !a.Submit? && !a.Arrive?
    ensures var m := Link.Apply(n, a);
            Link.Inv(m) && InFlight(m) == InFlight(n) && m.rest == n.rest && m.submitted == n.submitted
  {
    Link.InvStep(n, a);
  }

  /** The bytes the server receives are decoded into the calls for the frames they hold. */
  lemma Called(server: ServerDecoder.Server, chunk: seq<Byte>, p: Parsed)
    requires p == Parse(server.buffer + chunk) && !p.bad && ServerDecoder.BeforeBye(p.frames) == p.frames
    requires server.finished == 0 && |server.buffer| + |chunk| <= ServerDecoder.LIMIT
    ensures ServerDecoder.Receive(server, chunk)
            == ServerDecoder.Server(p.rest, 0, server.log + ServerDecoder.Calls(p.frames))
  {
    ServerDecoder.DrainDecodes(server.(buffer := server.buffer + chunk));
  }

  lemma ServerArrives(c: Conn, k: nat, service: Rpc.Service)
    requires Link.Inv(c.up) && Ends(c) && Enabled(c, Up(Link.Arrive(k)), service)
    ensures var d := Apply(c, Up(Link.Arrive(k)), service);
            Link.Inv(d.up) && Ends(d) && Matches(Abs(c), Abs(d), service, [])
  {
    var d := Apply(c, Up(Link.Arrive(k)), service);
    var p := Parse(c.up.rest + c.up.wire[..k]);
    ArrivalFront(c.up, k);
    NoByes(c.up, p.frames);
    Called(c.server, c.up.wire[..k], p);
    assert d.server.log[|c.server.log|..] == ServerDecoder.Calls(p.frames);
    ServerTakes(Abs(c), p.frames, InFlight(d.up), service);
  }

  lemma NoByes(n: Link.Net, frames: seq<Frame>)
    requires |n.delivered| <= |n.submitted| && frames <= InFlight(n) && forall f <- n.submitted :: !ServerDecoder.IsBye(f)
    ensures ServerDecoder.BeforeBye(frames) == frames
  {
    forall f | f in frames ensures !ServerDecoder.IsBye(f) {
      var i :| 0 <= i < |frames| && frames[i] == f;
      assert InFlight(n)[i] == f && n.submitted[|n.delivered| + i] == f;
    }
    ServerDecoder.BeforeByeMeans(frames);
  }

  lemma ClientArrives(c: Conn, k: nat, service: Rpc.Service)
    requires Inv(c, service) && Enabled(c, Down(Link.Arrive(k)), service)
    ensures var d := Apply(c, Down(Link.Arrive(k)), service);
            Link.Inv(d.down) && Ends(d) && Matches(Abs(c), Abs(d), service, [])
  {
    var d := Apply(c, Down(Link.Arrive(k)), service);
    Link.InvStep(c.down, Link.Arrive(k));
    ArrivalFront(c.down, k);
    var p := Parse(c.down.rest + c.down.wire[..k]);
    var n, bare := Abs(c), c.(client := c.client.(data := []));
    ClientTakes(n, bare, p.frames, InFlight(d.down), service);
    var m := n.(client := Serve(n.client, p.frames), replies := InFlight(d.down), answered := AnsweredBy(bare, p.frames));
    MatchesKeeps(n, m, service, []);
    Served(c, k, p);
    AnsweredIgnoresData(c, [], p.frames);
    assert m == Abs(d);
  }

  lemma {:induction false} AnsweredIgnoresData(c: Conn, data: seq<Byte>, frames: seq<Frame>)
    ensures AnsweredBy(c.(client := c.client.(data := data)), frames) == AnsweredBy(c, frames)
    decreases |frames|
  {
    if frames != [] {
      var f := frames[0];
      var more := if Rpc.IsReply(f) && Known(c.client, f.cid) && f.cid in c.serial then [c.serial[f.cid]] else [];
      var d := c.(client := OnFrame(c.client, f), answered := c.answered + more);
      var d' := d.(client := OnFrame(c.client.(data := data), f));
      assert d' == d || d' == d.(client := d.client.(data := data));
      AnsweredIgnoresData(d, data, frames[1..]);
    }
  }

  /** The bytes the client receives are served as the frames they hold. */
  lemma Served(c: Conn, k: nat, p: Parsed)
    requires k <= |c.down.wire| && p == Parse(c.down.rest + c.down.wire[..k]) && !p.bad
    requires c.client.pos == 0 && c.client.data == c.down.rest && !c.client.closed
    requires !Serve(c.client.(data := []), p.frames).closed
    ensures var r := ClientDecoder.Receive(c.client, c.down.wire[..k], true);
            r.data == p.rest && r.pos == 0 && r.(data := []) == Serve(c.client.(data := []), p.frames)
  {
    var now := c.client.(data := c.client.data + c.down.wire[..k]);
    DrainIsReference(now);
    ServeIgnoresData(now, [], p.frames);
    ServeKeepsPos(now, p.frames);
  }

  /** The step of `Rpc` that a message is. */
  function Message(s: Step): Rpc.Action
    requires !s.Up? && !s.Down?
  {
    match s
    case Ask(r) => Rpc.Send(r)
    case Answer(i) => Rpc.Complete(i)
    case Notify(p) => Rpc.ServerPushes(p)
    case AskBack(id, p) => Rpc.ServerAsks(id, p)
    case AnswerBack(id, p) => Rpc.ClientReplies(id, p)
  }

  function Messages(steps: seq<Step>): seq<Rpc.Action> {
    if steps == [] then []
    else if steps[0].Up? || steps[0].Down? then Messages(steps[1..])
    else [Message(steps[0])] + Messages(steps[1..])
  }

  lemma MessagesFirst(s: Step, rest: seq<Step>)
    ensures Messages([s] + rest) == Messages([s]) + Messages(rest)
  {
    assert ([s] + rest)[1..] == rest && [s][1..] == [];
  }

  lemma DownMessage(c: Conn, f: Frame)
    requires Link.Inv(c.down) && Ends(c) && Link.Enabled(c.down, Link.Submit(f))
    ensures var d := c.(down := Link.Apply(c.down, Link.Submit(f)));
            Link.Inv(d.down) && Ends(d) && Abs(d) == Abs(c).(replies := Abs(c).replies + [f])
  {
    SubmitAppends(c.down, f);
  }

  lemma UpMessage(c: Conn, f: Frame)
    requires Link.Inv(c.up) && Ends(c) && Link.Enabled(c.up, Link.Submit(f)) && f.cid != 0
    ensures var d := c.(up := Link.Apply(c.up, Link.Submit(f)));
            Link.Inv(d.up) && Ends(d) && Abs(d) == Abs(c).(requests := Abs(c).requests + [f])
  {
    SubmitAppends(c.up, f);
  }

  lemma AskMatches(c: Conn, r: Rpc.Request, service: Rpc.Service)
    requires Inv(c, service) && Enabled(c, Ask(r), service)
    ensures var d := Apply(c, Ask(r), service);
            Link.Inv(d.up) && Ends(d) && Matches(Abs(c), Abs(d), service, [Rpc.Send(r)])
  {
    UpMessage(c, AskFrame(c, r));
    assert Abs(Apply(c, Ask(r), service)) == Rpc.DoSend(Abs(c), r);
    MatchesOne(Abs(c), Rpc.Send(r), service);
  }

  lemma AnswerAbs(c: Conn, i: nat, service: Rpc.Service, f: Frame)
    requires Link.Inv(c.down) && Ends(c) && i < |c.working| && f == AnswerFrame(c, i, service)
    requires Link.Enabled(c.down, Link.Submit(f))
    ensures var d := c.(down := Link.Apply(c.down, Link.Submit(f)), working := Rpc.Removed(c.working, i),
                        serverSeq := (c.serverSeq + 1) % U32);
            Link.Inv(d.down) && Ends(d) && Abs(d) == Rpc.DoComplete(Abs(c), i, service)
  {
    DownMessage(c, f);
  }

  lemma MatchesComplete(n: Rpc.Net, i: nat, service: Rpc.Service)
    requires i < |n.working|
    ensures Matches(n, Rpc.DoComplete(n, i, service), service, [Rpc.Complete(i)])
  {
    MatchesOne(n, Rpc.Complete(i), service);
  }

  lemma AnswerMatches(c: Conn, i: nat, service: Rpc.Service)
    requires Link.Inv(c.down) && Ends(c) && Enabled(c, Answer(i), service)
    ensures var d := Apply(c, Answer(i), service);
            Link.Inv(d.down) && Ends(d) && Matches(Abs(c), Abs(d), service, [Rpc.Complete(i)])
  {
    AnswerAbs(c, i, service, AnswerFrame(c, i, service));
    MatchesComplete(Abs(c), i, service);
  }

  /** Messages of the other kinds. */
  lemma MessageMatches(c: Conn, s: Step, service: Rpc.Service)
    requires Inv(c, service) && Enabled(c, s, service) && (s.Notify? || s.AskBack? || s.AnswerBack?)
    ensures var d := Apply(c, s, service);
            Link.Inv(d.up) && Link.Inv(d.down) && Ends(d) && Matches(Abs(c), Abs(d), service, [Message(s)])
  {
    match s
    case Notify(p) =>
      DownMessage(c, Frame(0, 0, 0, p));
      MatchesOne(Abs(c), Rpc.ServerPushes(p), service);
    case AskBack(id, p) =>
      DownMessage(c, Frame(CLIENT_MODE, id, 0, p));
      MatchesOne(Abs(c), Rpc.ServerAsks(id, p), service);
    case AnswerBack(id, p) =>
      UpMessage(c, Frame(CLIENT_MODE, id, 0, p));
      MatchesOne(Abs(c), Rpc.ClientReplies(id, p), service);
  }

  lemma LinkMatches(c: Conn, s: Step, service: Rpc.Service)
    requires Inv(c, service) && Enabled(c, s, service) && (s.Up? || s.Down?) && !s.a.Arrive?
    ensures var d := Apply(c, s, service);
            Link.Inv(d.up) && Link.Inv(d.down) && Ends(d) && Abs(d) == Abs(c)
  {
    if s.Up? { OtherStays(c.up, s.a); } else { OtherStays(c.down, s.a); }
  }

  lemma MessageOne(s: Step)
    ensures Messages([s]) == if s.Up? || s.Down? then [] else [Message(s)]
  {
    assert [s][1..] == [];
  }

  lemma StepEnds(c: Conn, s: Step, service: Rpc.Service)
    requires Inv(c, service) && Enabled(c, s, service)
    ensures var d := Apply(c, s, service);
            Link.Inv(d.up) && Link.Inv(d.down) && Ends(d)
            && Matches(Abs(c), Abs(d), service, if s.Up? || s.Down? then [] else [Message(s)])
  {
    match s {
      case Ask(r) => AskMatches(c, r, service);
      case Answer(i) => AnswerMatches(c, i, service);
      case Notify(_) => MessageMatches(c, s, service);
      case AskBack(_, _) => MessageMatches(c, s, service);
      case AnswerBack(_, _) => MessageMatches(c, s, service);
      case Up(a) =>
        if a.Arrive? { ServerArrives(c, a.count, service); } else { LinkMatches(c, s, service); MatchesNone(Abs(c), service); }
      case Down(a) =>
        if a.Arrive? { ClientArrives(c, a.count, service); } else { LinkMatches(c, s, service); MatchesNone(Abs(c), service); }
    }
  }

  lemma StepMatches(c: Conn, s: Step, service: Rpc.Service)
    requires Inv(c, service) && Enabled(c, s, service)
    ensures Matches(Abs(c), Abs(Apply(c, s, service)), service, Messages([s])) && Inv(Apply(c, s, service), service)
  {
    StepEnds(c, s, service);
    MessageOne(s);
    MatchesKeeps(Abs(c), Abs(Apply(c, s, service)), service, Messages([s]));
  }

  // ---------------------------------------------------------------- runs

  /** Runs of the whole connection; `pos` is always 0 between steps. */
  predicate Runs(c: Conn, steps: seq<Step>, service: Rpc.Service)
    decreases |steps|
  {
    steps == []
    || (Enabled(c, steps[0], service) && c.client.pos <= |c.client.data| && Runs(Apply(c, steps[0], service), steps[1..], service))
  }

  function Exec(c: Conn, steps: seq<Step>, service: Rpc.Service): Conn
    requires Runs(c, steps, service)
    decreases |steps|
  {
    if steps == [] then c else Exec(Apply(c, steps[0], service), steps[1..], service)
  }

  lemma InitInv(service: Rpc.Service)
    ensures Inv(Init(), service) && Abs(Init()) == Rpc.Init()
  {
    Link.InitInv();
    Rpc.InitInv(service);
  }

  lemma {:induction false} RunMatches(c: Conn, steps: seq<Step>, service: Rpc.Service)
    requires Inv(c, service) && Runs(c, steps, service)
    ensures Inv(Exec(c, steps, service), service)
    ensures Matches(Abs(c), Abs(Exec(c, steps, service)), service, Messages(steps))
    decreases |steps|
  {
    if steps == [] {
      MatchesNone(Abs(c), service);
    } else {
      var d := Apply(c, steps[0], service);
      StepMatches(c, steps[0], service);
      RunMatches(d, steps[1..], service);
      var end := Exec(d, steps[1..], service);
      MatchesMore(Abs(c), Abs(d), Abs(end), service, steps);
    }
  }

  lemma MatchesMore(n: Rpc.Net, m: Rpc.Net, l: Rpc.Net, service: Rpc.Service, steps: seq<Step>)
    requires steps != [] && Matches(n, m, service, Messages([steps[0]])) && Matches(m, l, service, Messages(steps[1..]))
    ensures Matches(n, l, service, Messages(steps))
  {
    MatchesTwice(n, m, l, service, Messages([steps[0]]), Messages(steps[1..]));
    MessagesFirst(steps[0], steps[1..]);
    assert steps == [steps[0]] + steps[1..];
  }

  /**
   Every run of the connection, byte by byte in both directions, is a guarded run of request and
   reply on frames, with the same messages in the same order; the streams of that are the frames
   submitted to the links and not delivered.
   */
  lemma ConnectionRefinesRpc(steps: seq<Step>, service: Rpc.Service)
    requires Runs(Init(), steps, service)
    ensures var c := Exec(Init(), steps, service);
            exists run :: Rpc.Runs(Rpc.Init(), run, service) && Rpc.Guarded(Rpc.Init(), run, service)
                          && Rpc.Exec(Rpc.Init(), run, service) == Abs(c) && RpcMessages.Told(run) == Messages(steps)
  {
    InitInv(service);
    RunMatches(Init(), steps, service);
  }

  /**
   So, whatever the interleaving of the two write loops, the pipes' chunks and the server's work:
   neither side closes, and the callbacks that have run are those of different requests, each with
   the reply computed for its own request.
   */
  lemma RepliesMatchOverBytes(steps: seq<Step>, service: Rpc.Service)
    requires Runs(Init(), steps, service)
    ensures var c := Exec(Init(), steps, service);
            var answers := Rpc.Answers(c.client.log);
            && !c.client.closed && c.server.finished == 0
            && |answers| == |c.answered|
            && (forall i :: 0 <= i < |c.answered| ==>
                  c.answered[i] < |c.issued| && answers[i] == Rpc.OwnReply(c.issued, service, c.answered[i]))
            && (forall i, j :: 0 <= i < j < |c.answered| ==> c.answered[i] != c.answered[j])
  {
    InitInv(service);
    RunMatches(Init(), steps, service);
  }

  /** The last frame submitted, if any, has a payload. */
  predicate Ended(n: Link.Net) {
    n.submitted != [] ==> n.submitted[|n.submitted| - 1].payload != []
  }

  /** When both links are quiet and the server has no work, every request has been answered. */
  lemma QuietMeansAnswered(steps: seq<Step>, service: Rpc.Service)
    requires Runs(Init(), steps, service)
    ensures var c := Exec(Init(), steps, service);
            Link.Quiet(c.up) && Link.Quiet(c.down) && c.working == [] && Ended(c.up) && Ended(c.down) ==>
              c.client.cobs == map[] && forall k :: 0 <= k < |c.issued| ==> k in c.answered
  {
    InitInv(service);
    RunMatches(Init(), steps, service);
    var c := Exec(Init(), steps, service);
    if Link.Quiet(c.up) && Link.Quiet(c.down) && c.working == [] && Ended(c.up) && Ended(c.down) {
      QuietDelivers(c.up);
      QuietDelivers(c.down);
      ConnectionRefinesRpc(steps, service);
      var run :| Rpc.Runs(Rpc.Init(), run, service) && Rpc.Guarded(Rpc.Init(), run, service)
                 && Rpc.Exec(Rpc.Init(), run, service) == Abs(c);
      Rpc.IdleMeansAnswered(run, service);
    }
  }

  lemma QuietDelivers(n: Link.Net)
    requires Link.Inv(n) && Link.Quiet(n) && Ended(n)
    ensures InFlight(n) == []
  {
    Link.QuietIsDrained(n);
    assert n.received == EncodeAll(n.submitted);
    RoundTrip(n.submitted);
  }

  // ---------------------------------------------------------------- messages of all kinds

  function NotesOf(steps: seq<Step>): seq<seq<Byte>> {
    if steps == [] then [] else if steps[0].Notify? then [steps[0].payload] + NotesOf(steps[1..]) else NotesOf(steps[1..])
  }

  function AsksBackOf(steps: seq<Step>): seq<Rpc.Job> {
    if steps == [] then []
    else if steps[0].AskBack? then [Rpc.Job(steps[0].id, steps[0].payload)] + AsksBackOf(steps[1..]) else AsksBackOf(steps[1..])
  }

  function AnswersBackOf(steps: seq<Step>): seq<Rpc.Job> {
    if steps == [] then []
    else if steps[0].AnswerBack? then [Rpc.Job(steps[0].id, steps[0].payload)] + AnswersBackOf(steps[1..]) else AnswersBackOf(steps[1..])
  }

  lemma {:induction false} NotesInMessages(steps: seq<Step>)
    ensures RpcMessages.PushesOf(Messages(steps)) == NotesOf(steps)
  {
    if steps != [] {
      var s, rest := steps[0], steps[1..];
      NotesInMessages(rest);
      if !s.Up? && !s.Down? {
        RpcMessages.PushesFirst(Message(s), Messages(rest));
        SentOne(s);
      }
    }
  }

  lemma {:induction false} AsksInMessages(steps: seq<Step>)
    ensures RpcMessages.AsksOf(Messages(steps)) == AsksBackOf(steps)
  {
    if steps != [] {
      var s, rest := steps[0], steps[1..];
      AsksInMessages(rest);
      if !s.Up? && !s.Down? {
        RpcMessages.AsksFirst(Message(s), Messages(rest));
        SentOne(s);
      }
    }
  }

  lemma {:induction false} AnswersInMessages(steps: seq<Step>)
    ensures RpcMessages.BacksOf(Messages(steps)) == AnswersBackOf(steps)
  {
    if steps != [] {
      var s, rest := steps[0], steps[1..];
      AnswersInMessages(rest);
      if !s.Up? && !s.Down? {
        RpcMessages.BacksFirst(Message(s), Messages(rest));
        SentOne(s);
      }
    }
  }

  lemma SentOne(s: Step)
    requires !s.Up? && !s.Down?
    ensures RpcMessages.PushesOf([Message(s)]) == if s.Notify? then [s.payload] else []
    ensures RpcMessages.AsksOf([Message(s)]) == if s.AskBack? then [Rpc.Job(s.id, s.payload)] else []
    ensures RpcMessages.BacksOf([Message(s)]) == if s.AnswerBack? then [Rpc.Job(s.id, s.payload)] else []
  {
    assert [Message(s)][1..] == [];
  }

  /**
   Over every run of the connection, byte by byte: the client's processor was handed, in order, the
   messages the server notified and the requests it asked, those under their ids, and the server got
   the answers of the client under theirs; in each case less the frames still in flight.
   */
  lemma MessagesArriveAsSent(steps: seq<Step>, service: Rpc.Service)
    requires Runs(Init(), steps, service)
    ensures var c := Exec(Init(), steps, service);
            && RpcMessages.PushedIn(c.client.log) + RpcMessages.PushFrames(InFlight(c.down)) == NotesOf(steps)
            && RpcMessages.AskedIn(c.client.log) + RpcMessages.AskFrames(InFlight(c.down)) == AsksBackOf(steps)
            && RpcMessages.BufferedIn(c.backs) + RpcMessages.BackFrames(InFlight(c.up)) == AnswersBackOf(steps)
  {
    ConnectionRefinesRpc(steps, service);
    var c := Exec(Init(), steps, service);
    var run :| Rpc.Runs(Rpc.Init(), run, service) && Rpc.Guarded(Rpc.Init(), run, service)
               && Rpc.Exec(Rpc.Init(), run, service) == Abs(c) && RpcMessages.Told(run) == Messages(steps);
    RpcMessages.MessagesHandledAsSent(run, service);
    RpcMessages.SentIsTold(run);
    NotesInMessages(steps);
    AsksInMessages(steps);
    AnswersInMessages(steps);
  }

  // ---------------------------------------------------------------- the headers

  function Replies(frames: seq<Frame>): seq<Frame> {
    if frames == [] then []
    else
      var last := frames[|frames| - 1];
      Replies(frames[..|frames| - 1]) + if last.version != CLIENT_MODE && last.cid != 0 then [last] else []
  }

  function Requests(frames: seq<Frame>): seq<Frame> {
    if frames == [] then []
    else
      var last := frames[|frames| - 1];
      Requests(frames[..|frames| - 1]) + if last.version != CLIENT_MODE then [last] else []
  }

  predicate Numbers(rs: seq<Frame>, serverSeq: u32) {
    serverSeq == |rs| % U32 && forall k :: 0 <= k < |rs| ==> rs[k].version == 0 && rs[k].sid == k % U32
  }

  predicate RepliesNumbered(frames: seq<Frame>, serverSeq: u32) {
    Numbers(Replies(frames), serverSeq)
  }

  predicate RequestsMarked(frames: seq<Frame>, issued: seq<Rpc.Request>, ids: seq<u32>) {
    var qs := Requests(frames);
    |qs| == |issued| == |ids| && forall k :: 0 <= k < |qs| ==> qs[k] == Frame(0, ids[k], 0, issued[k].payload)
  }

  lemma FilterMore(frames: seq<Frame>, f: Frame)
    ensures Replies(frames + [f]) == Replies(frames) + if f.version != CLIENT_MODE && f.cid != 0 then [f] else []
    ensures Requests(frames + [f]) == Requests(frames) + if f.version != CLIENT_MODE then [f] else []
  {
    assert (frames + [f])[..|frames|] == frames;
  }

  lemma CountNext(n: nat)
    ensures (n + 1) % U32 == (n % U32 + 1) % U32
  {
  }

  lemma NumbersMore(rs: seq<Frame>, serverSeq: u32, f: Frame)
    requires Numbers(rs, serverSeq) && f.version == 0 && f.sid == serverSeq
    ensures Numbers(rs + [f], (serverSeq + 1) % U32)
  {
    CountNext(|rs|);
  }

  lemma ReplyMore(frames: seq<Frame>, serverSeq: u32, f: Frame)
    requires RepliesNumbered(frames, serverSeq)
    requires f.version == 0 && f.cid != 0 && f.sid == serverSeq
    ensures RepliesNumbered(frames + [f], (serverSeq + 1) % U32)
  {
    FilterMore(frames, f);
    NumbersMore(Replies(frames), serverSeq, f);
  }

  lemma NoReplyMore(frames: seq<Frame>, serverSeq: u32, f: Frame)
    requires RepliesNumbered(frames, serverSeq) && (f.version == CLIENT_MODE || f.cid == 0)
    ensures RepliesNumbered(frames + [f], serverSeq)
  {
    FilterMore(frames, f);
    assert Replies(frames) + [] == Replies(frames);
  }

  lemma RequestMore(frames: seq<Frame>, issued: seq<Rpc.Request>, ids: seq<u32>, r: Rpc.Request, id: u32)
    requires RequestsMarked(frames, issued, ids)
    ensures RequestsMarked(frames + [Frame(0, id, 0, r.payload)], issued + [r], ids + [id])
  {
    FilterMore(frames, Frame(0, id, 0, r.payload));
  }

  lemma NoRequestMore(frames: seq<Frame>, issued: seq<Rpc.Request>, ids: seq<u32>, f: Frame)
    requires RequestsMarked(frames, issued, ids) && f.version == CLIENT_MODE
    ensures RequestsMarked(frames + [f], issued, ids)
  {
    FilterMore(frames, f);
  }

  lemma WorkingNonZero(c: Conn, i: nat, service: Rpc.Service)
    requires Rpc.Inv(Abs(c), service) && i < |c.working|
    ensures c.working[i].cid != 0
  {
    assert c.working[i] in Abs(c).working;
  }

  lemma DownHeaders(c: Conn, s: Step, service: Rpc.Service)
    requires Rpc.Inv(Abs(c), service) && c.client.pos <= |c.client.data| && Enabled(c, s, service)
    requires RepliesNumbered(c.down.submitted, c.serverSeq)
    ensures var d := Apply(c, s, service); RepliesNumbered(d.down.submitted, d.serverSeq)
  {
    match s
    case Answer(i) =>
      WorkingNonZero(c, i, service);
      ReplyMore(c.down.submitted, c.serverSeq, AnswerFrame(c, i, service));
    case Notify(p) => NoReplyMore(c.down.submitted, c.serverSeq, Frame(0, 0, 0, p));
    case AskBack(id, p) => NoReplyMore(c.down.submitted, c.serverSeq, Frame(CLIENT_MODE, id, 0, p));
    case _ =>
  }

  lemma UpHeaders(c: Conn, s: Step, service: Rpc.Service)
    requires c.client.pos <= |c.client.data| && Enabled(c, s, service)
    requires RequestsMarked(c.up.submitted, c.issued, c.ids)
    ensures var d := Apply(c, s, service); RequestsMarked(d.up.submitted, d.issued, d.ids)
  {
    match s
    case Ask(r) => RequestMore(c.up.submitted, c.issued, c.ids, r, ClientChannels.NextId(c.currentId));
    case AnswerBack(id, p) => NoRequestMore(c.up.submitted, c.issued, c.ids, Frame(CLIENT_MODE, id, 0, p));
    case _ =>
  }

  lemma {:induction false} HeadersRun(c: Conn, steps: seq<Step>, service: Rpc.Service)
    requires Inv(c, service) && Runs(c, steps, service)
    requires RepliesNumbered(c.down.submitted, c.serverSeq) && RequestsMarked(c.up.submitted, c.issued, c.ids)
    ensures var d := Exec(c, steps, service);
            RepliesNumbered(d.down.submitted, d.serverSeq) && RequestsMarked(d.up.submitted, d.issued, d.ids)
    decreases |steps|
  {
    if steps != [] {
      DownHeaders(c, steps[0], service);
      UpHeaders(c, steps[0], service);
      StepMatches(c, steps[0], service);
      HeadersRun(Apply(c, steps[0], service), steps[1..], service);
    }
  }

  lemma NoHeaders(down: seq<Frame>, up: seq<Frame>)
    requires down == up == []
    ensures RepliesNumbered(down, 0) && RequestsMarked(up, [], [])
  {
  }

  /**
   Over every run: the replies the server has sent are numbered 0, 1, 2 and so on modulo 2^32, and
   the requests of the client bear the ids they were given and no number.
   */
  lemma HeadersAsSent(steps: seq<Step>, service: Rpc.Service)
    requires Runs(Init(), steps, service)
    ensures var c := Exec(Init(), steps, service);
            RepliesNumbered(c.down.submitted, c.serverSeq) && RequestsMarked(c.up.submitted, c.issued, c.ids)
  {
    InitInv(service);
    var c := Init();
    NoHeaders(c.down.submitted, c.up.submitted);
    HeadersRun(c, steps, service);
  }
}
