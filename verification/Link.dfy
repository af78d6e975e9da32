/** One direction of a connection, end to end, when no write fails. */
module Link {
  import opened Wire
  import opened RingBuffers
  import opened LocalSockets

  /**
   The sender's slicing loop, the socket's queue, semaphore and write loop, a pipe that delivers
   bytes in chunks of any size, and the decoder; every interleaving of their steps is a run.

   `outbox` holds the slices of the current message that are not in the queue yet; `owed` says
   that a slice was pushed but ReleaseSemaphore has not been called for it; `io` that the worker
   has been woken by a completion routine and has not acted on it.
   */
  datatype Net = Net(
    sock: Sock, owed: bool, io: bool, completed: nat,
    submitted: seq<Frame>, outbox: seq<seq<Byte>>,
    wire: seq<Byte>, received: seq<Byte>, rest: seq<Byte>, delivered: seq<Frame>, bad: bool)

  datatype Action =
    | Submit(frame: Frame)
    | Push
    | Release
    | Take
    | ReadDone
    | WriteDone
    | Handle
    | Arrive(count: nat)

  function Init(): Net {
    Net(Sock(ConnectedState, [], 0, false, true, []), false, false, 0, [], [], [], [], [], [], false)
  }

  /** What the pipe carries after the worker has turned `s` into `t`. */
  function Carried(s: Sock, t: Sock): seq<Byte> {
    if |s.sent| < |t.sent| then t.sent[|t.sent|-1] else []
  }

  function Worked(n: Net, s: Sock): Net {
    var t := Drained(s);
    n.(sock := t, wire := n.wire + Carried(s, t))
  }

  predicate Enabled(n: Net, a: Action) {
    match a
    case Submit(f) => Sendable(f) && n.outbox == [] && !n.owed
    case Push => n.outbox != [] && !n.owed && |n.sock.queue| < CAPACITY
    case Release => n.owed
    case Take => n.sock.sem > 0 && !n.io
    case ReadDone => true
    case WriteDone => n.sock.writing
    case Handle => n.io
    case Arrive(k) => 0 < k <= |n.wire| && !n.bad
  }

  function Apply(n: Net, a: Action): Net
    requires Enabled(n, a)
  {
    match a
    case Submit(f) => n.(submitted := n.submitted + [f], outbox := Slices(Encode(f)))
    case Push => n.(sock := n.sock.(queue := n.sock.queue + [n.outbox[0]]), outbox := n.outbox[1..], owed := true)
    case Release => n.(sock := n.sock.(sem := Released(n.sock.sem)), owed := false)
    case Take => Worked(n, n.sock.(sem := n.sock.sem - 1))
    case ReadDone => n.(io := true)
    case WriteDone => n.(sock := n.sock.(writing := false), io := true, completed := n.completed + 1)
    case Handle => Worked(n.(io := false), n.sock)
    case Arrive(k) =>
      var p := Parse(n.rest + n.wire[..k]);
      n.(wire := n.wire[k..], received := n.received + n.wire[..k],
         rest := p.rest, delivered := n.delivered + p.frames, bad := p.bad)
  }

  /** The two steps of a write: queueing the chunk and raising the semaphore. */
  lemma WriteIsPushAndRelease(n: Net)
    requires Enabled(n, Push)
    ensures var pushed := Apply(n, Push);
            && Enabled(pushed, Release)
            && Apply(pushed, Release).sock == Pushed(n.sock, [n.outbox[0]])
            && Apply(pushed, Release).outbox == n.outbox[1..]
  {
  }

  /** A completion of either kind turns the loop once: with nothing in flight the oldest chunk is written. */
  lemma CompletionWrites(n: Net, a: Action)
    requires Enabled(n, a) && (a.ReadDone? || a.WriteDone?)
    requires n.sock.state.ConnectedState? && n.sock.success && Fit(n.sock.queue)
    ensures var m := Apply(n, a);
            && Enabled(m, Handle)
            && (var w := Apply(m, Handle);
                if n.sock.queue == [] || (a.ReadDone? && n.sock.writing) then w.wire == n.wire && w.sock == m.sock
                else w.wire == n.wire + n.sock.queue[0] && w.sock.queue == n.sock.queue[1..] && w.sock.writing)
  {
    var s := Apply(n, a).sock;
    if s.queue != [] { assert 1 <= |s.queue[0]| <= SLICE; }
  }

  predicate Runs(n: Net, actions: seq<Action>)
    decreases |actions|
  {
    actions == [] || (Enabled(n, actions[0]) && Runs(Apply(n, actions[0]), actions[1..]))
  }

  function Exec(n: Net, actions: seq<Action>): Net
    requires Runs(n, actions)
    decreases |actions|
  {
    if actions == [] then n else Exec(Apply(n, actions[0]), actions[1..])
  }

  // ---------------------------------------------------------------- invariant

  predicate Fit(slices: seq<seq<Byte>>) {
    forall i :: 0 <= i < |slices| ==> 1 <= |slices[i]| <= SLICE
  }

  /** Sizes and flags: what makes the drop branches of the write loop unreachable. */
  predicate Shape(n: Net) {
    && n.sock.state.ConnectedState? && n.sock.success
    && |n.sock.queue| <= CAPACITY && n.sock.sem <= MAX_SEM
    && Fit(n.sock.queue) && Fit(n.outbox)
    && |n.sock.sent| == n.completed + (if n.sock.writing then 1 else 0)
  }

  /** A queued chunk is never forgotten. */
  predicate Awake(n: Net) {
    n.sock.queue != [] ==> n.sock.writing || n.sock.sem > 0 || n.owed || n.io
  }

  /** Every byte of every frame is in exactly one place, in order. */
  predicate Conserved(n: Net) {
    && AllSendable(n.submitted)
    && Flatten(n.sock.sent) + Flatten(n.sock.queue) + Flatten(n.outbox) == EncodeAll(n.submitted)
    && Flatten(n.sock.sent) == n.received + n.wire
  }

  predicate Decoded(n: Net) {
    !n.bad && Parse(n.received) == Parsed(n.delivered, n.rest, false)
  }

  predicate Inv(n: Net) {
    Shape(n) && Awake(n) && Conserved(n) && Decoded(n)
  }

  lemma ShapeWork(n: Net, s: Sock)
    requires Shape(n) && s.(sem := n.sock.sem) == n.sock && s.sem <= MAX_SEM
    ensures Shape(Worked(n, s))
  {
  }

  lemma ShapeStep(n: Net, a: Action)
    requires Shape(n) && Enabled(n, a)
    ensures Shape(Apply(n, a))
  {
    match a
    case Submit(f) => SlicesFit(Encode(f));
    case Take => ShapeWork(n, n.sock.(sem := n.sock.sem - 1));
    case Handle => ShapeWork(n.(io := false), n.sock);
    case _ =>
  }

  lemma AwakeStep(n: Net, a: Action)
    requires Shape(n) && Awake(n) && Enabled(n, a)
    ensures Awake(Apply(n, a))
  {
  }

  lemma FlattenOne(s: seq<Byte>)
    ensures Flatten([s]) == s
  {
    assert [s][1..] == [] && s + [] == s;
  }

  lemma FlattenMove(a: seq<seq<Byte>>, b: seq<seq<Byte>>)
    requires b != []
    ensures Flatten(a + [b[0]]) == Flatten(a) + b[0]
    ensures Flatten(a + [b[0]]) + Flatten(b[1..]) == Flatten(a) + Flatten(b)
  {
    FlattenConcat(a, [b[0]]);
    FlattenOne(b[0]);
    assert Flatten(a) + b[0] + Flatten(b[1..]) == Flatten(a) + (b[0] + Flatten(b[1..]));
  }

  /** The worker moves the oldest chunk to the wire, or nothing. */
  lemma DrainedMoves(s: Sock)
    requires s.success && Fit(s.queue)
    ensures var t := Drained(s);
            && Flatten(t.sent) + Flatten(t.queue) == Flatten(s.sent) + Flatten(s.queue)
            && Flatten(t.sent) == Flatten(s.sent) + Carried(s, t)
  {
    if !s.writing && s.queue != [] {
      FlattenMove(s.sent, s.queue);
    }
  }

  lemma ConservedSubmit(n: Net, f: Frame)
    requires Conserved(n) && Enabled(n, Submit(f))
    ensures Conserved(Apply(n, Submit(f)))
  {
    var pushed := Flatten(n.sock.sent) + Flatten(n.sock.queue);
    SlicesFit(Encode(f));
    EncodeAllConcat(n.submitted, [f]);
    assert EncodeAll([f]) == Encode(f) by {
      assert [f][1..] == [] && Encode(f) + [] == Encode(f);
    }
    assert pushed + Flatten([]) == pushed;
  }

  lemma ConservedPush(n: Net)
    requires Conserved(n) && Enabled(n, Push)
    ensures Conserved(Apply(n, Push))
  {
    var sent, queue, out := Flatten(n.sock.sent), Flatten(n.sock.queue), Flatten(n.outbox);
    FlattenMove(n.sock.queue, n.outbox);
    assert sent + queue + out == sent + (queue + out);
    var t := Apply(n, Push);
    assert sent + Flatten(t.sock.queue) + Flatten(t.outbox) == sent + (Flatten(t.sock.queue) + Flatten(t.outbox));
  }

  lemma ConservedWork(n: Net, s: Sock)
    requires Shape(n) && Conserved(n) && s.queue == n.sock.queue && s.sent == n.sock.sent && s.success
    ensures Conserved(Worked(n, s))
  {
    DrainedMoves(s);
  }

  lemma ConservedArrive(n: Net, k: nat)
    requires Conserved(n) && Enabled(n, Arrive(k))
    ensures Conserved(Apply(n, Arrive(k)))
  {
    assert n.wire == n.wire[..k] + n.wire[k..];
  }

  lemma ConservedStep(n: Net, a: Action)
    requires Shape(n) && Conserved(n) && Enabled(n, a)
    ensures Conserved(Apply(n, a))
  {
    match a
    case Submit(f) => ConservedSubmit(n, f);
    case Push => ConservedPush(n);
    case Take => ConservedWork(n, n.sock.(sem := n.sock.sem - 1));
    case Handle => ConservedWork(n.(io := false), n.sock);
    case Arrive(k) => ConservedArrive(n, k);
    case _ =>
  }

  lemma Regroup(r: seq<Byte>, w: seq<Byte>, k: nat, q: seq<Byte>, o: seq<Byte>)
    requires k <= |w|
    ensures r + w[..k] + (w[k..] + q + o) == r + w + q + o
  {
  }

  /** What has arrived is a prefix of the encoded stream. */
  lemma Missing(n: Net, k: nat) returns (missing: seq<Byte>)
    requires Conserved(n) && k <= |n.wire|
    ensures n.received + n.wire[..k] + missing == EncodeAll(n.submitted)
  {
    missing := n.wire[k..] + Flatten(n.sock.queue) + Flatten(n.outbox);
    Regroup(n.received, n.wire, k, Flatten(n.sock.queue), Flatten(n.outbox));
  }

  lemma DecodedArrive(n: Net, k: nat)
    requires Conserved(n) && Decoded(n) && Enabled(n, Arrive(k))
    ensures Decoded(Apply(n, Arrive(k)))
  {
    var chunk := n.wire[..k];
    var now := n.received + chunk;
    var missing := Missing(n, k);
    PrefixParses(n.submitted, now, missing);
    ParseConcat(n.received, chunk);
  }

  lemma InvStep(n: Net, a: Action)
    requires Inv(n) && Enabled(n, a)
    ensures Inv(Apply(n, a))
  {
    ShapeStep(n, a);
    AwakeStep(n, a);
    ConservedStep(n, a);
    if a.Arrive? { DecodedArrive(n, a.count); }
  }

  lemma {:induction false} RunKeepsInv(n: Net, actions: seq<Action>)
    requires Inv(n) && Runs(n, actions)
    ensures Inv(Exec(n, actions))
    decreases |actions|
  {
    if actions != [] {
      InvStep(n, actions[0]);
      RunKeepsInv(Apply(n, actions[0]), actions[1..]);
    }
  }

  lemma InitInv()
    ensures Inv(Init())
  {
  }

  // ---------------------------------------------------------------- main results

  /**
   While connected, at most one write is in flight, and a non-empty queue means that a write is
   in flight or the worker has been or is about to be notified, also when the semaphore is full.
   */
  lemma NoStrandedChunk(actions: seq<Action>)
    requires Runs(Init(), actions)
    ensures var n := Exec(Init(), actions);
            && 0 <= |n.sock.sent| - n.completed <= 1
            && (n.sock.writing <==> |n.sock.sent| == n.completed + 1)
            && (n.sock.queue != [] ==> n.sock.writing || n.sock.sem > 0 || n.owed || n.io)
  {
    InitInv();
    RunKeepsInv(Init(), actions);
  }

  /** The write loop never drops a chunk: each turn leaves the socket alone or writes the oldest. */
  lemma NoChunkDropped(actions: seq<Action>)
    requires Runs(Init(), actions)
    ensures var s := Exec(Init(), actions).sock; var t := Drained(s);
            t == s || (s.queue != [] && t.writing && t.queue == s.queue[1..] && t.sent == s.sent + [s.queue[0]])
  {
    InitInv();
    RunKeepsInv(Init(), actions);
  }

  /** What was written, what is queued and what is still to be queued is the encoded stream. */
  lemma BytesInOrder(actions: seq<Action>)
    requires Runs(Init(), actions)
    ensures var n := Exec(Init(), actions);
            && AllSendable(n.submitted)
            && Flatten(n.sock.sent + n.sock.queue + n.outbox) == EncodeAll(n.submitted)
  {
    InitInv();
    RunKeepsInv(Init(), actions);
    var n := Exec(Init(), actions);
    FlattenConcat(n.sock.sent + n.sock.queue, n.outbox);
    FlattenConcat(n.sock.sent, n.sock.queue);
  }

  /** In every run the frames delivered are a prefix, in order and unchanged, of those sent. */
  lemma StreamSafety(actions: seq<Action>)
    requires Runs(Init(), actions)
    ensures var n := Exec(Init(), actions); !n.bad && n.delivered <= n.submitted
  {
    InitInv();
    RunKeepsInv(Init(), actions);
    var n := Exec(Init(), actions);
    var missing := Missing(n, 0);
    assert n.received + n.wire[..0] == n.received;
    PrefixParses(n.submitted, n.received, missing);
  }

  /** The steps the system takes on its own, without a new message or an unrelated completion. */
  predicate Internal(a: Action) {
    !a.Submit? && !a.ReadDone?
  }

  ghost predicate Quiet(n: Net) {
    !exists a: Action :: Internal(a) && Enabled(n, a)
  }

  lemma QuietIsDrained(n: Net)
    requires Inv(n)
    ensures Quiet(n) <==> n.outbox == [] && !n.owed && !n.io && n.sock.queue == [] && n.sock.sem == 0
                          && !n.sock.writing && n.wire == []
  {
    assert n.owed ==> Enabled(n, Release) && Internal(Release);
    assert n.io ==> Enabled(n, Handle) && Internal(Handle);
    assert n.sock.writing ==> Enabled(n, WriteDone) && Internal(WriteDone);
    assert n.sock.sem > 0 && !n.io ==> Enabled(n, Take) && Internal(Take);
    assert n.outbox != [] && !n.owed && n.sock.queue == [] ==> Enabled(n, Push) && Internal(Push);
    assert n.wire != [] ==> Enabled(n, Arrive(1)) && Internal(Arrive(1));
  }

  /** When nothing is left to do, everything has been delivered but a final bare header. */
  lemma QuietMeansDelivered(actions: seq<Action>)
    requires Runs(Init(), actions)
    ensures var n := Exec(Init(), actions);
            Quiet(n) ==> AllSendable(n.submitted) && n.delivered == Deliverable(n.submitted) && n.rest == Kept(n.submitted)
  {
    InitInv();
    RunKeepsInv(Init(), actions);
    var n := Exec(Init(), actions);
    if Quiet(n) {
      QuietIsDrained(n);
      assert n.received == EncodeAll(n.submitted);
      RoundTrip(n.submitted);
    }
  }

  function Load(slices: seq<seq<Byte>>, each: nat): nat {
    if slices == [] then 0 else each + |slices[0]| + Load(slices[1..], each)
  }

  lemma {:induction false} LoadAppend(slices: seq<seq<Byte>>, s: seq<Byte>, each: nat)
    ensures Load(slices + [s], each) == Load(slices, each) + each + |s|
  {
    if slices == [] {
      assert slices + [s] == [s] && [s][1..] == [];
    } else {
      assert (slices + [s])[1..] == slices[1..] + [s];
      LoadAppend(slices[1..], s, each);
    }
  }

  /** An upper bound on the internal steps still possible. */
  function Work(n: Net): nat {
    Load(n.outbox, 6) + Load(n.sock.queue, 3) + (if n.owed then 2 else 0) + n.sock.sem
    + (if n.sock.writing then 2 else 0) + (if n.io then 1 else 0) + |n.wire|
  }

  lemma WorkShrinks(n: Net, a: Action)
    requires Shape(n) && Enabled(n, a) && Internal(a)
    ensures Work(Apply(n, a)) < Work(n)
  {
    if a.Push? { LoadAppend(n.sock.queue, n.outbox[0], 3); }
  }

  predicate AllInternal(actions: seq<Action>) {
    forall i :: 0 <= i < |actions| ==> Internal(actions[i])
  }

  /** Left alone, every interleaving stops, within Work(n) steps. */
  lemma {:induction false} Settles(n: Net, actions: seq<Action>)
    requires Inv(n) && Runs(n, actions) && AllInternal(actions)
    ensures |actions| + Work(Exec(n, actions)) <= Work(n)
    ensures Exec(n, actions).submitted == n.submitted
    decreases |actions|
  {
    if actions != [] {
      WorkShrinks(n, actions[0]);
      InvStep(n, actions[0]);
      Settles(Apply(n, actions[0]), actions[1..]);
    }
  }

  lemma {:induction false} RunsConcat(n: Net, a: seq<Action>, b: seq<Action>)
    requires Runs(n, a) && Runs(Exec(n, a), b)
    ensures Runs(n, a + b) && Exec(n, a + b) == Exec(Exec(n, a), b)
    decreases |a|
  {
    if a == [] {
      assert a + b == b;
    } else {
      assert (a + b)[1..] == a[1..] + b;
      RunsConcat(Apply(n, a[0]), a[1..], b);
    }
  }

  /**
   Whatever has happened, from then on every run of internal steps is finite, and if it cannot
   be continued then every frame submitted has been delivered, but a final bare header.
   */
  lemma EverythingArrives(past: seq<Action>, future: seq<Action>)
    requires Runs(Init(), past) && Runs(Exec(Init(), past), future) && AllInternal(future)
    ensures var n := Exec(Init(), past); var end := Exec(n, future);
            && |future| <= Work(n)
            && (Quiet(end) ==> end.delivered == Deliverable(n.submitted))
  {
    InitInv();
    RunKeepsInv(Init(), past);
    Settles(Exec(Init(), past), future);
    RunsConcat(Init(), past, future);
    QuietMeansDelivered(past + future);
  }

  /**
   Why the senders must never push an empty chunk.  With one between two others, the worker may
   spend all three tokens, the second and third while the first chunk is being written; its
   completion then pops the empty chunk, and the last one waits with nothing in flight or signalled.
   */
  lemma EmptyChunkStrands(a: seq<Byte>, b: seq<Byte>)
    requires 1 <= |a| <= SLICE
    ensures var s := Sock(ConnectedState, [a, [], b], 3, false, true, []);
            var one := Drained(s.(sem := 2));
            var three := Drained(Drained(one.(sem := 1)).(sem := 0));
            Drained(three.(writing := false)) == Sock(ConnectedState, [b], 0, false, true, [a])
  {
    assert [a, [], b][1..] == [[], b] && [[], b][1..] == [b];
    assert [] + [a] == [a];
  }
}
