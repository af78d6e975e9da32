/** The hand-off of waiting jobs to workers: what can be lost, and no worker finds the set empty. */
module PoolHandOff {
  import opened PoolModel

  function Bit(b: bool): nat {
    if b then 1 else 0
  }

  /** The places of a token: the dispatcher's hand, the event, the workers it woke, the answer. */
  function Tokens(p: Pool): nat {
    Bit(p.hand.dispatcher.Woken?) + Bit(p.hand.dispatcher.Holding?) + Bit(p.hand.signalled)
    + CountIn(p.threads.pcs, Got) + p.hand.semGot
  }

  /**
   Two semaphores and one auto-reset event pass a single token around: exactly one is on its way
   while the dispatcher is away from its semaphore, else none; stop() may have taken it away.
   */
  predicate OneToken(p: Pool) {
    && (!p.exiting ==> Tokens(p) + p.hand.lost == Bit(!p.hand.dispatcher.AtSem?) && !p.hand.dispatcher.Exited?)
    && p.hand.lost <= 1
    && (p.hand.lost > 0 ==> p.stopped)
  }

  /** The dispatcher has taken a count for a job that no worker has fetched yet. */
  predicate Unredeemed(p: Pool) {
    !p.hand.dispatcher.AtSem? && p.hand.semGot == 0
  }

  /** One count or token for every waiting job, and for a job being cancelled. */
  predicate Covered(p: Pool) {
    |p.jobs.waiting| + Bit(p.cancelling) == p.hand.sem + Bit(Unredeemed(p))
  }

  predicate Down(p: Pool) {
    && (p.shutdown ==> p.stopped && AllGone(p.threads) && !p.cancelling && p.adders == 0)
    && (p.exiting ==> p.shutdown && p.jobs.waiting == [])
  }

  /** After the destructor's two posts the dispatcher has all the counts it needs to see the flag. */
  predicate CanExit(h: Hand) {
    match h.dispatcher
    case AtSem => h.sem > 0
    case Holding => h.sem > 0 && h.semGot > 0
    case Awaiting => h.sem > 0 && h.semGot > 0
    case _ => true
  }

  /** clearUndoWork takes a count for every job it clears, and misses the dispatcher's. */
  predicate ClearedSoFar(p: Pool) {
    p.hand.sem <= |p.jobs.waiting| <= p.hand.sem + Bit(Unredeemed(p))
  }

  predicate Inv(p: Pool) {
    && OneToken(p) && Down(p)
    && (!p.shutdown ==> Covered(p)) && (p.shutdown && !p.exiting ==> ClearedSoFar(p)) && (p.exiting ==> CanExit(p.hand))
  }

  lemma {:induction false} InsertLength(s: seq<Job>, j: Job)
    ensures |Insert(s, j)| == |s| + 1
  {
    if s != [] && !Less(j, s[0]) {
      InsertLength(s[1..], j);
    }
  }

  lemma {:induction false} AddThreadsGot(t: Threads, n: nat)
    ensures CountIn(AddThreads(t, n).pcs, Got) == CountIn(t.pcs, Got)
    decreases n
  {
    if n > 0 {
      var u := t.(running := t.running + [|t.pcs|], pcs := t.pcs + [Starting], last := t.last + 1);
      CountAppend(t.pcs, Starting, Got);
      AddThreadsGot(u, n - 1);
    }
  }

  /** How each step changes the number of workers that hold a job event. */
  lemma GotAfter(p: Pool, a: Action)
    requires Enabled(p, a)
    ensures CountIn(Apply(p, a).threads.pcs, Got) + Bit(a.TakeJob?) + Bit(a.StopOverrides?)
            == CountIn(p.threads.pcs, Got) + Bit(a.WakeJob?)
  {
    PcsAfter(p, a);
    if Moves(a) {
      CountSet(p.threads.pcs, a.w, NextPc(p, a), Got);
    } else if a.AddThread? && p.threads.last < p.threads.max {
      AddThreadsGot(p.threads, AddCount(p.threads.max, p.threads.last, 1));
    }
  }

  lemma NoneGotWhenDown(p: Pool)
    requires Down(p) && p.shutdown
    ensures CountIn(p.threads.pcs, Got) == 0
  {
    CountNone(p.threads.pcs, Got);
  }

  lemma OneTokenStep(p: Pool, a: Action)
    requires Enabled(p, a) && OneToken(p) && Down(p)
    ensures OneToken(Apply(p, a))
  {
    GotAfter(p, a);
    HandAfter(p, a);
    if p.exiting { NoneGotWhenDown(p); }
    if a.StopOverrides? { CountNone(p.threads.pcs, Got); }
  }

  lemma CanExitStep(p: Pool, a: Action)
    requires Enabled(p, a) && Inv(p) && (p.exiting || a.PostExit?)
    ensures CanExit(NextHand(p, a))
  {
    NoneGotWhenDown(p);
  }

  lemma CoveredStep(p: Pool, a: Action)
    requires Enabled(p, a) && Inv(p) && !p.shutdown
    ensures Covered(Apply(p, a))
  {
    GotAfter(p, a);
    match a
    case Submit(prio) => InsertLength(p.jobs.waiting, Job(prio, |p.jobs.prios| + 1));
    case TakeJob(w) => CountNone(p.threads.pcs, Got);
    case StopOverrides(w) => CountNone(p.threads.pcs, Got);
    case _ =>
  }

  lemma DownStep(p: Pool, a: Action)
    requires Enabled(p, a) && Down(p)
    ensures Down(Apply(p, a))
  {
    HandAfter(p, a);
    if p.shutdown {
      assert forall w :: 0 <= w < |p.threads.pcs| ==> p.threads.pcs[w] == Gone;
      PcsAfter(p, a);
      JobsAfter(p, a);
    }
  }

  lemma ClearedStep(p: Pool, a: Action)
    requires Enabled(p, a) && Inv(p) && p.shutdown && !p.exiting && !a.PostExit?
    ensures ClearedSoFar(Apply(p, a))
  {
    NoneGotWhenDown(p);
    JobsAfter(p, a);
    HandAfter(p, a);
  }

  lemma InvStep(p: Pool, a: Action)
    requires Enabled(p, a) && Inv(p)
    ensures Inv(Apply(p, a))
  {
    if p.shutdown && !p.exiting && !a.PostExit? { ClearedStep(p, a); }
    OneTokenStep(p, a);
    DownStep(p, a);
    if !p.shutdown { CoveredStep(p, a); }
    HandAfter(p, a);
    if p.exiting || a.PostExit? { CanExitStep(p, a); }
  }

  lemma InitInv(min: nat, max: nat)
    ensures Inv(Init(min, max))
  {
    AddThreadsGot(Threads(min, max, [], [], 0, [], 0, JoinIdle, []), AddCount(max, 0, min));
  }

  lemma {:induction false} RunKeepsInv(p: Pool, actions: seq<Action>)
    requires Inv(p) && Runs(p, actions)
    ensures Inv(Exec(p, actions))
    decreases |actions|
  {
    if actions != [] {
      InvStep(p, actions[0]);
      RunKeepsInv(Apply(p, actions[0]), actions[1..]);
    }
  }

  // ---------------------------------------------------------------- main results

  /**
   Before shutdown waiting jobs, plus one being cancelled, are counted by the semaphore plus one if
   the dispatcher's count has not been redeemed; while the destructor clears the set they stay so up
   to that one, and an empty set leaves no count.  Until the destructor posts for the dispatcher,
   exactly one token is on its way while the dispatcher is away from its semaphore, unless stop()
   took it away; it can do that once at most.
   */
  lemma HandOffBalance(min: nat, max: nat, actions: seq<Action>)
    requires Runs(Init(min, max), actions)
    ensures var p := Exec(Init(min, max), actions);
            && (!p.exiting ==> Tokens(p) + p.hand.lost == Bit(!p.hand.dispatcher.AtSem?))
            && (!p.shutdown ==> |p.jobs.waiting| + Bit(p.cancelling) == p.hand.sem + Bit(Unredeemed(p)))
            && (p.shutdown && !p.exiting ==> p.hand.sem <= |p.jobs.waiting| <= p.hand.sem + Bit(Unredeemed(p)))
            && p.hand.lost <= Bit(p.stopped)
  {
    InitInv(min, max);
    RunKeepsInv(Init(min, max), actions);
  }

  /** _getJob never meets an empty waiting set. */
  lemma GetJobFindsOne(min: nat, max: nat, actions: seq<Action>, w: nat)
    requires Runs(Init(min, max), actions)
    ensures var p := Exec(Init(min, max), actions);
            At(p.threads, w, Got) && !p.cancelling ==> p.jobs.waiting != []
  {
    InitInv(min, max);
    RunKeepsInv(Init(min, max), actions);
    var p := Exec(Init(min, max), actions);
    CountNone(p.threads.pcs, Got);
    if p.shutdown { NoneGotWhenDown(p); }
  }

  /** The steps that bring a waiting job to an idle worker. */
  predicate HandsOff(a: Action) {
    a.Dispatch? || a.ReadExit? || a.SetJobEvent? || a.WakeJob? || a.TakeJob? || a.Acknowledge?
  }

  ghost predicate Stalled(p: Pool) {
    forall a: Action :: HandsOff(a) ==> !Enabled(p, a)
  }

  /** The number of hand-off steps still possible without new submissions. */
  function Rank(p: Pool): int {
    6 * p.hand.sem + 5 * Bit(p.hand.dispatcher.Woken?) + 4 * Bit(p.hand.dispatcher.Holding?)
    + 3 * Bit(p.hand.signalled) + 2 * CountIn(p.threads.pcs, Got) + p.hand.semGot
  }

  lemma RankDrops(p: Pool, a: Action)
    requires Enabled(p, a) && Inv(p) && !p.exiting && HandsOff(a)
    ensures Rank(Apply(p, a)) == Rank(p) - 1 && !Apply(p, a).exiting
  {
    GotAfter(p, a);
  }

  lemma {:induction false} HandOffEnds(p: Pool, actions: seq<Action>)
    requires Inv(p) && !p.exiting && Runs(p, actions) && forall a <- actions :: HandsOff(a)
    ensures |actions| + Rank(Exec(p, actions)) == Rank(p) && !Exec(p, actions).exiting
    decreases |actions|
  {
    if actions != [] {
      RankDrops(p, actions[0]);
      InvStep(p, actions[0]);
      HandOffEnds(Apply(p, actions[0]), actions[1..]);
    }
  }

  lemma NotStalled(p: Pool, w: nat)
    requires Inv(p) && !p.shutdown && !p.cancelling && p.jobs.waiting != [] && At(p.threads, w, Idle)
    requires p.hand.lost == 0
    ensures !Stalled(p)
  {
    if p.hand.dispatcher.AtSem? {
      assert Enabled(p, Dispatch) && HandsOff(Dispatch);
    } else if p.hand.dispatcher.Woken? {
      assert Enabled(p, ReadExit) && HandsOff(ReadExit);
    } else if p.hand.dispatcher.Holding? {
      assert Enabled(p, SetJobEvent) && HandsOff(SetJobEvent);
    } else if p.hand.signalled {
      assert Enabled(p, WakeJob(w)) && HandsOff(WakeJob(w));
    } else if p.hand.semGot > 0 {
      assert Enabled(p, Acknowledge) && HandsOff(Acknowledge);
    } else {
      CountNone(p.threads.pcs, Got);
      var v :| 0 <= v < |p.threads.pcs| && p.threads.pcs[v] == Got;
      assert Enabled(p, TakeJob(v)) && HandsOff(TakeJob(v));
    }
  }

  lemma LostStalls(p: Pool)
    requires Inv(p) && !p.exiting && p.hand.lost > 0
    ensures Stalled(p)
  {
    CountNone(p.threads.pcs, Got);
    forall a: Action | HandsOff(a) ensures !Enabled(p, a) { }
  }

  /**
   While a job waits beside an idle worker the hand-off goes on, exactly unless stop() took the
   token away.
   */
  lemma HandOffStallsIff(min: nat, max: nat, actions: seq<Action>, w: nat)
    requires Runs(Init(min, max), actions)
    ensures var p := Exec(Init(min, max), actions);
            !p.shutdown && !p.cancelling && p.jobs.waiting != [] && At(p.threads, w, Idle) ==>
              (Stalled(p) <==> p.hand.lost > 0)
  {
    InitInv(min, max);
    RunKeepsInv(Init(min, max), actions);
    var p := Exec(Init(min, max), actions);
    if !p.shutdown && !p.cancelling && p.jobs.waiting != [] && At(p.threads, w, Idle) {
      if p.hand.lost == 0 { NotStalled(p, w); } else { LostStalls(p); }
    }
  }

  /**
   From any state before the destructor's posts every run of hand-off steps is finite, and it stops
   only when no job is waiting, or no worker is idle, or a cancelJob holds the lock, or stop() took
   the token away.
   */
  lemma JobsReachIdleWorkers(min: nat, max: nat, past: seq<Action>, future: seq<Action>)
    requires Runs(Init(min, max), past) && Runs(Exec(Init(min, max), past), future)
    requires !Exec(Init(min, max), past).exiting && forall a <- future :: HandsOff(a)
    ensures var p := Exec(Init(min, max), past);
            var end := Exec(p, future);
            && |future| <= Rank(p)
            && (Stalled(end) ==>
                  || end.shutdown || end.cancelling || end.jobs.waiting == [] || Idle !in end.threads.pcs
                  || (end.hand.lost == 1 && end.stopped))
  {
    InitInv(min, max);
    RunKeepsInv(Init(min, max), past);
    var p := Exec(Init(min, max), past);
    HandOffEnds(p, future);
    RunKeepsInv(p, future);
    var end := Exec(p, future);
    if !end.shutdown && !end.cancelling && end.jobs.waiting != [] && Idle in end.threads.pcs && end.hand.lost == 0 {
      var w :| 0 <= w < |end.threads.pcs| && end.threads.pcs[w] == Idle;
      NotStalled(end, w);
    }
  }

  // ---------------------------------------------------------------- the dispatcher's end

  predicate Dispatches(a: Action) {
    a.Dispatch? || a.ReadExit? || a.SetJobEvent? || a.Acknowledge?
  }

  /** Steps of the dispatcher to its end, once the exit flag is up. */
  function ToEnd(h: Hand): nat {
    match h.dispatcher
    case Exited => 0
    case Woken => 1
    case AtSem => 2
    case Awaiting => 3
    case Holding => 4
  }

  lemma ExitStep(p: Pool, a: Action)
    requires Enabled(p, a) && p.exiting && Dispatches(a)
    ensures ToEnd(Apply(p, a).hand) == ToEnd(p.hand) - 1 && Apply(p, a).exiting
  {
    HandAfter(p, a);
  }

  lemma {:induction false} ExitRun(p: Pool, actions: seq<Action>)
    requires p.exiting && Runs(p, actions) && forall a <- actions :: Dispatches(a)
    ensures |actions| + ToEnd(Exec(p, actions).hand) == ToEnd(p.hand) && Exec(p, actions).exiting
    decreases |actions|
  {
    if actions != [] {
      ExitStep(p, actions[0]);
      ExitRun(Apply(p, actions[0]), actions[1..]);
    }
  }

  /**
   Whatever stop() did to the hand-off: after the destructor's two posts the dispatcher needs at
   most four steps to its end and always has the next one.
   */
  lemma DispatcherEnds(min: nat, max: nat, past: seq<Action>, future: seq<Action>)
    requires Runs(Init(min, max), past) && Runs(Exec(Init(min, max), past), future)
    requires Exec(Init(min, max), past).exiting && forall a <- future :: Dispatches(a)
    ensures var end := Exec(Exec(Init(min, max), past), future);
            && |future| <= 4
            && (end.hand.dispatcher.Exited? || exists a: Action :: Dispatches(a) && Enabled(end, a))
  {
    InitInv(min, max);
    RunKeepsInv(Init(min, max), past);
    var p := Exec(Init(min, max), past);
    ExitRun(p, future);
    RunKeepsInv(p, future);
    var end := Exec(p, future);
    match end.hand.dispatcher
    case AtSem => assert Dispatches(Dispatch) && Enabled(end, Dispatch);
    case Woken => assert Dispatches(ReadExit) && Enabled(end, ReadExit);
    case Holding => assert Dispatches(SetJobEvent) && Enabled(end, SetJobEvent);
    case Awaiting => assert Dispatches(Acknowledge) && Enabled(end, Acknowledge);
    case Exited =>
  }

  // ---------------------------------------------------------------- cancelling

  predicate Stuck(p: Pool) {
    p.cancelling && p.hand.sem == 0
  }

  lemma StuckStep(p: Pool, a: Action)
    requires Inv(p) && Stuck(p) && Enabled(p, a)
    ensures Stuck(Apply(p, a))
  {
  }

  lemma {:induction false} StuckForever(p: Pool, actions: seq<Action>)
    requires Inv(p) && Stuck(p) && Runs(p, actions)
    ensures Stuck(Exec(p, actions))
    decreases |actions|
  {
    if actions != [] {
      StuckStep(p, actions[0]);
      InvStep(p, actions[0]);
      StuckForever(Apply(p, actions[0]), actions[1..]);
    }
  }

  /**
   A cancelJob that has taken its job out of the waiting set cannot return exactly if no other job
   is waiting and the job's token is with the dispatcher or beyond; and then it never will, since
   whoever could post the semaphore needs the lock it holds.
   */
  lemma CancelBlocksIff(min: nat, max: nat, past: seq<Action>, future: seq<Action>)
    requires Runs(Init(min, max), past) && Exec(Init(min, max), past).cancelling
    requires Runs(Exec(Init(min, max), past), future)
    ensures var p := Exec(Init(min, max), past);
            && (!Enabled(p, CancelTake) <==> p.jobs.waiting == [] && Unredeemed(p))
            && (!Enabled(p, CancelTake) ==> Exec(p, future).cancelling)
  {
    InitInv(min, max);
    RunKeepsInv(Init(min, max), past);
    var p := Exec(Init(min, max), past);
    if Stuck(p) { StuckForever(p, future); }
  }
}
