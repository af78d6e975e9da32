/** Runs of the pool that show where its promises end, and exactly when they do. */
module PoolRuns {
  import opened PoolModel
  import PoolHandOff
  import PoolThreads

  predicate NoStop(actions: seq<Action>) {
    forall a <- actions :: !a.Stop?
  }

  /** Some run of a pool just started leads to `q`, without stop() if `quiet`. */
  ghost predicate Reached(min: nat, max: nat, quiet: bool, q: Pool) {
    exists actions :: Runs(Init(min, max), actions) && Exec(Init(min, max), actions) == q && (quiet ==> NoStop(actions))
  }

  lemma OneStep(p: Pool, a: Action)
    requires Enabled(p, a)
    ensures Runs(p, [a]) && Exec(p, [a]) == Apply(p, a)
  {
    assert [a][1..] == [];
    assert Runs(Apply(p, a), []) && Exec(Apply(p, a), []) == Apply(p, a);
  }

  lemma AtInit(min: nat, max: nat, quiet: bool)
    ensures Reached(min, max, quiet, Init(min, max))
  {
    var none: seq<Action> := [];
    assert Runs(Init(min, max), none) && Exec(Init(min, max), none) == Init(min, max) && NoStop(none);
  }

  lemma Extend(min: nat, max: nat, quiet: bool, p: Pool, a: Action)
    requires Reached(min, max, quiet, p) && Enabled(p, a) && (quiet ==> !a.Stop?)
    ensures Reached(min, max, quiet, Apply(p, a))
  {
    var past :| Runs(Init(min, max), past) && Exec(Init(min, max), past) == p && (quiet ==> NoStop(past));
    OneStep(p, a);
    RunsConcat(Init(min, max), past, [a]);
    assert quiet ==> NoStop(past + [a]);
  }

  lemma Extend2(min: nat, max: nat, quiet: bool, p: Pool, a: Action, b: Action)
    requires Reached(min, max, quiet, p) && (quiet ==> !a.Stop? && !b.Stop?)
    requires Enabled(p, a) && Enabled(Apply(p, a), b)
    ensures Reached(min, max, quiet, Apply(Apply(p, a), b))
  {
    Extend(min, max, quiet, p, a);
    Extend(min, max, quiet, Apply(p, a), b);
  }

  /** The threads of a pool just started. */
  lemma {:induction false} Starters(t: Threads, n: nat)
    ensures var u := AddThreads(t, n);
            && u == t.(pcs := u.pcs, running := u.running, last := t.last + n)
            && |u.pcs| == |t.pcs| + n
            && (forall w :: 0 <= w < |t.pcs| ==> u.pcs[w] == t.pcs[w])
            && (forall w :: |t.pcs| <= w < |u.pcs| ==> u.pcs[w] == Starting)
    decreases n
  {
    if n > 0 {
      var next := t.(running := t.running + [|t.pcs|], pcs := t.pcs + [Starting], last := t.last + 1);
      Starters(next, n - 1);
    }
  }

  lemma InitFacts(min: nat, max: nat)
    ensures var p := Init(min, max);
            var k := if max < min then max else min;
            && p.threads.min == min && p.threads.max == max && p.threads.last == k == |p.threads.pcs|
            && (forall w :: 0 <= w < k ==> p.threads.pcs[w] == Starting)
            && p.hand == Hand(0, AtSem, false, 0, 0) && p.jobs.waiting == [] && p.jobs.prios == []
            && !p.stopped && !p.cancelling && !p.shutdown && !p.exiting && !p.subtract && p.adders == 0
  {
    Starters(Threads(min, max, [], [], 0, [], 0, JoinIdle, []), AddCount(max, 0, min));
  }

  /** The first submission, and the thread it may add. */
  lemma FirstJob(min: nat, max: nat, quiet: bool) returns (q: Pool)
    requires max >= 1
    ensures Reached(min, max, quiet, q)
    ensures q.hand == Hand(1, AtSem, false, 0, 0) && |q.jobs.waiting| == 1 && At(q.threads, 0, Idle)
    ensures !q.stopped && !q.cancelling && !q.shutdown && !q.exiting
  {
    InitFacts(min, max);
    AtInit(min, max, quiet);
    var p := Init(min, max);
    var p1 := Apply(p, Submit(0));
    Extend(min, max, quiet, p, Submit(0));
    assert p1.jobs.waiting == Insert([], Job(0, 1)) == [Job(0, 1)];
    var p2 := Apply(p1, AddThread);
    Extend(min, max, quiet, p1, AddThread);
    Starters(p1.threads, if p1.threads.last < max then 1 else 0);
    assert At(p2.threads, 0, Starting);
    q := Apply(p2, Begin(0));
    Extend(min, max, quiet, p2, Begin(0));
  }

  /** The dispatcher takes a count and sets the event. */
  lemma Signals(min: nat, max: nat, quiet: bool, p: Pool, n: nat)
    requires Reached(min, max, quiet, p) && p.hand == Hand(n + 1, AtSem, false, 0, 0) && !p.exiting
    ensures Reached(min, max, quiet, p.(hand := Hand(n, Awaiting, true, 0, 0)))
  {
    Extend(min, max, quiet, p, Dispatch);
    var p1 := p.(hand := Hand(n, Woken, false, 0, 0));
    assert p1 == Apply(p, Dispatch);
    Extend2(min, max, quiet, p1, ReadExit, SetJobEvent);
  }

  lemma Wakes(min: nat, max: nat, quiet: bool, p: Pool, w: nat)
    requires Reached(min, max, quiet, p) && p.hand.signalled && At(p.threads, w, Idle)
    ensures Reached(min, max, quiet, p.(hand := p.hand.(signalled := false), threads := To(p.threads, w, Got)))
  {
    Extend(min, max, quiet, p, WakeJob(w));
  }

  // ---------------------------------------------------------------- stop() and the job event

  /** The dispatcher sets the event; stop() sees the worker waiting too and writes its index last. */
  lemma Overridden(min: nat, max: nat, p: Pool) returns (q: Pool)
    requires Reached(min, max, false, p) && p.hand == Hand(1, AtSem, false, 0, 0)
    requires At(p.threads, 0, Idle) && !p.exiting
    ensures Reached(min, max, false, q) && q.hand == Hand(0, Awaiting, false, 0, 1)
    ensures q.jobs == p.jobs && At(q.threads, 0, Leaving) && q.stopped
    ensures q.shutdown == p.shutdown && q.cancelling == p.cancelling
  {
    Signals(min, max, false, p, 0);
    var p1 := p.(hand := Hand(0, Awaiting, true, 0, 0));
    Extend(min, max, false, p1, Stop);
    var p2 := p1.(stopped := true);
    Wakes(min, max, false, p2, 0);
    var p3 := p2.(hand := Hand(0, Awaiting, false, 0, 0), threads := To(p.threads, 0, Got));
    Extend(min, max, false, p3, StopOverrides(0));
    q := p3.(hand := Hand(0, Awaiting, false, 0, 1), threads := To(p3.threads, 0, Leaving));
  }

  /** Without a thread nothing is woken. */
  predicate NoThreads(p: Pool) {
    p.threads.max == 0 && p.threads.last == 0 && p.threads.pcs == [] && p.hand.lost == 0
  }

  lemma NoThreadsStep(p: Pool, a: Action)
    requires Enabled(p, a) && NoThreads(p)
    ensures NoThreads(Apply(p, a))
  {
    ThreadsAfter(p, a);
    HandAfter(p, a);
  }

  lemma {:induction false} NoThreadsRun(p: Pool, actions: seq<Action>)
    requires NoThreads(p) && Runs(p, actions)
    ensures NoThreads(Exec(p, actions))
    decreases |actions|
  {
    if actions != [] {
      NoThreadsStep(p, actions[0]);
      NoThreadsRun(Apply(p, actions[0]), actions[1..]);
    }
  }

  lemma Loses(min: nat, max: nat)
    requires max >= 1
    ensures exists actions :: Runs(Init(min, max), actions) && Strands(Exec(Init(min, max), actions))
  {
    var p := FirstJob(min, max, false);
    var q := Overridden(min, max, p);
    var actions :| Runs(Init(min, max), actions) && Exec(Init(min, max), actions) == q;
    PoolHandOff.InitInv(min, max);
    PoolHandOff.RunKeepsInv(Init(min, max), actions);
    PoolHandOff.LostStalls(q);
  }

  /** The job signal is gone, its job still waits, and no step of the hand-off is left. */
  ghost predicate Strands(p: Pool) {
    p.hand.lost > 0 && p.jobs.waiting != [] && PoolHandOff.Stalled(p)
  }

  /**
   stop() can take a job signal away, so that its job is left waiting and the dispatcher with it,
   exactly in pools that may have a thread.
   */
  lemma StopStrandsIff(min: nat, max: nat)
    ensures (exists actions :: Runs(Init(min, max), actions) && Strands(Exec(Init(min, max), actions))) <==> max >= 1
  {
    if max >= 1 {
      Loses(min, max);
    } else {
      forall actions | Runs(Init(min, max), actions) ensures Exec(Init(min, max), actions).hand.lost == 0 {
        InitFacts(min, max);
        NoThreadsRun(Init(min, max), actions);
      }
    }
  }

  // ---------------------------------------------------------------- cancelJob

  lemma TakenByDispatcher(p: Pool)
    requires !p.stopped && !p.cancelling && p.hand == Hand(0, AtSem, false, 0, 0) && p.jobs.waiting == []
    ensures Runs(p, [Submit(0), Dispatch])
    ensures var q := Exec(p, [Submit(0), Dispatch]);
            && q.hand == Hand(0, Woken, false, 0, 0) && |q.jobs.waiting| == 1
            && q.cancelling == p.cancelling && q.shutdown == p.shutdown
  {
    var p1 := p.(jobs := Submitted(p.jobs, 0), hand := Hand(1, AtSem, false, 0, 0), adders := p.adders + 1);
    assert p1 == Apply(p, Submit(0));
    TwoSteps(p, Submit(0), Dispatch);
  }

  /** Submitting a job and cancelling it while the dispatcher has its count blocks the caller for ever. */
  lemma CancelMayBlock(min: nat, max: nat)
    ensures var actions := [Submit(0), Dispatch] + [Cancel(0)];
            && Runs(Init(min, max), actions)
            && Exec(Init(min, max), actions).cancelling
            && !Enabled(Exec(Init(min, max), actions), CancelTake)
  {
    InitFacts(min, max);
    var p := Init(min, max);
    TakenByDispatcher(p);
    OneStep(Exec(p, [Submit(0), Dispatch]), Cancel(0));
    RunsConcat(p, [Submit(0), Dispatch], [Cancel(0)]);
  }

  // ---------------------------------------------------------------- the minimum

  lemma Takes(min: nat, max: nat, p: Pool, n: nat, w: nat)
    requires Reached(min, max, true, p) && p.hand == Hand(n, Awaiting, false, 0, 0)
    requires At(p.threads, w, Got) && !p.cancelling && p.jobs.waiting != []
    ensures Reached(min, max, true, p.(hand := Hand(n, AtSem, false, 0, 0), jobs := Fetched(p.jobs),
                                       threads := To(p.threads, w, Running(p.jobs.waiting[0]))))
  {
    Extend(min, max, true, p, TakeJob(w));
    var p1 := p.(hand := Hand(n, Awaiting, false, 1, 0), jobs := Fetched(p.jobs),
                 threads := To(p.threads, w, Running(p.jobs.waiting[0])));
    assert p1 == Apply(p, TakeJob(w));
    Extend(min, max, true, p1, Acknowledge);
  }

  /** One waiting job goes through the whole hand-off to idle worker `w`. */
  lemma HandOver(min: nat, max: nat, p: Pool, n: nat, w: nat) returns (q: Pool)
    requires Reached(min, max, true, p) && p.hand == Hand(n + 1, AtSem, false, 0, 0)
    requires At(p.threads, w, Idle) && !p.exiting && !p.cancelling && p.jobs.waiting != []
    ensures Reached(min, max, true, q)
    ensures q == p.(hand := Hand(n, AtSem, false, 0, 0), jobs := Fetched(p.jobs),
                    threads := To(p.threads, w, Running(p.jobs.waiting[0])))
  {
    Signals(min, max, true, p, n);
    var p1 := p.(hand := Hand(n, Awaiting, true, 0, 0));
    Wakes(min, max, true, p1, w);
    var p2 := p.(hand := Hand(n, Awaiting, false, 0, 0), threads := To(p.threads, w, Got));
    Takes(min, max, p2, n, w);
    q := p.(hand := Hand(n, AtSem, false, 0, 0), jobs := Fetched(p.jobs),
            threads := To(p.threads, w, Running(p.jobs.waiting[0])));
    assert p.threads.pcs[w := Got][w := Running(p.jobs.waiting[0])] == p.threads.pcs[w := Running(p.jobs.waiting[0])];
  }

  lemma TwoSubmitted(min: nat, max: nat) returns (q: Pool)
    requires 1 <= min < max
    ensures Reached(min, max, true, q)
    ensures q == Init(min, max).(jobs := q.jobs, hand := Hand(2, AtSem, false, 0, 0), adders := 2)
    ensures |q.jobs.waiting| == 2
  {
    InitFacts(min, max);
    AtInit(min, max, true);
    var p := Init(min, max);
    Extend2(min, max, true, p, Submit(0), Submit(0));
    q := Apply(Apply(p, Submit(0)), Submit(0));
    PoolHandOff.InsertLength([], Job(0, 1));
    PoolHandOff.InsertLength(Insert([], Job(0, 1)), Job(0, 2));
  }

  /** Two jobs wait, and the first thread and an added one are idle. */
  lemma TwoJobs(min: nat, max: nat) returns (q: Pool)
    requires 1 <= min < max
    ensures Reached(min, max, true, q)
    ensures q.hand == Hand(2, AtSem, false, 0, 0) && |q.jobs.waiting| == 2
    ensures q.threads.last == min + 1 && q.threads.min == min
    ensures At(q.threads, 0, Idle) && At(q.threads, min, Idle)
    ensures !q.stopped && !q.cancelling && !q.exiting
  {
    InitFacts(min, max);
    var p2 := TwoSubmitted(min, max);
    Starters(p2.threads, 1);
    var p3 := p2.(adders := 1, threads := AddThreads(p2.threads, 1));
    assert p3 == Apply(p2, AddThread);
    Extend(min, max, true, p2, AddThread);
    Extend(min, max, true, p3, Begin(0));
    var p4 := p3.(threads := To(p3.threads, 0, Idle));
    Extend(min, max, true, p4, Begin(min));
    q := p4.(threads := To(p4.threads, min, Idle));
  }

  /** Both workers have run their jobs. */
  lemma BothFinished(min: nat, max: nat) returns (q: Pool)
    requires 1 <= min < max
    ensures Reached(min, max, true, q)
    ensures At(q.threads, 0, Finished) && At(q.threads, min, Finished)
    ensures q.jobs.waiting == [] && q.threads.last == min + 1 && q.threads.min == min && !q.stopped && !q.cancelling
  {
    var p := TwoJobs(min, max);
    var p1 := HandOver(min, max, p, 1, 0);
    var p2 := HandOver(min, max, p1, 0, min);
    Extend2(min, max, true, p2, EndJob(0), EndJob(min));
    q := Apply(Apply(p2, EndJob(0)), EndJob(min));
  }

  lemma Dips(min: nat, max: nat)
    requires 1 <= min < max
    ensures exists actions :: Runs(Init(min, max), actions) && NoStop(actions)
                              && Exec(Init(min, max), actions).threads.last < min
  {
    var q := BothFinished(min, max);
    var past :| Runs(Init(min, max), past) && Exec(Init(min, max), past) == q && NoStop(past);
    PoolThreads.TwoMayLeave(q, 0, min);
    var future := [CheckSubtract(0), WakeSubtract(0)] + [CheckSubtract(min), WakeSubtract(min)] + [Leave(0), Leave(min)];
    RunsConcat(Init(min, max), past, future);
    assert NoStop(past + future);
  }

  /** With as many threads at the start as there may be at all, nobody ever leaves before stop(). */
  predicate Steady(p: Pool, min: nat) {
    && p.threads.last == p.threads.min == p.threads.max == min && !p.subtract && !p.stopped
    && (forall w :: 0 <= w < |p.threads.pcs| ==> !p.threads.pcs[w].Leaving?)
  }

  lemma SteadyStep(p: Pool, a: Action, min: nat)
    requires Enabled(p, a) && Steady(p, min) && !a.Stop?
    ensures Steady(Apply(p, a), min)
  {
    PcsAfter(p, a);
    ThreadsAfter(p, a);
  }

  lemma {:induction false} SteadyRun(p: Pool, actions: seq<Action>, min: nat)
    requires Steady(p, min) && Runs(p, actions) && NoStop(actions)
    ensures Steady(Exec(p, actions), min)
    decreases |actions|
  {
    if actions != [] {
      SteadyStep(p, actions[0], min);
      SteadyRun(Apply(p, actions[0]), actions[1..], min);
    }
  }

  /** A run of at least one thread is promised by the minimum; it is broken as soon as it may vary. */
  lemma MinimumBrokenIff(min: nat, max: nat)
    ensures (exists actions :: Runs(Init(min, max), actions) && NoStop(actions)
                               && Exec(Init(min, max), actions).threads.last < min)
            <==> min >= 1 && min != max
  {
    InitFacts(min, max);
    if min == 0 {
      forall actions | Runs(Init(min, max), actions) ensures Exec(Init(min, max), actions).threads.last >= min {
        PoolThreads.ThreadsConserved(min, max, actions, 0);
        assert Exec(Init(min, max), actions).threads.last == |Exec(Init(min, max), actions).threads.running|;
      }
    } else if min == max {
      forall actions | Runs(Init(min, max), actions) && NoStop(actions)
        ensures Exec(Init(min, max), actions).threads.last >= min
      {
        SteadyRun(Init(min, max), actions, min);
      }
    } else if max < min {
      AtInit(min, max, true);
      var none :| Runs(Init(min, max), none) && Exec(Init(min, max), none) == Init(min, max) && NoStop(none);
    } else {
      Dips(min, max);
    }
  }
}
