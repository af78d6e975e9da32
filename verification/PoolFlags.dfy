/** Who asks for a thread to go, who goes, and what a cancellation takes: the steps beside the hand-off. */
module PoolFlags {
  import opened PoolModel
  import PoolOrder
  import PoolThreads

  /** A worker at its check after a job finds no job waiting, more threads than the minimum, and no stop(). */
  predicate Asks(p: Pool, a: Action) {
    a.CheckSubtract? && At(p.threads, a.w, Finished)
    && p.jobs.waiting == [] && p.threads.last > p.threads.min && !p.stopped
  }

  /** Worker `w` turns to leaving in this step. */
  predicate Turns(p: Pool, a: Action, w: nat)
    requires Enabled(p, a)
  {
    w < |p.threads.pcs| && !p.threads.pcs[w].Leaving? && At(Apply(p, a).threads, w, Leaving)
  }

  lemma WishAfter(p: Pool, a: Action)
    requires Enabled(p, a)
    ensures Apply(p, a).subtract <==> Asks(p, a) || (p.subtract && !a.WakeSubtract?)
    ensures a.WakeSubtract? ==> p.subtract
  {
  }

  /** The wish that a thread may go: who raises it, and who takes it. */
  lemma SubtractIff(min: nat, max: nat, actions: seq<Action>, a: Action)
    requires Runs(Init(min, max), actions) && Enabled(Exec(Init(min, max), actions), a)
    ensures var p := Exec(Init(min, max), actions);
            && (!p.subtract ==> (Apply(p, a).subtract <==> Asks(p, a)))
            && (p.subtract ==> (!Apply(p, a).subtract <==> a.WakeSubtract?))
            && (a.WakeSubtract? ==> Turns(p, a, a.w))
  {
    var p := Exec(Init(min, max), actions);
    WishAfter(p, a);
    if a.WakeSubtract? { PcsAfter(p, a); }
  }

  /** A worker turns to leaving only for stop() or for a wish it takes away. */
  lemma LeavesOnlyWhenTold(min: nat, max: nat, actions: seq<Action>, a: Action, w: nat)
    requires Runs(Init(min, max), actions) && Enabled(Exec(Init(min, max), actions), a)
    requires Turns(Exec(Init(min, max), actions), a, w)
    ensures var p := Exec(Init(min, max), actions);
            p.stopped || (p.subtract && !Apply(p, a).subtract)
  {
    var p := Exec(Init(min, max), actions);
    PcsAfter(p, a);
    if a.AddThread? && p.threads.last < p.threads.max { KeepsPcs(p.threads, 1, w); }
  }

  lemma {:induction false} KeepsPcs(t: Threads, n: nat, w: nat)
    requires w < |t.pcs|
    ensures w < |AddThreads(t, n).pcs| && AddThreads(t, n).pcs[w] == t.pcs[w]
    decreases n
  {
    if n > 0 {
      KeepsPcs(t.(running := t.running + [|t.pcs|], pcs := t.pcs + [Starting], last := t.last + 1), n - 1, w);
    }
  }

  /** How often a wish was raised, and how often one was taken, in a run. */
  function Raised(p: Pool, actions: seq<Action>): nat
    requires Runs(p, actions)
    decreases |actions|
  {
    if actions == [] then 0
    else (if Asks(p, actions[0]) && !p.subtract then 1 else 0) + Raised(Apply(p, actions[0]), actions[1..])
  }

  function Taken(actions: seq<Action>): nat {
    if actions == [] then 0 else (if actions[0].WakeSubtract? then 1 else 0) + Taken(actions[1..])
  }

  lemma {:induction false} WishesBalance(p: Pool, actions: seq<Action>)
    requires Runs(p, actions)
    ensures Raised(p, actions) + (if p.subtract then 1 else 0)
            == Taken(actions) + (if Exec(p, actions).subtract then 1 else 0)
    decreases |actions|
  {
    if actions != [] {
      WishAfter(p, actions[0]);
      WishesBalance(Apply(p, actions[0]), actions[1..]);
    }
  }

  /** Over every run each wish that was raised lets exactly one worker go, or still stands. */
  lemma OneGoesForEachWish(min: nat, max: nat, actions: seq<Action>)
    requires Runs(Init(min, max), actions)
    ensures Raised(Init(min, max), actions) == Taken(actions) + (if Exec(Init(min, max), actions).subtract then 1 else 0)
  {
    WishesBalance(Init(min, max), actions);
  }

  // ---------------------------------------------------------------- cancelling

  lemma DropMembers(s: seq<Job>, at: nat)
    requires at < |s| && PoolOrder.Sorted(s)
    ensures s[at] !in DropAt(s, at)
    ensures forall job <- s :: job == s[at] || job in DropAt(s, at)
    ensures forall job <- DropAt(s, at) :: job in s
  {
    var r := DropAt(s, at);
    forall k | 0 <= k < |s| && k != at ensures s[k] in r { assert r[if k < at then k else k - 1] == s[k]; }
    forall k | 0 <= k < |r| ensures r[k] == s[if k < at then k else k + 1] { }
  }

  /** `job` is gone from the waiting set to the clear thread, and nothing else has moved. */
  predicate Cancelled(before: Jobs, after: Jobs, job: Job) {
    && job !in after.waiting && (forall other <- before.waiting :: other == job || other in after.waiting)
    && (forall other <- after.waiting :: other in before.waiting)
    && after.clear == before.clear + [Clear(job)] && after.doing == before.doing && after.deleted == before.deleted
  }

  lemma CancelAt(p: Pool, at: nat)
    requires Enabled(p, Cancel(at)) && PoolOrder.Sorted(p.jobs.waiting)
    ensures Cancelled(p.jobs, Apply(p, Cancel(at)).jobs, p.jobs.waiting[at])
  {
    JobsAfter(p, Cancel(at));
    DropMembers(p.jobs.waiting, at);
  }

  /** cancelJob takes the job it was asked for, and no other, out of the waiting set and hands it to be deleted. */
  lemma CancelTakesItsJob(min: nat, max: nat, actions: seq<Action>, job: Job)
    requires Runs(Init(min, max), actions) && job in Exec(Init(min, max), actions).jobs.waiting
    requires var p := Exec(Init(min, max), actions); !p.cancelling && !p.shutdown
    ensures var p := Exec(Init(min, max), actions);
            exists at: nat :: Enabled(p, Cancel(at)) && p.jobs.waiting[at] == job
                              && Cancelled(p.jobs, Apply(p, Cancel(at)).jobs, job)
  {
    PoolOrder.RunKeepsInv(Init(min, max), actions);
    var p := Exec(Init(min, max), actions);
    var at :| 0 <= at < |p.jobs.waiting| && p.jobs.waiting[at] == job;
    CancelAt(p, at);
  }

  predicate IsLeast(job: Job, s: seq<Job>) {
    job in s && forall other <- s :: other == job || PoolOrder.Before(job, other)
  }

  /** The destructor clears the waiting set from its least job on. */
  lemma UndoTakesTheLeast(min: nat, max: nat, actions: seq<Action>)
    requires Runs(Init(min, max), actions) && Enabled(Exec(Init(min, max), actions), Undo)
    ensures var p := Exec(Init(min, max), actions);
            p.jobs.waiting != [] && var job := p.jobs.waiting[0];
            Cancelled(p.jobs, Apply(p, Undo).jobs, job) && IsLeast(job, p.jobs.waiting)
  {
    PoolOrder.RunKeepsInv(Init(min, max), actions);
    var p := Exec(Init(min, max), actions);
    JobsAfter(p, Undo);
    DropMembers(p.jobs.waiting, 0);
    var first := p.jobs.waiting[0];
    forall other | other in p.jobs.waiting ensures other == first || PoolOrder.Before(first, other) {
      var k :| 0 <= k < |p.jobs.waiting| && p.jobs.waiting[k] == other;
    }
    assert Cancelled(p.jobs, Apply(p, Undo).jobs, first) && IsLeast(first, p.jobs.waiting);
  }

  /** While a cancelJob holds the lock nobody changes the waiting set or asks for a thread to go. */
  lemma LockHolds(p: Pool, a: Action)
    requires Enabled(p, a) && p.cancelling
    ensures Apply(p, a).jobs.waiting == p.jobs.waiting && (Apply(p, a).subtract ==> p.subtract)
    ensures Apply(p, a).cancelling <==> !a.CancelTake?
  {
    JobsAfter(p, a);
    WishAfter(p, a);
  }

  // ---------------------------------------------------------------- adding a thread

  /** A submission adds a thread exactly if there are fewer than the maximum. */
  lemma AddsThreadIff(min: nat, max: nat, actions: seq<Action>)
    requires Runs(Init(min, max), actions) && Enabled(Exec(Init(min, max), actions), AddThread)
    ensures var t, u := Exec(Init(min, max), actions).threads, Apply(Exec(Init(min, max), actions), AddThread).threads;
            && (u != t <==> |t.running| < t.max)
            && (u != t ==> u.pcs == t.pcs + [Starting] && u.running == t.running + [|t.pcs|] && u.last == t.last + 1)
  {
    PoolThreads.ThreadsConserved(min, max, actions, 0);
    var t := Exec(Init(min, max), actions).threads;
    var v := t.(running := t.running + [|t.pcs|], pcs := t.pcs + [Starting], last := t.last + 1);
    assert AddThreads(v, 0) == v;
    assert AddThreads(t, 1) == v;
  }
}
