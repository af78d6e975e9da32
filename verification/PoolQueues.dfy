/** What the two clear threads are handed, in what order, and when the last entry comes. */
module PoolQueues {
  import opened PoolModel
  import PoolJobs
  import PoolThreads

  /** The workers that leave in a run, in order. */
  function Leavers(actions: seq<Action>): seq<nat> {
    if actions == [] then []
    else if actions[0].Leave? then [actions[0].w] + Leavers(actions[1..])
    else Leavers(actions[1..])
  }

  lemma LeaveStep(p: Pool, a: Action)
    requires PoolThreads.Inv(p.threads) && Enabled(p, a)
    ensures var t, u := p.threads, Apply(p, a).threads;
            u.joined + u.removing == if a.Leave? then t.joined + t.removing + [a.w] else t.joined + t.removing
  {
    ThreadsAfter(p, a);
    var t, u := p.threads, Apply(p, a).threads;
    if a.Leave? {
      assert PoolThreads.PlacedAt(t, a.w);
      PoolThreads.InSeqMember(t.running, a.w);
      assert t.joined + (t.removing + [a.w]) == t.joined + t.removing + [a.w];
    } else if a.Join? {
      assert t.joined + t.removing == t.joined + [t.removing[0]] + t.removing[1..];
    } else if a.AddThread? && t.last < t.max {
      KeepsQueues(t, AddCount(t.max, t.last, 1));
    }
  }

  lemma {:induction false} KeepsQueues(t: Threads, n: nat)
    ensures AddThreads(t, n).joined == t.joined && AddThreads(t, n).removing == t.removing
    decreases n
  {
    if n > 0 {
      KeepsQueues(t.(running := t.running + [|t.pcs|], pcs := t.pcs + [Starting], last := t.last + 1), n - 1);
    }
  }

  lemma {:induction false} LeaveOrder(p: Pool, actions: seq<Action>)
    requires PoolThreads.Inv(p.threads) && Runs(p, actions)
    ensures var t, u := p.threads, Exec(p, actions).threads;
            u.joined + u.removing == t.joined + t.removing + Leavers(actions)
    decreases |actions|
  {
    if actions != [] {
      LeaveStep(p, actions[0]);
      PoolThreads.InvStep(p, actions[0]);
      LeaveOrder(Apply(p, actions[0]), actions[1..]);
    }
  }

  /** Over every run the threads are joined in the order in which they left. */
  lemma JoinedAsTheyLeft(min: nat, max: nat, actions: seq<Action>)
    requires Runs(Init(min, max), actions)
    ensures var t := Exec(Init(min, max), actions).threads; t.joined + t.removing == Leavers(actions)
  {
    PoolThreads.InitInv(min, max);
    NothingLeft(min, max);
    LeaveOrder(Init(min, max), actions);
    assert [] + [] + Leavers(actions) == Leavers(actions);
  }

  lemma NothingLeft(min: nat, max: nat)
    ensures var t := Init(min, max).threads; t.joined == [] && t.removing == []
  {
    KeepsQueues(Threads(min, max, [], [], 0, [], 0, JoinIdle, []), AddCount(max, 0, min));
  }

  // ---------------------------------------------------------------- jobs

  /** The job a step gives up for deletion: the one its worker ran, the one cancelled, or the least waiting. */
  function GivenUp(p: Pool, a: Action): seq<Job>
    requires Enabled(p, a)
  {
    match a
    case EndJob(w) => [p.threads.pcs[w].job]
    case Cancel(i) => [p.jobs.waiting[i]]
    case Undo => [p.jobs.waiting[0]]
    case _ => []
  }

  function AllGivenUp(p: Pool, actions: seq<Action>): seq<Job>
    requires Runs(p, actions)
    decreases |actions|
  {
    if actions == [] then [] else GivenUp(p, actions[0]) + AllGivenUp(Apply(p, actions[0]), actions[1..])
  }

  function JobsIn(clear: seq<Entry>): seq<Job> {
    if clear == [] then []
    else if clear[0].Clear? then [clear[0].job] + JobsIn(clear[1..])
    else JobsIn(clear[1..])
  }

  lemma {:induction false} JobsInAppend(clear: seq<Entry>, e: Entry)
    ensures JobsIn(clear + [e]) == JobsIn(clear) + (if e.Clear? then [e.job] else [])
  {
    if clear == [] {
      assert [e][1..] == [];
    } else {
      assert (clear + [e])[1..] == clear[1..] + [e];
      JobsInAppend(clear[1..], e);
    }
  }

  /** The job a worker ends is the one in the doing map under its id. */
  lemma EndsItsOwn(p: Pool, w: nat)
    requires PoolJobs.Inv(p) && Enabled(p, EndJob(w))
    ensures var job := p.threads.pcs[w].job; job.id in p.jobs.doing && p.jobs.doing[job.id] == job
  {
    var job := p.threads.pcs[w].job;
    assert PoolJobs.RunAt(p.jobs, p.threads.pcs, job.id);
    CountNone(p.threads.pcs, Running(job));
  }

  /** Everything the clear-job thread was ever handed. */
  function Handed(j: Jobs): seq<Job> {
    j.deleted + JobsIn(j.clear)
  }

  lemma GiveUpStep(p: Pool, a: Action)
    requires PoolJobs.Inv(p) && Enabled(p, a)
    ensures Handed(Apply(p, a).jobs) == Handed(p.jobs) + GivenUp(p, a)
  {
    JobsAfter(p, a);
    var j := p.jobs;
    match a
    case EndJob(w) => EndsItsOwn(p, w); JobsInAppend(j.clear, Clear(p.threads.pcs[w].job));
    case Cancel(i) => JobsInAppend(j.clear, Clear(j.waiting[i]));
    case Undo => JobsInAppend(j.clear, Clear(j.waiting[0]));
    case PushSentinel => JobsInAppend(j.clear, Sentinel);
    case _ =>
  }

  lemma {:induction false} GiveUpOrder(p: Pool, actions: seq<Action>)
    requires PoolJobs.Inv(p) && Runs(p, actions)
    ensures Handed(Exec(p, actions).jobs) == Handed(p.jobs) + AllGivenUp(p, actions)
    decreases |actions|
  {
    if actions != [] {
      var q := Apply(p, actions[0]);
      GiveUpStep(p, actions[0]);
      PoolJobs.InvStep(p, actions[0]);
      GiveUpOrder(q, actions[1..]);
      Joins(Handed(p.jobs), GivenUp(p, actions[0]), AllGivenUp(q, actions[1..]));
    }
  }

  lemma Joins(a: seq<Job>, b: seq<Job>, c: seq<Job>)
    ensures a + b + c == a + (b + c)
  {
  }

  /** Over every run the jobs are deleted in the order in which they were ended, cancelled or undone. */
  lemma DeletedAsGivenUp(min: nat, max: nat, actions: seq<Action>)
    requires Runs(Init(min, max), actions)
    ensures var j := Exec(Init(min, max), actions).jobs; j.deleted + JobsIn(j.clear) == AllGivenUp(Init(min, max), actions)
  {
    PoolJobs.InitInv(min, max);
    GiveUpOrder(Init(min, max), actions);
    assert Handed(Init(min, max).jobs) == [];
  }

  // ---------------------------------------------------------------- the last entry

  predicate Last(p: Pool) {
    p.sentinel ==> p.exiting && p.hand.dispatcher.Exited?
  }

  lemma LastStep(p: Pool, a: Action)
    requires Last(p) && Enabled(p, a)
    ensures Last(Apply(p, a))
  {
    HandAfter(p, a);
  }

  lemma {:induction false} RunKeepsLast(p: Pool, actions: seq<Action>)
    requires Last(p) && Runs(p, actions)
    ensures Last(Exec(p, actions))
    decreases |actions|
  {
    if actions != [] {
      LastStep(p, actions[0]);
      RunKeepsLast(Apply(p, actions[0]), actions[1..]);
    }
  }

  /** The sentinel is queued only when the dispatcher has ended, every worker has returned and no job waits. */
  lemma SentinelComesLast(min: nat, max: nat, actions: seq<Action>)
    requires Runs(Init(min, max), actions)
    ensures var p := Exec(Init(min, max), actions);
            p.sentinel ==> p.hand.dispatcher.Exited? && AllGone(p.threads) && p.jobs.waiting == [] && p.jobs.doing == map[]
  {
    RunKeepsLast(Init(min, max), actions);
    PoolJobs.InitInv(min, max);
    PoolJobs.RunKeepsInv(Init(min, max), actions);
    var p := Exec(Init(min, max), actions);
    if p.sentinel {
      forall id <- p.jobs.doing ensures false {
        assert PoolJobs.RunAt(p.jobs, p.threads.pcs, id);
        CountNone(p.threads.pcs, Running(p.jobs.doing[id]));
      }
    }
  }
}
