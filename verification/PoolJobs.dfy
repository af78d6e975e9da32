/**
 Where every submitted job is: waiting, doing, to be cleared, or deleted.
 */
module PoolJobs {
  import opened PoolModel
  import opened PoolHandOff
  import PoolOrder

  function InJobs(s: seq<Job>, id: nat): nat {
    if s == [] then 0 else (if s[0].id == id then 1 else 0) + InJobs(s[1..], id)
  }

  function InClear(s: seq<Entry>, id: nat): nat {
    if s == [] then 0 else (if s[0].Clear? && s[0].job.id == id then 1 else 0) + InClear(s[1..], id)
  }

  function Places(j: Jobs, id: nat): nat {
    InJobs(j.waiting, id) + (if id in j.doing then 1 else 0) + InClear(j.clear, id) + InJobs(j.deleted, id)
  }

  lemma {:induction false} InJobsConcat(a: seq<Job>, b: seq<Job>, id: nat)
    ensures InJobs(a + b, id) == InJobs(a, id) + InJobs(b, id)
  {
    if a == [] {
      assert a + b == b;
    } else {
      assert (a + b)[1..] == a[1..] + b;
      InJobsConcat(a[1..], b, id);
    }
  }

  lemma InJobsOne(j: Job, id: nat)
    ensures InJobs([j], id) == if j.id == id then 1 else 0
  {
    assert [j][1..] == [];
  }

  lemma {:induction false} InJobsInsert(s: seq<Job>, j: Job, id: nat)
    ensures InJobs(Insert(s, j), id) == InJobs(s, id) + (if j.id == id then 1 else 0)
  {
    if s == [] {
      InJobsOne(j, id);
    } else if Less(j, s[0]) {
      assert ([j] + s)[1..] == s;
    } else {
      InJobsInsert(s[1..], j, id);
      assert ([s[0]] + Insert(s[1..], j))[1..] == Insert(s[1..], j);
    }
  }

  lemma InJobsDrop(s: seq<Job>, at: nat, id: nat)
    requires at < |s|
    ensures InJobs(s, id) == InJobs(DropAt(s, at), id) + (if s[at].id == id then 1 else 0)
  {
    assert s == s[..at] + ([s[at]] + s[at + 1..]);
    InJobsConcat(s[..at], [s[at]] + s[at + 1..], id);
    InJobsConcat([s[at]], s[at + 1..], id);
    InJobsConcat(s[..at], s[at + 1..], id);
    InJobsOne(s[at], id);
  }

  lemma {:induction false} InClearAppend(s: seq<Entry>, e: Entry, id: nat)
    ensures InClear(s + [e], id) == InClear(s, id) + (if e.Clear? && e.job.id == id then 1 else 0)
  {
    if s == [] {
      assert [e][1..] == [];
    } else {
      assert (s + [e])[1..] == s[1..] + [e];
      InClearAppend(s[1..], e, id);
    }
  }

  // ---------------------------------------------------------------- invariant

  /** The job with this id. */
  function JobOf(prios: seq<int>, id: nat): Job
    requires 1 <= id <= |prios|
  {
    Job(prios[id - 1], id)
  }

  predicate Real(prios: seq<int>, job: Job) {
    1 <= job.id <= |prios| && job == JobOf(prios, job.id)
  }

  predicate PlacedAt(j: Jobs, id: nat) {
    Places(j, id) == if 1 <= id <= |j.prios| then 1 else 0
  }

  ghost predicate Placed(j: Jobs) {
    forall id: nat :: PlacedAt(j, id)
  }

  predicate Genuine(j: Jobs, pcs: seq<Pc>) {
    && (forall k :: 0 <= k < |j.waiting| ==> Real(j.prios, j.waiting[k]))
    && (forall id <- j.doing :: Real(j.prios, j.doing[id]) && j.doing[id].id == id)
    && (forall w :: 0 <= w < |pcs| && pcs[w].Running? ==> Real(j.prios, pcs[w].job))
  }

  /** A job is in the doing map exactly while one worker runs it. */
  predicate RunAt(j: Jobs, pcs: seq<Pc>, id: nat) {
    1 <= id <= |j.prios| ==> CountIn(pcs, Running(JobOf(j.prios, id))) == if id in j.doing then 1 else 0
  }

  ghost predicate Run(j: Jobs, pcs: seq<Pc>) {
    forall id: nat :: RunAt(j, pcs, id)
  }

  /** The clear thread's queue and semaphore agree, and the sentinel is the last entry ever. */
  predicate Queue(j: Jobs, sentinel: bool) {
    && |j.clear| == j.semClear + (if j.clearer.ClearBusy? then 1 else 0)
    && (forall k :: 0 <= k < |j.clear| && j.clear[k].Sentinel? ==> k == |j.clear| - 1 && sentinel)
    && (sentinel && !j.clearer.ClearEnded? ==> j.clear != [] && j.clear[|j.clear| - 1].Sentinel?)
    && (j.clearer.ClearEnded? ==> sentinel && j.clear == [])
  }

  predicate Queued(p: Pool) {
    Queue(p.jobs, p.sentinel) && (p.sentinel ==> p.shutdown && p.jobs.waiting == [])
  }

  ghost predicate Inv(p: Pool) {
    Placed(p.jobs) && Genuine(p.jobs, p.threads.pcs) && Run(p.jobs, p.threads.pcs) && Queued(p) && Down(p)
  }

  // ---- each operation on the jobs

  lemma SubmitPlaced(j: Jobs, prio: int)
    requires Placed(j)
    ensures Placed(Submitted(j, prio))
  {
    forall id: nat ensures PlacedAt(Submitted(j, prio), id) {
      assert PlacedAt(j, id);
      InJobsInsert(j.waiting, Job(prio, |j.prios| + 1), id);
    }
  }

  lemma FetchPlaced(j: Jobs, pcs: seq<Pc>)
    requires Placed(j) && Genuine(j, pcs) && j.waiting != []
    ensures j.waiting[0].id !in j.doing && Placed(Fetched(j))
  {
    assert PlacedAt(j, j.waiting[0].id);
    forall id: nat ensures PlacedAt(Fetched(j), id) { assert PlacedAt(j, id); }
  }

  lemma EndPlaced(j: Jobs, pcs: seq<Pc>, job: Job)
    requires Placed(j) && Genuine(j, pcs)
    ensures Placed(Ended(j, job))
  {
    forall id: nat ensures PlacedAt(Ended(j, job), id) {
      assert PlacedAt(j, id);
      if job.id in j.doing { InClearAppend(j.clear, Clear(j.doing[job.id]), id); }
    }
  }

  lemma CancelPlaced(j: Jobs, at: nat)
    requires Placed(j) && at < |j.waiting|
    ensures Placed(Canceled(j, at))
  {
    forall id: nat ensures PlacedAt(Canceled(j, at), id) {
      assert PlacedAt(j, id);
      InJobsDrop(j.waiting, at, id);
      InClearAppend(j.clear, Clear(j.waiting[at]), id);
    }
  }

  lemma PopPlaced(j: Jobs)
    requires Placed(j)
    ensures Placed(Popped(j))
  {
    forall id: nat ensures PlacedAt(Popped(j), id) {
      assert PlacedAt(j, id);
      if j.clear != [] && j.clear[0].Clear? {
        InJobsConcat(j.deleted, [j.clear[0].job], id);
        InJobsOne(j.clear[0].job, id);
      }
    }
  }

  lemma SentinelPlaced(j: Jobs)
    requires Placed(j)
    ensures Placed(Cleared(j, Sentinel))
  {
    forall id: nat ensures PlacedAt(Cleared(j, Sentinel), id) {
      assert PlacedAt(j, id);
      InClearAppend(j.clear, Sentinel, id);
    }
  }

  lemma TakePlaced(j: Jobs)
    requires Placed(j) && j.clearer.ClearIdle? && j.semClear > 0
    ensures Placed(j.(clearer := ClearBusy, semClear := j.semClear - 1))
  {
    var u := j.(clearer := ClearBusy, semClear := j.semClear - 1);
    forall id: nat ensures PlacedAt(u, id) { assert PlacedAt(j, id); }
  }

  lemma PlacedStep(p: Pool, a: Action)
    requires Enabled(p, a) && Placed(p.jobs) && Genuine(p.jobs, p.threads.pcs)
    ensures Placed(NextJobs(p, a))
  {
    match a
    case Submit(prio) => SubmitPlaced(p.jobs, prio);
    case TakeJob(w) => FetchPlaced(p.jobs, p.threads.pcs);
    case EndJob(w) => EndPlaced(p.jobs, p.threads.pcs, p.threads.pcs[w].job);
    case Cancel(i) => CancelPlaced(p.jobs, i);
    case Undo => CancelPlaced(p.jobs, 0);
    case ClearTake => TakePlaced(p.jobs);
    case ClearPop => PopPlaced(p.jobs);
    case PushSentinel => SentinelPlaced(p.jobs);
    case _ =>
  }

  // ---- jobs are real

  lemma AddedPcs(t: Threads, n: nat)
    ensures |t.pcs| <= |AddThreads(t, n).pcs| && AddThreads(t, n).pcs[..|t.pcs|] == t.pcs
    ensures forall w :: |t.pcs| <= w < |AddThreads(t, n).pcs| ==> AddThreads(t, n).pcs[w] == Starting
    decreases n
  {
    if n > 0 {
      var u := t.(running := t.running + [|t.pcs|], pcs := t.pcs + [Starting], last := t.last + 1);
      AddedPcs(u, n - 1);
    }
  }

  lemma GenuineSubmit(j: Jobs, pcs: seq<Pc>, prio: int)
    requires Genuine(j, pcs)
    ensures Genuine(Submitted(j, prio), pcs)
  {
    var u := Submitted(j, prio);
    forall k | 0 <= k < |u.waiting| ensures Real(u.prios, u.waiting[k]) {
      PoolOrder.InsertMembers(j.waiting, Job(prio, |j.prios| + 1), u.waiting[k]);
    }
  }

  lemma GenuinePcs(p: Pool, a: Action)
    requires Enabled(p, a) && !a.Submit? && Genuine(p.jobs, p.threads.pcs)
    ensures Genuine(p.jobs, Apply(p, a).threads.pcs)
  {
    PcsAfter(p, a);
    if a.AddThread? && p.threads.last < p.threads.max {
      AddedPcs(p.threads, AddCount(p.threads.max, p.threads.last, 1));
    }
  }

  lemma GenuineJobs(p: Pool, a: Action, pcs: seq<Pc>)
    requires Enabled(p, a) && !a.Submit? && Genuine(p.jobs, pcs)
    ensures Genuine(NextJobs(p, a), pcs)
  {
  }

  lemma GenuineStep(p: Pool, a: Action)
    requires Enabled(p, a) && Genuine(p.jobs, p.threads.pcs)
    ensures Genuine(NextJobs(p, a), Apply(p, a).threads.pcs)
  {
    if a.Submit? {
      PcsAfter(p, a);
      GenuineSubmit(p.jobs, p.threads.pcs, a.prio);
    } else {
      GenuinePcs(p, a);
      GenuineJobs(p, a, Apply(p, a).threads.pcs);
    }
  }

  // ---- doing and running agree

  lemma {:induction false} AddThreadsRunning(t: Threads, n: nat, pc: Pc)
    requires pc.Running?
    ensures CountIn(AddThreads(t, n).pcs, pc) == CountIn(t.pcs, pc)
    decreases n
  {
    if n > 0 {
      var u := t.(running := t.running + [|t.pcs|], pcs := t.pcs + [Starting], last := t.last + 1);
      CountAppend(t.pcs, Starting, pc);
      AddThreadsRunning(u, n - 1, pc);
    }
  }

  /** How a step changes the number of workers that run a job. */
  lemma RunningAfter(p: Pool, a: Action, job: Job)
    requires Enabled(p, a)
    ensures CountIn(Apply(p, a).threads.pcs, Running(job))
            == CountIn(p.threads.pcs, Running(job))
               + (if a.TakeJob? && p.jobs.waiting[0] == job then 1 else 0)
               - (if a.EndJob? && p.threads.pcs[a.w].job == job then 1 else 0)
  {
    PcsAfter(p, a);
    ThreadsAfter(p, a);
    if Moves(a) {
      CountSet(p.threads.pcs, a.w, NextPc(p, a), Running(job));
    } else if a.AddThread? && p.threads.last < p.threads.max {
      AddThreadsRunning(p.threads, AddCount(p.threads.max, p.threads.last, 1), Running(job));
    }
  }

  /** How a step changes the doing map. */
  lemma DoingAfter(p: Pool, a: Action, id: nat)
    requires Enabled(p, a) && Placed(p.jobs) && Genuine(p.jobs, p.threads.pcs)
    ensures id in NextJobs(p, a).doing <==>
              (a.TakeJob? && p.jobs.waiting[0].id == id) || (id in p.jobs.doing && !(a.EndJob? && p.threads.pcs[a.w].job.id == id))
    ensures a.TakeJob? && p.jobs.waiting[0].id == id ==> id !in p.jobs.doing
    ensures NextJobs(p, a).prios == if a.Submit? then p.jobs.prios + [a.prio] else p.jobs.prios
  {
    if a.TakeJob? { FetchPlaced(p.jobs, p.threads.pcs); }
  }

  lemma RunAtStep(p: Pool, a: Action, id: nat)
    requires Enabled(p, a) && Placed(p.jobs) && Genuine(p.jobs, p.threads.pcs) && Run(p.jobs, p.threads.pcs)
    ensures RunAt(NextJobs(p, a), Apply(p, a).threads.pcs, id)
  {
    var prios := NextJobs(p, a).prios;
    assert RunAt(p.jobs, p.threads.pcs, id);
    DoingAfter(p, a, id);
    if 1 <= id <= |prios| {
      RunningAfter(p, a, JobOf(prios, id));
      if id > |p.jobs.prios| {
        assert PlacedAt(p.jobs, id);
        CountNone(p.threads.pcs, Running(JobOf(prios, id)));
      }
    }
  }

  // ---- the queue of the clear thread

  lemma QueueAdd(j: Jobs, job: Job)
    requires Queue(j, false)
    ensures Queue(Cleared(j, Clear(job)), false)
  {
  }

  lemma QueueEnd(j: Jobs, job: Job)
    requires Queue(j, false)
    ensures Queue(Ended(j, job), false)
  {
    if job.id in j.doing { QueueAdd(j, j.doing[job.id]); }
  }

  lemma QueuePop(j: Jobs, sentinel: bool)
    requires Queue(j, sentinel) && j.clearer.ClearBusy?
    ensures Queue(Popped(j), sentinel)
  {
  }

  lemma QueueStep(p: Pool, a: Action)
    requires Enabled(p, a) && Queued(p) && Down(p)
    ensures Queue(NextJobs(p, a), p.sentinel || a.PushSentinel?)
  {
    match a
    case EndJob(w) => QueueEnd(p.jobs, p.threads.pcs[w].job);
    case Cancel(i) => QueueAdd(p.jobs, p.jobs.waiting[i]);
    case Undo => QueueAdd(p.jobs, p.jobs.waiting[0]);
    case ClearPop => QueuePop(p.jobs, p.sentinel);
    case _ =>
  }

  lemma QueuedStep(p: Pool, a: Action)
    requires Enabled(p, a) && Queued(p) && Down(p)
    ensures Queued(Apply(p, a))
  {
    QueueStep(p, a);
    JobsAfter(p, a);
  }

  lemma InvStep(p: Pool, a: Action)
    requires Enabled(p, a) && Inv(p)
    ensures Inv(Apply(p, a))
  {
    JobsAfter(p, a);
    PlacedStep(p, a);
    GenuineStep(p, a);
    QueuedStep(p, a);
    DownStep(p, a);
    var q := Apply(p, a);
    forall id: nat ensures RunAt(q.jobs, q.threads.pcs, id) { RunAtStep(p, a, id); }
  }

  lemma InitInv(min: nat, max: nat)
    ensures Inv(Init(min, max))
  {
    var p := Init(min, max);
    var none := Threads(min, max, [], [], 0, [], 0, JoinIdle, []);
    AddedPcs(none, AddCount(max, 0, min));
    forall id: nat ensures PlacedAt(p.jobs, id) { }
  }

  lemma {:induction false} RunKeepsInv(p: Pool, actions: seq<Action>)
    requires Inv(p) && Runs(p, actions)
    ensures Inv(Exec(p, actions))
    decreases |actions|
  {
    if actions != [] {
      InvStep(p, actions[0]);
      RunKeepsInv(Apply(p, actions[0]), actions[1..]);
    }
  }

  // ---------------------------------------------------------------- main results

  /**
   Every submitted job, cancelled or not, is in exactly one of waiting, doing, to-clear and
   deleted, so it is deleted at most once; a job is doing exactly while one worker runs it.
   */
  lemma JobsConserved(min: nat, max: nat, actions: seq<Action>, id: nat)
    requires Runs(Init(min, max), actions)
    ensures var p := Exec(Init(min, max), actions);
            var j := p.jobs;
            && InJobs(j.waiting, id) + (if id in j.doing then 1 else 0) + InClear(j.clear, id) + InJobs(j.deleted, id)
               == (if 1 <= id <= |j.prios| then 1 else 0)
            && (1 <= id <= |j.prios| ==>
                  (id in j.doing <==> CountIn(p.threads.pcs, Running(Job(j.prios[id - 1], id))) == 1))
  {
    InitInv(min, max);
    RunKeepsInv(Init(min, max), actions);
    var p := Exec(Init(min, max), actions);
    assert PlacedAt(p.jobs, id);
    assert RunAt(p.jobs, p.threads.pcs, id);
  }

  /** The clear-job thread never finds its queue empty after its semaphore. */
  lemma ClearFindsOne(min: nat, max: nat, actions: seq<Action>)
    requires Runs(Init(min, max), actions)
    ensures var j := Exec(Init(min, max), actions).jobs; j.clearer.ClearBusy? ==> j.clear != []
  {
    InitInv(min, max);
    RunKeepsInv(Init(min, max), actions);
  }

  /** When the clear-job thread has met its sentinel, every job has been deleted, exactly once. */
  lemma AllDeletedAtTheEnd(min: nat, max: nat, actions: seq<Action>, id: nat)
    requires Runs(Init(min, max), actions)
    ensures var j := Exec(Init(min, max), actions).jobs;
            j.clearer.ClearEnded? && 1 <= id <= |j.prios| ==> InJobs(j.deleted, id) == 1
  {
    InitInv(min, max);
    RunKeepsInv(Init(min, max), actions);
    var p := Exec(Init(min, max), actions);
    if p.jobs.clearer.ClearEnded? && 1 <= id <= |p.jobs.prios| {
      assert PlacedAt(p.jobs, id);
      assert RunAt(p.jobs, p.threads.pcs, id);
      CountNone(p.threads.pcs, Running(JobOf(p.jobs.prios, id)));
    }
  }
}
