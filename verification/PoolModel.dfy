/**
 rpc_srv_demo_linux/threadpool/rthreadpool.cpp and rbasejob.cpp as a state machine.

 One step is a critical section, a semaphore or event operation, or the work between two of
 them.  Submitting is one step up to the release of waiting_jobs_lock_.  The two auto-reset
 events are flags: a worker that waits for all three events may be woken by any that is set.
 */
module PoolModel {
  datatype Job = Job(prio: int, id: nat)

  /** RBaseJob::operator<, which is also true of a job and itself. */
  predicate Less(a: Job, b: Job) {
    if a.prio < b.prio then true
    else if a.prio > b.prio then false
    else if a.id < b.id then true
    else if a.id > b.id then false
    else true
  }

  /** Insertion into the ordered set. */
  function Insert(s: seq<Job>, j: Job): seq<Job> {
    if s == [] then [j] else if Less(j, s[0]) then [j] + s else [s[0]] + Insert(s[1..], j)
  }

  /** An entry of deque_clear_job_; the destructor's entry has no job. */
  datatype Entry = Clear(job: Job) | Sentinel

  /** A job handed to a worker, with the number of jobs submitted until then. */
  datatype Taken = Taken(job: Job, index: nat)

  datatype Clearer = ClearIdle | ClearBusy | ClearEnded

  /** `prios[i]` is the priority of the job with id i + 1; `prios` and `taken` are histories. */
  datatype Jobs = Jobs(
    prios: seq<int>, waiting: seq<Job>, doing: map<nat, Job>, clear: seq<Entry>, semClear: nat,
    clearer: Clearer, deleted: seq<Job>, taken: seq<Taken>)

  datatype Dispatcher =
    | AtSem      // in sem_wait for a job
    | Woken      // past it, before the exit flag is read
    | Holding    // before the event is set
    | Awaiting   // in sem_wait for the worker's answer
    | Exited

  /**
   The hand-off: sem_job_needed_to_do_, job_needed_to_do_event_, sem_notify_got_waitting_job_, and
   as a history the job signals that stop() took away from a worker.
   */
  datatype Hand = Hand(sem: nat, dispatcher: Dispatcher, signalled: bool, semGot: nat, lost: nat)

  datatype Pc =
    | Starting
    | Idle                // waiting for the three events
    | Got                 // woken by the job event, before waiting_jobs_lock_
    | Running(job: Job)
    | Finished            // the job is on its way to the clear thread
    | Leaving             // woken by the stop or the subtract event
    | Left                // handed itself to the clear thread, about to return
    | Gone

  datatype Joiner = JoinIdle | JoinBusy

  /** Threads are numbered in order of creation. */
  datatype Threads = Threads(
    min: int, max: int, pcs: seq<Pc>, running: seq<nat>, last: int, removing: seq<nat>, semRemoving: nat,
    joiner: Joiner, joined: seq<nat>)

  /**
   `cancelling` is a cancelJob that has taken its job out and holds waiting_jobs_lock_ until
   sem_wait returns; `adders` counts submitters that have yet to add a thread; `shutdown` is the
   destructor after stopAndWait, `exiting` is exit_waitting_job_thread_.
   */
  datatype Pool = Pool(
    jobs: Jobs, hand: Hand, threads: Threads, cancelling: bool, adders: nat,
    subtract: bool, stopped: bool, shutdown: bool, exiting: bool, sentinel: bool)

  datatype Action =
    | Submit(prio: int)
    | AddThread
    | Begin(w: nat)
    | Dispatch
    | ReadExit
    | SetJobEvent
    | WakeJob(w: nat)
    | TakeJob(w: nat)
    | Acknowledge
    | EndJob(w: nat)
    | CheckSubtract(w: nat)
    | WakeStop(w: nat)
    | StopOverrides(w: nat)   // stop() writes its index over that of the job event
    | WakeSubtract(w: nat)
    | Leave(w: nat)
    | Return(w: nat)
    | JoinTake
    | Join
    | Cancel(at: nat)
    | CancelTake
    | Stop
    | ClearTake
    | ClearPop
    | Shutdown
    | Undo
    | PostExit
    | PushSentinel

  // ---------------------------------------------------------------- threads

  /** How many threads _addJobThread creates. */
  function AddCount(max: int, last: int, count: nat): int {
    if max - last == 0 then 0 else if max - last < count then max - last else count
  }

  function AddThreads(t: Threads, n: nat): Threads
    decreases n
  {
    if n == 0 then t
    else AddThreads(t.(running := t.running + [|t.pcs|], pcs := t.pcs + [Starting], last := t.last + 1), n - 1)
  }

  predicate At(t: Threads, w: nat, pc: Pc) {
    w < |t.pcs| && t.pcs[w] == pc
  }

  predicate AllGone(t: Threads) {
    forall w :: 0 <= w < |t.pcs| ==> t.pcs[w] == Gone
  }

  function To(t: Threads, w: nat, pc: Pc): Threads
    requires w < |t.pcs|
  {
    t.(pcs := t.pcs[w := pc])
  }

  function Without(s: seq<nat>, w: nat): seq<nat> {
    if s == [] then [] else if s[0] == w then s[1..] else [s[0]] + Without(s[1..], w)
  }

  /** _clearRunningMapThread */
  function Departed(t: Threads, w: nat): Threads
    requires w < |t.pcs|
  {
    var u := t.(pcs := t.pcs[w := Left], last := t.last - 1);
    if w in t.running
    then u.(running := Without(t.running, w), removing := t.removing + [w], semRemoving := t.semRemoving + 1)
    else u
  }

  /** The clear thread pops the front thread and joins it, which needs it to have returned. */
  predicate CanJoin(t: Threads) {
    t.joiner.JoinBusy? && (t.removing == [] || (t.removing[0] < |t.pcs| && t.pcs[t.removing[0]] == Gone))
  }

  function Joined(t: Threads): Threads {
    if t.removing == [] then t
    else t.(removing := t.removing[1..], joined := t.joined + [t.removing[0]], joiner := JoinIdle)
  }

  // ---------------------------------------------------------------- jobs

  function Cleared(j: Jobs, e: Entry): Jobs {
    j.(clear := j.clear + [e], semClear := j.semClear + 1)
  }

  function Submitted(j: Jobs, prio: int): Jobs {
    j.(prios := j.prios + [prio], waiting := Insert(j.waiting, Job(prio, |j.prios| + 1)))
  }

  function DropAt(s: seq<Job>, i: nat): seq<Job>
    requires i < |s|
  {
    s[..i] + s[i + 1..]
  }

  /** _getJob under its locks; map insertion keeps an old entry. */
  function Fetched(j: Jobs): Jobs
    requires j.waiting != []
  {
    var job := j.waiting[0];
    j.(waiting := j.waiting[1..], taken := j.taken + [Taken(job, |j.prios|)],
       doing := if job.id in j.doing then j.doing else j.doing[job.id := job])
  }

  function Ended(j: Jobs, job: Job): Jobs {
    if job.id in j.doing then Cleared(j, Clear(j.doing[job.id])).(doing := j.doing - {job.id}) else j
  }

  function Canceled(j: Jobs, at: nat): Jobs
    requires at < |j.waiting|
  {
    Cleared(j, Clear(j.waiting[at])).(waiting := DropAt(j.waiting, at))
  }

  /** One turn of the clear-job thread under its lock. */
  function Popped(j: Jobs): Jobs {
    if j.clear == [] then j
    else match j.clear[0]
      case Clear(job) => j.(clear := j.clear[1..], deleted := j.deleted + [job], clearer := ClearIdle)
      case Sentinel => j.(clear := j.clear[1..], clearer := ClearEnded)
  }

  // ---------------------------------------------------------------- steps

  predicate Enabled(p: Pool, a: Action) {
    match a
    case Submit(_) => !p.stopped && !p.cancelling
    case AddThread => p.adders > 0
    case Begin(w) => At(p.threads, w, Starting)
    case Dispatch => p.hand.dispatcher.AtSem? && p.hand.sem > 0
    case ReadExit => p.hand.dispatcher.Woken?
    case SetJobEvent => p.hand.dispatcher.Holding?
    case WakeJob(w) => p.hand.signalled && At(p.threads, w, Idle)
    case TakeJob(w) => At(p.threads, w, Got) && !p.cancelling && p.jobs.waiting != []
    case Acknowledge => p.hand.dispatcher.Awaiting? && p.hand.semGot > 0
    case EndJob(w) => w < |p.threads.pcs| && p.threads.pcs[w].Running?
    case CheckSubtract(w) => At(p.threads, w, Finished) && !p.cancelling
    case WakeStop(w) => p.stopped && At(p.threads, w, Idle)
    case StopOverrides(w) => p.stopped && At(p.threads, w, Got)
    case WakeSubtract(w) => p.subtract && At(p.threads, w, Idle)
    case Leave(w) => At(p.threads, w, Leaving)
    case Return(w) => At(p.threads, w, Left)
    case JoinTake => p.threads.joiner.JoinIdle? && p.threads.semRemoving > 0
    case Join => CanJoin(p.threads)
    case Cancel(i) => !p.cancelling && !p.shutdown && i < |p.jobs.waiting|
    case CancelTake => p.cancelling && p.hand.sem > 0
    case Stop => true
    case ClearTake => p.jobs.clearer.ClearIdle? && p.jobs.semClear > 0
    case ClearPop => p.jobs.clearer.ClearBusy?
    case Shutdown => p.stopped && AllGone(p.threads) && !p.cancelling && p.adders == 0
    case Undo => p.shutdown && !p.cancelling && p.jobs.waiting != []
    case PostExit => p.shutdown && !p.cancelling && p.jobs.waiting == [] && !p.exiting
    case PushSentinel => p.exiting && p.hand.dispatcher.Exited? && !p.sentinel
  }

  function Apply(p: Pool, a: Action): Pool
    requires Enabled(p, a)
  {
    match a
    case Submit(prio) =>
      p.(jobs := Submitted(p.jobs, prio), hand := p.hand.(sem := p.hand.sem + 1), adders := p.adders + 1)
    case AddThread =>
      p.(adders := p.adders - 1,
         threads := if p.threads.last < p.threads.max
                    then (var k := AddCount(p.threads.max, p.threads.last, 1); AddThreads(p.threads, k)) else p.threads)
    case Begin(w) => p.(threads := To(p.threads, w, Idle))
    case Dispatch => p.(hand := p.hand.(sem := p.hand.sem - 1, dispatcher := Woken))
    case ReadExit => p.(hand := p.hand.(dispatcher := if p.exiting then Exited else Holding))
    case SetJobEvent => p.(hand := p.hand.(signalled := true, dispatcher := Awaiting))
    case WakeJob(w) => p.(hand := p.hand.(signalled := false), threads := To(p.threads, w, Got))
    case TakeJob(w) =>
      p.(jobs := Fetched(p.jobs), threads := To(p.threads, w, Running(p.jobs.waiting[0])),
         hand := p.hand.(semGot := p.hand.semGot + 1))
    case Acknowledge => p.(hand := p.hand.(semGot := p.hand.semGot - 1, dispatcher := AtSem))
    case EndJob(w) => p.(jobs := Ended(p.jobs, p.threads.pcs[w].job), threads := To(p.threads, w, Finished))
    case CheckSubtract(w) =>
      p.(threads := To(p.threads, w, Idle),
         subtract := p.subtract || (p.jobs.waiting == [] && p.threads.last > p.threads.min && !p.stopped))
    case WakeStop(w) => p.(threads := To(p.threads, w, Leaving))
    case StopOverrides(w) => p.(threads := To(p.threads, w, Leaving), hand := p.hand.(lost := p.hand.lost + 1))
    case WakeSubtract(w) => p.(threads := To(p.threads, w, Leaving), subtract := false)
    case Leave(w) => p.(threads := Departed(p.threads, w))
    case Return(w) => p.(threads := To(p.threads, w, Gone))
    case JoinTake => p.(threads := p.threads.(joiner := JoinBusy, semRemoving := p.threads.semRemoving - 1))
    case Join => p.(threads := Joined(p.threads))
    case Cancel(i) => p.(jobs := Canceled(p.jobs, i), cancelling := true)
    case CancelTake => p.(hand := p.hand.(sem := p.hand.sem - 1), cancelling := false)
    case Stop => p.(stopped := true)
    case ClearTake => p.(jobs := p.jobs.(clearer := ClearBusy, semClear := p.jobs.semClear - 1))
    case ClearPop => p.(jobs := Popped(p.jobs))
    case Shutdown => p.(shutdown := true)
    case Undo =>
      p.(jobs := Canceled(p.jobs, 0), hand := if p.hand.sem > 0 then p.hand.(sem := p.hand.sem - 1) else p.hand)
    case PostExit => p.(exiting := true, hand := p.hand.(sem := p.hand.sem + 1, semGot := p.hand.semGot + 1))
    case PushSentinel => p.(jobs := Cleared(p.jobs, Sentinel), sentinel := true)
  }

  /** The steps of worker `a.w`. */
  predicate Moves(a: Action) {
    a.Begin? || a.WakeJob? || a.TakeJob? || a.EndJob? || a.CheckSubtract? || a.WakeStop? || a.StopOverrides?
    || a.WakeSubtract? || a.Leave? || a.Return?
  }

  /** Where the worker's step takes it. */
  function NextPc(p: Pool, a: Action): Pc
    requires Enabled(p, a) && Moves(a)
  {
    match a
    case WakeJob(_) => Got
    case TakeJob(_) => Running(p.jobs.waiting[0])
    case EndJob(_) => Finished
    case WakeStop(_) => Leaving
    case StopOverrides(_) => Leaving
    case WakeSubtract(_) => Leaving
    case Leave(_) => Left
    case Return(_) => Gone
    case _ => Idle
  }

  /** The jobs after a step. */
  function NextJobs(p: Pool, a: Action): Jobs
    requires Enabled(p, a)
  {
    match a
    case Submit(prio) => Submitted(p.jobs, prio)
    case TakeJob(_) => Fetched(p.jobs)
    case EndJob(w) => Ended(p.jobs, p.threads.pcs[w].job)
    case Cancel(i) => Canceled(p.jobs, i)
    case Undo => Canceled(p.jobs, 0)
    case ClearTake => p.jobs.(clearer := ClearBusy, semClear := p.jobs.semClear - 1)
    case ClearPop => Popped(p.jobs)
    case PushSentinel => Cleared(p.jobs, Sentinel)
    case _ => p.jobs
  }

  lemma JobsAfter(p: Pool, a: Action)
    requires Enabled(p, a)
    ensures Apply(p, a).jobs == NextJobs(p, a)
  {
  }

  /** The hand-off after a step. */
  function NextHand(p: Pool, a: Action): Hand
    requires Enabled(p, a)
  {
    var h := p.hand;
    match a
    case Submit(_) => h.(sem := h.sem + 1)
    case Dispatch => h.(sem := h.sem - 1, dispatcher := Woken)
    case ReadExit => h.(dispatcher := if p.exiting then Exited else Holding)
    case SetJobEvent => h.(signalled := true, dispatcher := Awaiting)
    case WakeJob(_) => h.(signalled := false)
    case TakeJob(_) => h.(semGot := h.semGot + 1)
    case Acknowledge => h.(semGot := h.semGot - 1, dispatcher := AtSem)
    case StopOverrides(_) => h.(lost := h.lost + 1)
    case CancelTake => h.(sem := h.sem - 1)
    case Undo => if h.sem > 0 then h.(sem := h.sem - 1) else h
    case PostExit => h.(sem := h.sem + 1, semGot := h.semGot + 1)
    case _ => h
  }

  lemma HandAfter(p: Pool, a: Action)
    requires Enabled(p, a)
    ensures Apply(p, a).hand == NextHand(p, a)
    ensures Apply(p, a).exiting == (p.exiting || a.PostExit?)
    ensures Apply(p, a).stopped == (p.stopped || a.Stop?)
    ensures Apply(p, a).shutdown == (p.shutdown || a.Shutdown?)
  {
  }

  /** The threads after a step. */
  lemma ThreadsAfter(p: Pool, a: Action)
    requires Enabled(p, a)
    ensures Moves(a) ==> a.w < |p.threads.pcs| && !p.threads.pcs[a.w].Gone? && (a.Return? <==> p.threads.pcs[a.w].Left?)
    ensures Moves(a) && !a.Leave? ==> Apply(p, a).threads == To(p.threads, a.w, NextPc(p, a))
    ensures a.Leave? ==> Apply(p, a).threads == Departed(p.threads, a.w)
    ensures !Moves(a) && !a.AddThread? && !a.JoinTake? && !a.Join? ==> Apply(p, a).threads == p.threads
  {
  }

  lemma PcsAfter(p: Pool, a: Action)
    requires Enabled(p, a)
    ensures Moves(a) ==> a.w < |p.threads.pcs| && Apply(p, a).threads.pcs == p.threads.pcs[a.w := NextPc(p, a)]
    ensures !Moves(a) && !a.AddThread? ==> Apply(p, a).threads.pcs == p.threads.pcs
  {
    ThreadsAfter(p, a);
  }

  /** The pool after start(). */
  function Init(min: nat, max: nat): Pool {
    var none := Threads(min, max, [], [], 0, [], 0, JoinIdle, []);
    Pool(Jobs([], [], map[], [], 0, ClearIdle, [], []), Hand(0, AtSem, false, 0, 0),
         (var k := AddCount(max, 0, min); AddThreads(none, k)), false, 0, false, false, false, false, false)
  }

  predicate Runs(p: Pool, actions: seq<Action>)
    decreases |actions|
  {
    actions == [] || (Enabled(p, actions[0]) && Runs(Apply(p, actions[0]), actions[1..]))
  }

  function Exec(p: Pool, actions: seq<Action>): Pool
    requires Runs(p, actions)
    decreases |actions|
  {
    if actions == [] then p else Exec(Apply(p, actions[0]), actions[1..])
  }

  lemma {:induction false} RunsConcat(p: Pool, a: seq<Action>, b: seq<Action>)
    requires Runs(p, a) && Runs(Exec(p, a), b)
    ensures Runs(p, a + b) && Exec(p, a + b) == Exec(Exec(p, a), b)
    decreases |a|
  {
    if a == [] {
      assert a + b == b;
    } else {
      assert (a + b)[1..] == a[1..] + b;
      RunsConcat(Apply(p, a[0]), a[1..], b);
    }
  }

  lemma TwoSteps(p: Pool, a: Action, b: Action)
    requires Enabled(p, a) && Enabled(Apply(p, a), b)
    ensures Runs(p, [a, b]) && Exec(p, [a, b]) == Apply(Apply(p, a), b)
  {
    var q := Apply(p, a);
    assert [a, b][1..] == [b] && [b][1..] == [];
    assert Runs(Apply(q, b), []) && Exec(Apply(q, b), []) == Apply(q, b);
    assert Runs(q, [b]) && Exec(q, [b]) == Exec(Apply(q, b), []);
  }

  // ---------------------------------------------------------------- counting program counters

  function CountIn(pcs: seq<Pc>, pc: Pc): nat {
    if pcs == [] then 0 else (if pcs[0] == pc then 1 else 0) + CountIn(pcs[1..], pc)
  }

  lemma {:induction false} CountSet(pcs: seq<Pc>, w: nat, to: Pc, pc: Pc)
    requires w < |pcs|
    ensures CountIn(pcs[w := to], pc)
            == CountIn(pcs, pc) - (if pcs[w] == pc then 1 else 0) + (if to == pc then 1 else 0)
  {
    if w == 0 {
      assert pcs[0 := to][1..] == pcs[1..];
    } else {
      assert pcs[w := to][1..] == pcs[1..][w - 1 := to];
      CountSet(pcs[1..], w - 1, to, pc);
    }
  }

  lemma {:induction false} CountAppend(pcs: seq<Pc>, last: Pc, pc: Pc)
    ensures CountIn(pcs + [last], pc) == CountIn(pcs, pc) + (if last == pc then 1 else 0)
  {
    if pcs == [] {
      assert [last][1..] == [];
    } else {
      assert (pcs + [last])[1..] == pcs[1..] + [last];
      CountAppend(pcs[1..], last, pc);
    }
  }

  lemma {:induction false} CountNone(pcs: seq<Pc>, pc: Pc)
    ensures CountIn(pcs, pc) == 0 <==> pc !in pcs
  {
    if pcs != [] {
      CountNone(pcs[1..], pc);
      assert pc in pcs <==> pc == pcs[0] || pc in pcs[1..];
    }
  }
}
