/**
 The order in which jobs leave the waiting set: by priority, then by submission.
 */
module PoolOrder {
  import opened PoolModel

  predicate Before(a: Job, b: Job) {
    a.prio < b.prio || (a.prio == b.prio && a.id < b.id)
  }

  /** operator< is a strict order exactly between different jobs; a job is less than itself. */
  lemma LessIsStrictIff(a: Job, b: Job)
    ensures Less(a, b) <==> Before(a, b) || a == b
    ensures !(Less(a, b) && Less(b, a)) <==> a != b
    ensures Less(a, b) || Less(b, a)
  {
  }

  predicate Sorted(s: seq<Job>) {
    forall i, k :: 0 <= i < k < |s| ==> Before(s[i], s[k])
  }

  lemma {:induction false} InsertMembers(s: seq<Job>, j: Job, x: Job)
    ensures x in Insert(s, j) <==> x == j || x in s
  {
    if s != [] && !Less(j, s[0]) {
      InsertMembers(s[1..], j, x);
      assert x in s <==> x == s[0] || x in s[1..];
    }
  }

  lemma {:induction false} InsertSorted(s: seq<Job>, j: Job)
    requires Sorted(s) && j !in s
    ensures Sorted(Insert(s, j))
  {
    if s != [] && !Less(j, s[0]) {
      var rest := s[1..];
      InsertSorted(rest, j);
      forall i | 0 <= i < |Insert(rest, j)| ensures Before(s[0], Insert(rest, j)[i]) {
        InsertMembers(rest, j, Insert(rest, j)[i]);
      }
    }
  }

  /** A job taken later, although it was already waiting, comes after in (priority, id). */
  predicate InOrder(j: Jobs) {
    && (forall i, k :: 0 <= i < k < |j.taken| && j.taken[k].job.id <= j.taken[i].index ==>
          Before(j.taken[i].job, j.taken[k].job))
    && (forall i, k :: 0 <= i < |j.taken| && 0 <= k < |j.waiting| && j.waiting[k].id <= j.taken[i].index ==>
          Before(j.taken[i].job, j.waiting[k]))
    && (forall i :: 0 <= i < |j.taken| ==> j.taken[i].job.id <= j.taken[i].index <= |j.prios|)
    && (forall k :: 0 <= k < |j.waiting| ==> j.waiting[k].id <= |j.prios|)
  }

  predicate Inv(j: Jobs) {
    Sorted(j.waiting) && InOrder(j)
  }

  lemma SubmitKeeps(j: Jobs, prio: int)
    requires Inv(j)
    ensures Inv(Submitted(j, prio))
  {
    var job := Job(prio, |j.prios| + 1);
    InsertSorted(j.waiting, job);
    var u := Submitted(j, prio);
    forall k | 0 <= k < |u.waiting| ensures u.waiting[k] == job || u.waiting[k] in j.waiting {
      InsertMembers(j.waiting, job, u.waiting[k]);
    }
  }

  lemma FetchKeeps(j: Jobs)
    requires Inv(j) && j.waiting != []
    ensures Inv(Fetched(j))
  {
  }

  lemma DropKeeps(j: Jobs, at: nat)
    requires Inv(j) && at < |j.waiting|
    ensures Inv(Canceled(j, at))
  {
    var u := Canceled(j, at);
    forall k | 0 <= k < |u.waiting| ensures u.waiting[k] == j.waiting[if k < at then k else k + 1] { }
  }

  lemma JobsKeep(p: Pool, a: Action)
    requires Enabled(p, a) && Inv(p.jobs)
    ensures Inv(NextJobs(p, a))
  {
    match a
    case Submit(prio) => SubmitKeeps(p.jobs, prio);
    case TakeJob(w) => FetchKeeps(p.jobs);
    case Cancel(i) => DropKeeps(p.jobs, i);
    case Undo => DropKeeps(p.jobs, 0);
    case _ =>
  }

  lemma InvStep(p: Pool, a: Action)
    requires Enabled(p, a) && Inv(p.jobs)
    ensures Inv(Apply(p, a).jobs)
  {
    JobsKeep(p, a);
    JobsAfter(p, a);
  }

  lemma {:induction false} RunKeepsInv(p: Pool, actions: seq<Action>)
    requires Inv(p.jobs) && Runs(p, actions)
    ensures Inv(Exec(p, actions).jobs)
    decreases |actions|
  {
    if actions != [] {
      InvStep(p, actions[0]);
      RunKeepsInv(Apply(p, actions[0]), actions[1..]);
    }
  }

  /** The job a worker takes is the least of all that wait. */
  lemma TakesTheLeast(min: nat, max: nat, actions: seq<Action>, w: nat)
    requires Runs(Init(min, max), actions) && Enabled(Exec(Init(min, max), actions), TakeJob(w))
    ensures var p := Exec(Init(min, max), actions);
            var q := Apply(p, TakeJob(w));
            exists job :: At(q.threads, w, Running(job)) && job in p.jobs.waiting
                          && forall other <- p.jobs.waiting :: other == job || Before(job, other)
  {
    RunKeepsInv(Init(min, max), actions);
    var p := Exec(Init(min, max), actions);
    assert At(Apply(p, TakeJob(w)).threads, w, Running(p.jobs.waiting[0]));
  }

  /**
   Over a whole run: of two jobs that waited together the earlier one taken comes first in
   (priority, id), and jobs of equal priority are always taken in the order of submission.
   */
  lemma TakenInOrder(min: nat, max: nat, actions: seq<Action>, i: nat, k: nat)
    requires Runs(Init(min, max), actions) && i < k < |Exec(Init(min, max), actions).jobs.taken|
    ensures var taken := Exec(Init(min, max), actions).jobs.taken;
            && (taken[k].job.id <= taken[i].index ==> Before(taken[i].job, taken[k].job))
            && (taken[i].job.prio == taken[k].job.prio ==> taken[i].job.id < taken[k].job.id)
  {
    RunKeepsInv(Init(min, max), actions);
  }

  // ---------------------------------------------------------------- ids that are not one step

  /**
   submitJob as the source has it: the counter is incremented before the lock is taken and read
   again under it.
   */
  datatype Half = Increment(submitter: nat) | Read(submitter: nat)

  /** The ids given out, by submitter, when the halves of several submissions interleave. */
  function Given(halves: seq<Half>, index: nat, ids: map<nat, nat>): map<nat, nat> {
    if halves == [] then ids
    else match halves[0]
      case Increment(_) => Given(halves[1..], index + 1, ids)
      case Read(s) => Given(halves[1..], index, ids[s := index])
  }

  function Increments(halves: seq<Half>): nat {
    if halves == [] then 0 else (if halves[0].Increment? then 1 else 0) + Increments(halves[1..])
  }

  predicate NoRead(halves: seq<Half>, s: nat) {
    forall i :: 0 <= i < |halves| ==> halves[i] != Read(s)
  }

  lemma {:induction false} GivenKeeps(halves: seq<Half>, index: nat, ids: map<nat, nat>, s: nat)
    requires s in ids && NoRead(halves, s)
    ensures s in Given(halves, index, ids) && Given(halves, index, ids)[s] == ids[s]
    decreases |halves|
  {
    if halves != [] {
      match halves[0]
      case Increment(_) => GivenKeeps(halves[1..], index + 1, ids, s);
      case Read(t) => GivenKeeps(halves[1..], index, ids[t := index], s);
    }
  }

  lemma {:induction false} GivenAfter(before: seq<Half>, index: nat, ids: map<nat, nat>, after: seq<Half>, s: nat)
    requires NoRead(after, s)
    ensures var g := Given(before + [Read(s)] + after, index, ids);
            s in g && g[s] == index + Increments(before)
    decreases |before|
  {
    var all := before + [Read(s)] + after;
    if before == [] {
      assert all[1..] == after;
      GivenKeeps(after, index, ids[s := index], s);
    } else {
      assert all[1..] == before[1..] + [Read(s)] + after;
      match before[0]
      case Increment(_) => GivenAfter(before[1..], index + 1, ids, after, s);
      case Read(t) => GivenAfter(before[1..], index, ids[t := index], after, s);
    }
  }

  lemma {:induction false} IncrementsConcat(a: seq<Half>, b: seq<Half>)
    ensures Increments(a + b) == Increments(a) + Increments(b)
  {
    if a == [] {
      assert a + b == b;
    } else {
      assert (a + b)[1..] == a[1..] + b;
      IncrementsConcat(a[1..], b);
    }
  }

  lemma {:induction false} NoIncrement(b: seq<Half>, h: Half)
    requires Increments(b) == 0 && h.Increment?
    ensures h !in b
  {
    if b != [] { NoIncrement(b[1..], h); }
  }

  /**
   Two submissions get the same id exactly if no increment comes between their reads; so the later
   reader's own increment came before the other's read.
   */
  lemma SameIdIff(a: seq<Half>, s: nat, b: seq<Half>, t: nat, c: seq<Half>)
    requires s != t && NoRead(b, s) && NoRead(c, s) && NoRead(c, t)
    ensures var g := Given(a + [Read(s)] + b + [Read(t)] + c, 0, map[]);
            && s in g && t in g && (g[s] == g[t] <==> Increments(b) == 0)
            && (g[s] == g[t] && Increment(t) in a + b ==> Increment(t) in a)
  {
    var all := a + [Read(s)] + b + [Read(t)] + c;
    assert all == a + [Read(s)] + (b + [Read(t)] + c);
    GivenAfter(a, 0, map[], b + [Read(t)] + c, s);
    assert all == (a + [Read(s)] + b) + [Read(t)] + c;
    GivenAfter(a + [Read(s)] + b, 0, map[], c, t);
    IncrementsConcat(a + [Read(s)], b);
    IncrementsConcat(a, [Read(s)]);
    assert [Read(s)][1..] == [];
    if Increments(b) == 0 { NoIncrement(b, Increment(t)); }
  }

  /** The halves of submitter `s`. */
  function Own(halves: seq<Half>, s: nat): seq<Half> {
    if halves == [] then []
    else if halves[0].submitter == s then [halves[0]] + Own(halves[1..], s) else Own(halves[1..], s)
  }

  lemma OwnCons(h: Half, rest: seq<Half>, s: nat)
    ensures Own([h] + rest, s) == if h.submitter == s then [h] + Own(rest, s) else Own(rest, s)
  {
    assert ([h] + rest)[1..] == rest;
  }

  /** Both submitters increment, then both read. */
  function Crossed(s: nat, t: nat): seq<Half> {
    [Increment(s)] + ([Increment(t)] + ([Read(s)] + ([Read(t)] + [])))
  }

  lemma CrossedOwn(s: nat, t: nat, x: nat)
    requires s != t && (x == s || x == t)
    ensures Own(Crossed(s, t), x) == [Increment(x), Read(x)]
  {
    OwnCons(Read(t), [], x);
    OwnCons(Read(s), [Read(t)] + [], x);
    OwnCons(Increment(t), [Read(s)] + ([Read(t)] + []), x);
    OwnCons(Increment(s), [Increment(t)] + ([Read(s)] + ([Read(t)] + [])), x);
  }

  /** Two submissions, each reading after its own increment, both of which get the same id. */
  lemma TwinsReachable(s: nat, t: nat)
    requires s != t
    ensures var halves := Crossed(s, t);
            && Own(halves, s) == [Increment(s), Read(s)] && Own(halves, t) == [Increment(t), Read(t)]
            && var g := Given(halves, 0, map[]); s in g && t in g && g[s] == g[t]
  {
    CrossedOwn(s, t, s);
    CrossedOwn(s, t, t);
    SameIdIff([Increment(s), Increment(t)], s, [], t, []);
    assert Crossed(s, t) == [Increment(s), Increment(t)] + [Read(s)] + [] + [Read(t)] + [];
  }

  /** Submissions `from` .. `n` one after the other, each in one piece. */
  function InTurn(from: nat, n: nat): seq<Half>
    requires from <= n
    decreases n - from
  {
    if from == n then [] else [Increment(from), Read(from)] + InTurn(from + 1, n)
  }

  /** Undivided submissions are numbered 1, 2, 3, .. */
  lemma {:induction false} InTurnDistinct(from: nat, n: nat, ids: map<nat, nat>, i: nat)
    requires from <= n && i < n && (i < from ==> i in ids && ids[i] == i + 1)
    ensures var g := Given(InTurn(from, n), from, ids); i in g && g[i] == i + 1
    decreases n - from
  {
    if from < n {
      var halves, rest := InTurn(from, n), InTurn(from + 1, n);
      assert halves[1..] == [Read(from)] + rest && halves[1..][1..] == rest;
      InTurnDistinct(from + 1, n, ids[from := from + 1], i);
    }
  }

  lemma TakenTwice(j: Jobs, first: Job, second: Job)
    requires first.id == second.id && first.id !in j.doing && j.waiting == [first, second]
    ensures Fetched(Fetched(j)).doing == j.doing[first.id := first] && Fetched(Fetched(j)).waiting == []
    ensures Fetched(Fetched(j)) == j.(waiting := [], doing := j.doing[first.id := first], taken := Fetched(Fetched(j)).taken)
  {
    assert [first, second][1..] == [second] && [second][1..] == [];
    assert Fetched(j).waiting == [second];
  }

  lemma EndedTwice(j: Jobs, id: nat, first: Job, x: Job, y: Job)
    requires first.id == x.id == y.id == id && id in j.doing && j.doing[id] == first
    ensures Ended(j, x).clear == j.clear + [Clear(first)]
    ensures Ended(Ended(j, x), y)
            == j.(doing := j.doing - {id}, clear := j.clear + [Clear(first)], semClear := j.semClear + 1)
  {
  }

  lemma BothInserted(a: Job, b: Job)
    ensures Insert(Insert([], a), b) == [a, b] || Insert(Insert([], a), b) == [b, a]
  {
    assert Insert([], a) == [a];
    assert [a][1..] == [];
    assert Insert([], b) == [b];
  }

  /**
   What two jobs with one id do to the containers.  Both wait; the doing map keeps the one taken
   first; whichever worker ends first queues that one for deletion, even if it still runs; the
   other job is in no container any more and is never deleted.
   */
  lemma TwinsLeak(j: Jobs, a: Job, b: Job, x: Job, y: Job)
    requires a.id == b.id == x.id == y.id && a.id !in j.doing && j.waiting == []
    ensures var both := j.(waiting := Insert(Insert([], a), b));
            && (both.waiting == [a, b] || both.waiting == [b, a])
            && var taken, first := Fetched(Fetched(both)), both.waiting[0];
               && taken.doing == j.doing[a.id := first]
               && Ended(taken, x).clear == j.clear + [Clear(first)]
               && Ended(Ended(taken, x), y)
                  == j.(taken := taken.taken, clear := j.clear + [Clear(first)], semClear := j.semClear + 1)
  {
    BothInserted(a, b);
    var both := j.(waiting := Insert(Insert([], a), b));
    var first, second := both.waiting[0], both.waiting[1];
    TakenTwice(both, first, second);
    EndedTwice(Fetched(Fetched(both)), a.id, first, x, y);
    assert j.doing[a.id := first] - {a.id} == j.doing;
  }
}
