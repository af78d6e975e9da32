/**
 Every knot in the lists of the multi-waits can be driven into a deadlock.

 One multi-wait for each event of the knot registers there and stops before the next event of the
 knot; then one SetEvent for each holds that event and wants the record of a waiter.
 */
module EventKnot {
  import opened Wrappers
  import opened EventModel
  import opened EventOrder

  /** One waiter: its list names at `p` the knot event it stands for, at `q` the next one. */
  datatype Plan = Plan(list: seq<nat>, p: nat, q: nat)

  predicate PlanOk(plan: Plan, lists: set<seq<nat>>, c: set<nat>, e: nat) {
    && plan.list in lists && plan.p < plan.q < |plan.list|
    && plan.list[plan.p] == e && plan.list[plan.q] in c
  }

  predicate PlansOk(plans: seq<Plan>, cs: seq<nat>, lists: set<seq<nat>>, c: set<nat>) {
    && |plans| == |cs|
    && (forall i :: 0 <= i < |cs| ==> PlanOk(plans[i], lists, c, cs[i]))
  }

  lemma {:induction false} MakePlans(lists: set<seq<nat>>, c: set<nat>, rest: set<nat>)
      returns (cs: seq<nat>, plans: seq<Plan>)
    requires Knot(lists, c) && rest <= c
    ensures PlansOk(plans, cs, lists, c)
    ensures forall e :: e in rest <==> e in cs
    ensures forall i, j :: 0 <= i < j < |cs| ==> cs[i] != cs[j]
    decreases |rest|
  {
    if rest == {} {
      cs, plans := [], [];
    } else {
      var e :| e in rest;
      assert rest == (rest - {e}) + {e};
      var cs', plans' := MakePlans(lists, c, rest - {e});
      assert PrecedesInside(lists, c, e);
      var b :| b in c && Precedes(lists, e, b);
      var l, i, j :| l in lists && 0 <= i < j < |l| && l[i] == e && l[j] == b;
      cs, plans := cs' + [e], plans' + [Plan(l, i, j)];
    }
  }

  // ---------------------------------------------------------------- the scene

  /** The plans, the events they stand for, and where they come from. */
  datatype Scene = Scene(s0: State, lists: set<seq<nat>>, n: nat, c: set<nat>, cs: seq<nat>, plans: seq<Plan>)

  ghost predicate SceneOk(sc: Scene) {
    && PlansOk(sc.plans, sc.cs, sc.lists, sc.c)
    && (forall l, i :: l in sc.lists && 0 <= i < |l| ==> l[i] < sc.n)
    && (forall e :: e in sc.c <==> e in sc.cs)
    && (forall i, j :: 0 <= i < j < |sc.cs| ==> sc.cs[i] != sc.cs[j])
    && (forall e :: e in sc.c ==> e < sc.n)
  }

  predicate EventsCalm(sc: Scene, s: State) {
    && |s.events| == sc.n && |s.pcs| == 2 * |sc.cs|
    && forall e :: 0 <= e < |s.events| ==> s.events[e].auto && !s.events[e].signaled
  }

  predicate EntriesIn(s: State, e: nat)
    requires e < |s.events|
  {
    forall x :: 0 <= x < |s.events[e].regs| ==> s.events[e].regs[x].rec < |s.recs|
  }

  predicate Planned(sc: Scene, s: State, i: nat)
    requires i < |sc.plans|
  {
    && sc.plans[i].q < |sc.plans[i].list|
    && (forall k :: 0 <= k < |sc.plans[i].list| ==> sc.plans[i].list[k] < |s.events|)
    && i < |s.recs| && s.recs[i].events == sc.plans[i].list && s.recs[i].mutex == Some(i) && s.recs[i].still
  }

  /** Waiter `i` wants the second event of its plan and is registered at the first. */
  predicate Posted(sc: Scene, s: State, i: nat)
    requires i < |sc.plans| == |sc.cs| && |s.pcs| == 2 * |sc.cs|
  {
    && Planned(sc, s, i) && s.pcs[i] == Scan(i, sc.plans[i].q, 0)
    && sc.cs[i] < |s.events| && s.events[sc.cs[i]].regs != []
  }

  ghost predicate Common(sc: Scene, s: State, j: nat) {
    && EventsCalm(sc, s) && Reachable(sc.s0, s, sc.lists)
    && j <= |sc.cs| == |sc.plans|
    && (forall e :: 0 <= e < |s.events| ==> EntriesIn(s, e))
    && (forall i :: 0 <= i < j ==> Posted(sc, s, i))
  }

  predicate Free(s: State, e: nat)
    requires e < |s.events|
  {
    s.events[e].holder.None? && s.events[e].phase.Look?
  }

  // ---------------------------------------------------------------- first, the waiters

  ghost predicate Waiters(sc: Scene, s: State, j: nat) {
    && Common(sc, s, j) && |s.recs| == j
    && (forall e :: 0 <= e < |s.events| ==> Free(s, e))
    && (forall i :: j <= i < |s.pcs| ==> s.pcs[i].Rest?)
  }

  /** Waiter `j` has scanned its list up to `k`. */
  ghost predicate Scanning(sc: Scene, s: State, j: nat, k: nat) {
    && Common(sc, s, j) && j < |sc.cs| && |s.recs| == j + 1
    && (forall e :: 0 <= e < |s.events| ==> Free(s, e))
    && (forall i :: j < i < |s.pcs| ==> s.pcs[i].Rest?)
    && Planned(sc, s, j) && s.pcs[j] == Scan(j, k, 0) && k <= sc.plans[j].q
    && forall x :: 0 <= x < k ==> s.events[sc.plans[j].list[x]].regs != []
  }

  /** Waiter `j` holds event `k` of its list and has looked at `x` of its entries. */
  ghost predicate Cleaning(sc: Scene, s: State, j: nat, k: nat, x: nat) {
    && Common(sc, s, j) && j < |sc.cs| && |s.recs| == j + 1
    && Planned(sc, s, j) && k < sc.plans[j].q
    && (forall e :: 0 <= e < |s.events| && e != sc.plans[j].list[k] ==> Free(s, e))
    && (forall i :: j < i < |s.pcs| ==> s.pcs[i].Rest?)
    && s.pcs[j] == Purge(j, k, 0, x) && x <= |s.events[sc.plans[j].list[k]].regs|
    && s.events[sc.plans[j].list[k]].phase.Look?
    && forall y :: 0 <= y < k ==> s.events[sc.plans[j].list[y]].regs != []
  }

  lemma StepBegin(sc: Scene, s: State, j: nat) returns (s': State)
    requires SceneOk(sc) && Waiters(sc, s, j) && j < |sc.cs|
    ensures Scanning(sc, s', j, 0)
  {
    var plan := sc.plans[j];
    assert PlanOk(plan, sc.lists, sc.c, sc.cs[j]);
    var a := BeginWait(j, plan.list, false, Infinite);
    s' := Apply(s, a);
    Extend(sc.s0, s, sc.lists, a);
    forall i | 0 <= i < j ensures Posted(sc, s', i) { assert Posted(sc, s, i); }
    forall e | 0 <= e < |s'.events| ensures EntriesIn(s', e) && Free(s', e) { assert EntriesIn(s, e) && Free(s, e); }
  }

  lemma StepLock(sc: Scene, s: State, j: nat, k: nat) returns (s': State)
    requires Scanning(sc, s, j, k) && k < sc.plans[j].q
    ensures Cleaning(sc, s', j, k, 0)
  {
    var f := sc.plans[j].list[k];
    assert Free(s, f);
    s' := DoScanLock(s, j);
    ExtendScanLock(sc.s0, s, sc.lists, j);
    forall i | 0 <= i < j ensures Posted(sc, s', i) { assert Posted(sc, s, i); }
    forall e | 0 <= e < |s'.events| ensures EntriesIn(s', e) { assert EntriesIn(s, e); }
    forall e | 0 <= e < |s'.events| && e != f ensures Free(s', e) { assert Free(s, e); }
  }

  lemma StepKeep(sc: Scene, s: State, j: nat, k: nat, x: nat) returns (s': State)
    requires Cleaning(sc, s, j, k, x) && x < |s.events[sc.plans[j].list[k]].regs|
    ensures Cleaning(sc, s', j, k, x + 1) && s'.events == s.events
  {
    var f := sc.plans[j].list[k];
    assert EntriesIn(s, f);
    var q := s.events[f].regs[x].rec;
    if q < j { assert Posted(sc, s, q); }
    s' := DoPurgeStep(s, j);
    ExtendPurgeStep(sc.s0, s, sc.lists, j);
    forall i | 0 <= i < j ensures Posted(sc, s', i) { assert Posted(sc, s, i); }
    forall e | 0 <= e < |s'.events| ensures EntriesIn(s', e) { assert EntriesIn(s, e); }
    forall e | 0 <= e < |s'.events| && e != f ensures Free(s', e) { assert Free(s, e); }
  }

  lemma StepRegister(sc: Scene, s: State, j: nat, k: nat, x: nat) returns (s': State)
    requires Cleaning(sc, s, j, k, x) && x == |s.events[sc.plans[j].list[k]].regs|
    ensures Scanning(sc, s', j, k + 1)
  {
    var f := sc.plans[j].list[k];
    s' := DoPurgeEnd(s, j);
    ExtendPurgeEnd(sc.s0, s, sc.lists, j);
    forall i | 0 <= i < j ensures Posted(sc, s', i) { assert Posted(sc, s, i); }
    forall e | 0 <= e < |s'.events| ensures EntriesIn(s', e) { assert EntriesIn(s, e); }
    forall e | 0 <= e < |s'.events| ensures Free(s', e) { if e != f { assert Free(s, e); } }
  }

  lemma {:induction false} CleanAll(sc: Scene, s: State, j: nat, k: nat, x: nat) returns (s': State)
    requires Cleaning(sc, s, j, k, x)
    ensures Scanning(sc, s', j, k + 1)
    decreases |s.events[sc.plans[j].list[k]].regs| - x
  {
    if x < |s.events[sc.plans[j].list[k]].regs| {
      var s1 := StepKeep(sc, s, j, k, x);
      s' := CleanAll(sc, s1, j, k, x + 1);
    } else {
      s' := StepRegister(sc, s, j, k, x);
    }
  }

  lemma {:induction false} ScanAll(sc: Scene, s: State, j: nat, k: nat) returns (s': State)
    requires PlansOk(sc.plans, sc.cs, sc.lists, sc.c) && Scanning(sc, s, j, k)
    ensures Waiters(sc, s', j + 1)
    decreases sc.plans[j].q - k
  {
    if k < sc.plans[j].q {
      var s1 := StepLock(sc, s, j, k);
      var s2 := CleanAll(sc, s1, j, k, 0);
      s' := ScanAll(sc, s2, j, k + 1);
    } else {
      s' := s;
      assert PlanOk(sc.plans[j], sc.lists, sc.c, sc.cs[j]);
      assert s.events[sc.plans[j].list[sc.plans[j].p]].regs != [];
      assert Posted(sc, s', j);
      forall i | 0 <= i < j + 1 ensures Posted(sc, s', i) { if i < j { assert Posted(sc, s, i); } }
    }
  }

  lemma {:induction false} PostAll(sc: Scene, s: State, j: nat) returns (s': State)
    requires SceneOk(sc) && Waiters(sc, s, j)
    ensures Waiters(sc, s', |sc.cs|)
    decreases |sc.cs| - j
  {
    if j < |sc.cs| {
      var s1 := StepBegin(sc, s, j);
      var s2 := ScanAll(sc, s1, j, 0);
      s' := PostAll(sc, s2, j + 1);
    } else {
      s' := s;
    }
  }

  // ---------------------------------------------------------------- then, the SetEvents

  predicate Closing(sc: Scene, s: State, i: nat)
    requires i < |sc.cs| && |s.pcs| == 2 * |sc.cs|
  {
    && sc.cs[i] < |s.events| && s.pcs[|sc.cs| + i] == Setting(sc.cs[i])
    && s.events[sc.cs[i]].holder == Some(|sc.cs| + i) && s.events[sc.cs[i]].phase.Want?
  }

  /** The first `j` SetEvents hold their events and want a record. */
  ghost predicate Setters(sc: Scene, s: State, j: nat) {
    && Common(sc, s, |sc.cs|) && |s.recs| == |sc.cs| && j <= |sc.cs|
    && (forall i :: 0 <= i < j ==> Closing(sc, s, i))
    && (forall i :: j <= i < |sc.cs| ==> sc.cs[i] < |s.events| && Free(s, sc.cs[i]))
    && (forall i :: |sc.cs| + j <= i < |s.pcs| ==> s.pcs[i].Rest?)
  }

  /** SetEvent up to the point where it wants the record of the front entry. */
  lemma OpenSet(s: State, t: nat, e: nat) returns (s': State)
    requires t < |s.pcs| && s.pcs[t].Rest? && e < |s.events| && Free(s, e) && s.events[e].auto
    requires s.events[e].regs != [] && s.events[e].regs[0].rec < |s.recs| && s.recs[s.events[e].regs[0].rec].still
    ensures CanSetBegin(s, t, e) && CanSetWant(DoSetBegin(s, t, e), t) && s' == DoSetWant(DoSetBegin(s, t, e), t)
    ensures s'.recs == s.recs && s'.pcs == s.pcs[t := Setting(e)]
    ensures s'.events == s.events[e := s.events[e].(holder := Some(t), phase := Want)]
  {
    s' := DoSetWant(DoSetBegin(s, t, e), t);
  }

  lemma CommonSet(sc: Scene, s: State, s': State, t: nat, e: nat, ev: Event)
    requires Common(sc, s, |sc.cs|) && |s.recs| == |sc.cs| && Reachable(sc.s0, s', sc.lists)
    requires |sc.cs| <= t < |s.pcs| && e < |s.events|
    requires ev.regs == s.events[e].regs && ev.auto && !ev.signaled
    requires s'.recs == s.recs && s'.pcs == s.pcs[t := Setting(e)] && s'.events == s.events[e := ev]
    ensures Common(sc, s', |sc.cs|)
  {
    forall i | 0 <= i < |sc.cs| ensures Posted(sc, s', i) { assert Posted(sc, s, i); }
    forall f | 0 <= f < |s'.events| ensures EntriesIn(s', f) { assert EntriesIn(s, f); }
  }

  lemma StepSet(sc: Scene, s: State, j: nat) returns (s': State)
    requires Setters(sc, s, j) && j < |sc.cs|
    requires forall i :: 0 <= i < |sc.cs| && i != j ==> sc.cs[i] != sc.cs[j]
    ensures Setters(sc, s', j + 1)
  {
    var e := sc.cs[j];
    assert Posted(sc, s, j) && Free(s, e) && EntriesIn(s, e);
    assert Posted(sc, s, s.events[e].regs[0].rec);
    s' := OpenSet(s, |sc.cs| + j, e);
    ExtendSet(sc.s0, s, sc.lists, |sc.cs| + j, e);
    CommonSet(sc, s, s', |sc.cs| + j, e, s'.events[e]);
    SettersGrow(sc, s, s', j);
  }

  lemma SettersGrow(sc: Scene, s: State, s': State, j: nat)
    requires Setters(sc, s, j) && j < |sc.cs| && Common(sc, s', |sc.cs|)
    requires forall i :: 0 <= i < |sc.cs| && i != j ==> sc.cs[i] != sc.cs[j]
    requires sc.cs[j] < |s.events| == |s'.events| && s'.recs == s.recs
    requires s'.pcs == s.pcs[|sc.cs| + j := Setting(sc.cs[j])]
    requires s'.events == s.events[sc.cs[j] := s.events[sc.cs[j]].(holder := Some(|sc.cs| + j), phase := Want)]
    ensures Setters(sc, s', j + 1)
  {
    forall i | 0 <= i < j + 1 ensures Closing(sc, s', i) { if i < j { assert Closing(sc, s, i); } }
    forall i | j + 1 <= i < |sc.cs| ensures sc.cs[i] < |s'.events| && Free(s', sc.cs[i]) { assert Free(s, sc.cs[i]); }
  }

  lemma {:induction false} SetAll(sc: Scene, s: State, j: nat) returns (s': State)
    requires SceneOk(sc) && Setters(sc, s, j)
    ensures Setters(sc, s', |sc.cs|)
    decreases |sc.cs| - j
  {
    if j < |sc.cs| {
      var s1 := StepSet(sc, s, j);
      s' := SetAll(sc, s1, j + 1);
    } else {
      s' := s;
    }
  }

  lemma WaiterStuck(sc: Scene, s: State, d: set<nat>, t: nat, y: nat)
    requires Setters(sc, s, |sc.cs|) && t < |sc.cs| && y < |sc.cs|
    requires sc.plans[t].q < |sc.plans[t].list| && sc.plans[t].list[sc.plans[t].q] == sc.cs[y]
    requires |sc.cs| + y in d
    ensures WaitsInside(s, d, t)
  {
    assert Posted(sc, s, t) && Closing(sc, s, y);
    assert WaitsFor(s, t, |sc.cs| + y);
  }

  lemma Successor(sc: Scene, t: nat) returns (y: nat)
    requires SceneOk(sc) && t < |sc.cs|
    ensures y < |sc.cs| && sc.plans[t].q < |sc.plans[t].list| && sc.plans[t].list[sc.plans[t].q] == sc.cs[y]
  {
    assert PlanOk(sc.plans[t], sc.lists, sc.c, sc.cs[t]);
    y :| 0 <= y < |sc.cs| && sc.cs[y] == sc.plans[t].list[sc.plans[t].q];
  }

  function UpTo(n: nat): (r: set<nat>)
    ensures forall t: nat :: t in r <==> t < n
  {
    if n == 0 then {} else UpTo(n - 1) + {n - 1}
  }

  lemma SetterStuck(sc: Scene, s: State, d: set<nat>, i: nat)
    requires Setters(sc, s, |sc.cs|) && i < |sc.cs|
    requires forall u :: 0 <= u < 2 * |sc.cs| ==> u in d
    ensures WaitsInside(s, d, |sc.cs| + i)
  {
    assert Closing(sc, s, i) && Posted(sc, s, i);
    assert EntriesIn(s, sc.cs[i]);
    var r := s.events[sc.cs[i]].regs[0].rec;
    assert Posted(sc, s, r);
    assert WaitsFor(s, |sc.cs| + i, r);
  }

  lemma AllStuck(sc: Scene, s: State)
    requires SceneOk(sc) && Setters(sc, s, |sc.cs|) && sc.cs != []
    ensures Deadlock(s)
  {
    var m := |sc.cs|;
    var d := UpTo(2 * m);
    forall t | t in d ensures WaitsInside(s, d, t) {
      if t < m { var y := Successor(sc, t); WaiterStuck(sc, s, d, t, y); } else { SetterStuck(sc, s, d, t - m); }
    }
    assert 0 in d;
    assert Stuck(s, d);
  }

  function Fresh(n: nat, threads: nat): State {
    State(seq(n, _ => Event(true, false, [], None, Look, false, 0, 0, 0)), [], seq(threads, _ => Rest))
  }

  lemma Start(sc: Scene)
    requires SceneOk(sc) && sc.s0 == Fresh(sc.n, 2 * |sc.cs|)
    ensures Init(sc.s0) && Waiters(sc, sc.s0, 0)
  {
    assert Runs(sc.s0, []) && Uses([], sc.lists) && Exec(sc.s0, []) == sc.s0;
  }

  lemma Turn(sc: Scene, s: State)
    requires Waiters(sc, s, |sc.cs|) && (forall i :: 0 <= i < |sc.cs| ==> sc.cs[i] < sc.n)
    ensures Setters(sc, s, 0)
  {
    forall i | 0 <= i < |sc.cs| ensures Free(s, sc.cs[i]) { assert Free(s, sc.cs[i]); }
  }

  /** The converse of DeadlockNeedsKnot. */
  lemma KnotDeadlocks(lists: set<seq<nat>>, n: nat, c: set<nat>) returns (s0: State, s: State)
    requires forall l, i :: l in lists && 0 <= i < |l| ==> l[i] < n
    requires Knot(lists, c)
    ensures Init(s0) && |s0.events| == n && Reachable(s0, s, lists) && Deadlock(s)
  {
    var cs, plans := MakePlans(lists, c, c);
    forall e | e in c ensures e < n {
      var i :| 0 <= i < |cs| && cs[i] == e;
      assert PlanOk(plans[i], lists, c, cs[i]);
    }
    s0 := Fresh(n, 2 * |cs|);
    var sc := Scene(s0, lists, n, c, cs, plans);
    Start(sc);
    var s1 := PostAll(sc, s0, 0);
    Turn(sc, s1);
    s := SetAll(sc, s1, 0);
    AllStuck(sc, s);
  }
}
