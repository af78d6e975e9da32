/**
 The two-level locking of multi-waits and SetEvent: exactly when it can deadlock.

 A multi-wait holds its record while it locks the listed events one after the other, and SetEvent
 holds its event while it locks the record of the front entry.
 */
module EventOrder {
  import opened Wrappers
  import opened EventModel
  import opened EventShape

  /** Thread `t` wants a mutex that thread `u` holds. */
  predicate WaitsFor(s: State, t: nat, u: nat) {
    t < |s.pcs| && u < |s.pcs| &&
    match s.pcs[t]
    case Scan(r, i, _) =>
      && r < |s.recs| && i < |s.recs[r].events| && s.recs[r].events[i] < |s.events|
      && s.events[s.recs[r].events[i]].holder == Some(u)
    case Setting(e) =>
      && e < |s.events| && s.events[e].phase.Want? && s.events[e].regs != []
      && s.events[e].regs[0].rec < |s.recs|
      && s.recs[s.events[e].regs[0].rec].mutex == Some(u)
    case _ => false
  }

  ghost predicate Blocked(s: State, t: nat) {
    exists u :: WaitsFor(s, t, u)
  }

  ghost predicate WaitsInside(s: State, d: set<nat>, t: nat) {
    exists u :: u in d && WaitsFor(s, t, u)
  }

  /** Every thread of `d` waits for another one of `d`. */
  ghost predicate Stuck(s: State, d: set<nat>) {
    d != {} && forall t {:trigger WaitsInside(s, d, t)} :: t in d ==> WaitsInside(s, d, t)
  }

  ghost predicate Deadlock(s: State) {
    exists d: set<nat> :: Stuck(s, d)
  }

  /** Some list names event `a` before event `b`. */
  ghost predicate Precedes(lists: set<seq<nat>>, a: nat, b: nat) {
    exists l, i, j :: l in lists && 0 <= i < j < |l| && l[i] == a && l[j] == b
  }

  ghost predicate PrecedesInside(lists: set<seq<nat>>, c: set<nat>, a: nat) {
    exists b :: b in c && Precedes(lists, a, b)
  }

  /** A set of events each of which some list names before another one of the set. */
  ghost predicate Knot(lists: set<seq<nat>>, c: set<nat>) {
    c != {} && forall a {:trigger PrecedesInside(lists, c, a)} :: a in c ==> PrecedesInside(lists, c, a)
  }

  ghost predicate Uses(run: seq<Action>, lists: set<seq<nat>>) {
    forall i :: 0 <= i < |run| && run[i].BeginWait? ==> run[i].events in lists
  }

  ghost predicate Reachable(s0: State, s: State, lists: set<seq<nat>>) {
    exists run :: Runs(s0, run) && Uses(run, lists) && Exec(s0, run) == s
  }

  ghost predicate ListsIn(s: State, lists: set<seq<nat>>) {
    forall r :: 0 <= r < |s.recs| ==> s.recs[r].events in lists
  }

  lemma {:induction false} RunKeepsShape(s0: State, run: seq<Action>, lists: set<seq<nat>>)
    requires Init(s0) && Runs(s0, run) && Uses(run, lists)
    ensures Shape(Exec(s0, run)) && ListsIn(Exec(s0, run), lists)
    decreases |run|
  {
    if run == [] {
      ShapeInit(s0);
    } else {
      var front := run[..|run|-1];
      RunKeepsShape(s0, front, lists);
      ShapeStep(Exec(s0, front), run[|run|-1]);
      assert run[|run|-1].BeginWait? ==> run[|run|-1].events in lists;
      ListsStep(Exec(s0, front), run[|run|-1], lists);
    }
  }

  lemma ListsStep(s: State, a: Action, lists: set<seq<nat>>)
    requires Enabled(s, a) && ListsIn(s, lists) && (a.BeginWait? ==> a.events in lists)
    ensures ListsIn(Apply(s, a), lists)
  {
  }

  // ---------------------------------------------------------------- longer runs

  lemma Extend(s0: State, s: State, lists: set<seq<nat>>, a: Action)
    requires Reachable(s0, s, lists) && Enabled(s, a) && (a.BeginWait? ==> a.events in lists)
    ensures Reachable(s0, Apply(s, a), lists)
  {
    var run :| Runs(s0, run) && Uses(run, lists) && Exec(s0, run) == s;
    var run' := run + [a];
    assert run'[..|run'|-1] == run;
    assert Runs(s0, run') && Exec(s0, run') == Apply(s, a);
    assert Uses(run', lists);
  }

  lemma ExtendPurgeStep(s0: State, s: State, lists: set<seq<nat>>, t: nat)
    requires Reachable(s0, s, lists) && CanPurgeStep(s, t)
    ensures Reachable(s0, DoPurgeStep(s, t), lists)
  {
    Extend(s0, s, lists, PurgeStep(t));
  }

  lemma ExtendPurgeEnd(s0: State, s: State, lists: set<seq<nat>>, t: nat)
    requires Reachable(s0, s, lists) && CanPurgeEnd(s, t)
    ensures Reachable(s0, DoPurgeEnd(s, t), lists)
  {
    Extend(s0, s, lists, PurgeEnd(t));
  }

  lemma ExtendScanLock(s0: State, s: State, lists: set<seq<nat>>, t: nat)
    requires Reachable(s0, s, lists) && CanScanLock(s, t)
    ensures Reachable(s0, DoScanLock(s, t), lists)
  {
    Extend(s0, s, lists, ScanLock(t));
  }

  lemma ExtendSet(s0: State, s: State, lists: set<seq<nat>>, t: nat, e: nat)
    requires Reachable(s0, s, lists) && CanSetBegin(s, t, e) && CanSetWant(DoSetBegin(s, t, e), t)
    ensures Reachable(s0, DoSetWant(DoSetBegin(s, t, e), t), lists)
  {
    Extend(s0, s, lists, SetBegin(t, e));
    Extend(s0, DoSetBegin(s, t, e), lists, SetWant(t));
  }

  lemma ExtendBegin(s0: State, s: State, lists: set<seq<nat>>, t: nat, l: seq<nat>, waitAll: bool, mode: Mode)
    requires Reachable(s0, s, lists) && CanBeginWait(s, t, l) && l in lists
    ensures Reachable(s0, DoBeginWait(s, t, l, waitAll, mode), lists)
  {
    Extend(s0, s, lists, BeginWait(t, l, waitAll, mode));
  }

  lemma ExtendSleep(s0: State, s: State, lists: set<seq<nat>>, t: nat)
    requires Reachable(s0, s, lists) && CanScanEnd(s, t) && CanSleep(DoScanEnd(s, t), t)
    ensures Reachable(s0, DoSleep(DoScanEnd(s, t), t), lists)
  {
    Extend(s0, s, lists, ScanEnd(t));
    Extend(s0, DoScanEnd(s, t), lists, Sleep(t));
  }

  lemma ExtendSetEnter(s0: State, s: State, lists: set<seq<nat>>, t: nat)
    requires Reachable(s0, s, lists) && CanSetEnter(s, t)
    ensures Reachable(s0, DoSetEnter(s, t), lists)
  {
    Extend(s0, s, lists, SetEnter(t));
  }

  lemma ExtendGiveUp(s0: State, s: State, lists: set<seq<nat>>, t: nat)
    requires Reachable(s0, s, lists) && CanGiveUp(s, t)
    ensures Reachable(s0, DoGiveUp(s, t), lists)
  {
    Extend(s0, s, lists, GiveUp(t));
  }

  lemma ExtendSettle(s0: State, s: State, lists: set<seq<nat>>, t: nat)
    requires Reachable(s0, s, lists) && CanWake(s, t) && CanSettle(DoWake(s, t), t)
    ensures Reachable(s0, DoSettle(DoWake(s, t), t), lists)
  {
    Extend(s0, s, lists, Wake(t));
    Extend(s0, DoWake(s, t), lists, Settle(t));
  }

  // ---------------------------------------------------------------- a deadlock needs a knot

  /** Inside a stuck set, whoever holds an event is a SetEvent that wants a record. */
  lemma HolderWants(s: State, d: set<nat>, e: nat, u: nat)
    requires e < |s.events| && EventOk(s, e) && s.events[e].holder == Some(u) && WaitsInside(s, d, u)
    ensures u < |s.pcs| && s.pcs[u] == Setting(e) && s.events[e].phase.Want?
  {
  }

  ghost function Wanted(s: State, d: set<nat>): set<nat> {
    set e | 0 <= e < |s.events| && s.events[e].phase.Want? && s.events[e].holder.Some? && s.events[e].holder.value in d
  }

  lemma ScanWants(s: State, d: set<nat>, t: nat)
    requires Shape(s) && Stuck(s, d) && t in d && t < |s.pcs| && s.pcs[t].Scan?
    ensures AtScan(s, t) && ScanEvent(s, t) in Wanted(s, d)
  {
    assert WaitsInside(s, d, t);
    var u :| u in d && WaitsFor(s, t, u);
    assert WaitsInside(s, d, u);
    assert EventOk(s, ScanEvent(s, t));
    HolderWants(s, d, ScanEvent(s, t), u);
  }

  /** The thread that holds the record wanted on `e` is scanning past the entry's index. */
  lemma WantedScan(s: State, d: set<nat>, e: nat) returns (u: nat)
    requires Shape(s) && Stuck(s, d) && e in Wanted(s, d)
    ensures u in d && u < |s.pcs| && s.pcs[u].Scan? && s.events[e].regs != []
    ensures s.pcs[u].rec == s.events[e].regs[0].rec && s.events[e].regs[0].idx < s.pcs[u].i
    ensures s.events[e].regs[0].rec < |s.recs|
    ensures s.events[e].regs[0].idx < |s.recs[s.events[e].regs[0].rec].events|
    ensures s.recs[s.events[e].regs[0].rec].events[s.events[e].regs[0].idx] == e
  {
    var t := s.events[e].holder.value;
    assert EventOk(s, e);
    assert WaitsInside(s, d, t);
    HolderWants(s, d, e, t);
    u :| u in d && WaitsFor(s, t, u);
    assert WaitsInside(s, d, u);
    var x := s.events[e].regs[0];
    assert EntryOk(s, e, x) && RecOk(s, x.rec);
  }

  lemma SetterFollows(s: State, d: set<nat>, lists: set<seq<nat>>, e: nat)
    requires Shape(s) && ListsIn(s, lists) && Stuck(s, d) && e in Wanted(s, d)
    ensures PrecedesInside(lists, Wanted(s, d), e)
  {
    var u := WantedScan(s, d, e);
    ScanWants(s, d, u);
    var x := s.events[e].regs[0];
    ListPrecedes(lists, s.recs[x.rec].events, x.idx, s.pcs[u].i);
  }

  lemma ListPrecedes(lists: set<seq<nat>>, l: seq<nat>, i: nat, j: nat)
    requires l in lists && i < j < |l|
    ensures Precedes(lists, l[i], l[j])
  {
  }

  lemma DeadlockNeedsKnot(s: State, d: set<nat>, lists: set<seq<nat>>)
    requires Shape(s) && ListsIn(s, lists) && Stuck(s, d)
    ensures Knot(lists, Wanted(s, d))
  {
    var t :| t in d;
    assert WaitsInside(s, d, t);
    if s.pcs[t].Scan? {
      ScanWants(s, d, t);
    } else {
      assert PcOk(s, t);
      assert s.pcs[t].event in Wanted(s, d);
    }
    forall e | e in Wanted(s, d) ensures PrecedesInside(lists, Wanted(s, d), e) {
      SetterFollows(s, d, lists, e);
    }
  }

  // ---------------------------------------------------------------- somebody can always run

  function Move(s: State, t: nat): Action
    requires t < |s.pcs|
  {
    match s.pcs[t]
    case Scan(r, i, _) => if r < |s.recs| && i < |s.recs[r].events| then ScanLock(t) else ScanEnd(t)
    case Purge(r, i, _, k) => if CanPurgeStep(s, t) then PurgeStep(t) else PurgeEnd(t)
    case Check(r, _) => if CanSettle(s, t) then Settle(t) else if CanSleep(s, t) then Sleep(t) else GiveUp(t)
    case Asleep(_, _) => Wake(t)
    case Leave(_, _) => Drop(t)
    case Setting(e) =>
      if CanSetSkip(s, t) then SetSkip(t) else if CanSetWant(s, t) then SetWant(t)
      else if CanSetDone(s, t) then SetDone(t) else if CanSetRelease(s, t) then SetRelease(t) else SetEnter(t)
    case Rest => Wake(t)
  }

  /** A thread inside a call that no mutex keeps out has a step to take. */
  lemma UnblockedRuns(s: State, t: nat)
    requires Shape(s) && t < |s.pcs| && !s.pcs[t].Rest? && !Blocked(s, t)
    ensures Enabled(s, Move(s, t))
  {
    assert PcOk(s, t);
    match s.pcs[t]
    case Scan(r, i, _) =>
      assert RecOk(s, r);
      if i < |s.recs[r].events| && s.events[s.recs[r].events[i]].holder.Some? {
        assert EventOk(s, s.recs[r].events[i]);
        assert WaitsFor(s, t, s.events[s.recs[r].events[i]].holder.value);
      }
    case Purge(r, i, _, _) =>
      assert RecOk(s, r) && EventOk(s, s.recs[r].events[i]);
    case Check(_, _) =>
    case Asleep(_, _) =>
    case Leave(_, _) =>
    case Setting(e) =>
      assert EventOk(s, e);
      if s.events[e].regs != [] {
        var x := s.events[e].regs[0];
        assert EntryOk(s, e, x) && RecOk(s, x.rec);
        if s.recs[x.rec].mutex.Some? && s.events[e].phase.Want? {
          assert WaitsFor(s, t, s.recs[x.rec].mutex.value);
        }
      }
  }

  /** Without a deadlock, a blocked thread always leaves another one that can move. */
  lemma SomebodyRuns(s: State, t: nat) returns (u: nat)
    requires Shape(s) && !Deadlock(s) && Blocked(s, t)
    ensures u < |s.pcs| && !s.pcs[u].Rest? && !Blocked(s, u) && Enabled(s, Move(s, u))
  {
    var d := set v | 0 <= v < |s.pcs| && Blocked(s, v);
    assert t in d;
    assert !Stuck(s, d);
    var v :| v in d && !WaitsInside(s, d, v);
    u :| WaitsFor(s, v, u);
    assert u !in d;
    HolderInCall(s, v, u);
    UnblockedRuns(s, u);
  }

  lemma HolderInCall(s: State, v: nat, u: nat)
    requires Shape(s) && WaitsFor(s, v, u)
    ensures !s.pcs[u].Rest?
  {
    match s.pcs[v]
    case Scan(r, i, _) => assert EventOk(s, s.recs[r].events[i]);
    case Setting(e) => assert RecOk(s, s.events[e].regs[0].rec);
  }

  // ---------------------------------------------------------------- ordered lists have no knot

  predicate Increasing(l: seq<nat>) {
    forall i, j :: 0 <= i < j < |l| ==> l[i] < l[j]
  }

  lemma {:induction false} MaxOf(c: set<nat>) returns (m: nat)
    requires c != {}
    ensures m in c && forall x :: x in c ==> x <= m
    decreases |c|
  {
    m :| m in c;
    var rest := c - {m};
    if rest != {} {
      assert |rest| < |c|;
      var k := MaxOf(rest);
      if k > m { m := k; }
      forall x | x in c ensures x <= m { assert x == m || x in rest || x in c; }
    } else {
      forall x | x in c ensures x <= m { assert x !in rest; }
    }
  }

  /** Listing distinct events in one global order rules every knot out. */
  lemma OrderedNoKnot(lists: set<seq<nat>>, c: set<nat>)
    requires forall l :: l in lists ==> Increasing(l)
    ensures !Knot(lists, c)
  {
    if c != {} {
      var m := MaxOf(c);
      assert !PrecedesInside(lists, c, m);
    }
  }
}
