/** What rpevents.cpp guarantees in every reachable state: the results of the Event modules. */
module EventLaws {
  import opened Wrappers
  import opened EventModel
  import opened EventShape
  import opened EventTally
  import opened EventRefs
  import opened EventSeen
  import opened EventLedger
  import opened EventOrder
  import EventKnot

  ghost predicate Inv(s: State) {
    Shape(s) && Refs(s) && Seen(s) && Quiet(s) && Wakeup(s) && Ledger(s)
  }

  lemma InvStep(s: State, a: Action)
    requires Inv(s) && Enabled(s, a)
    ensures Inv(Apply(s, a))
  {
    ShapeStep(s, a);
    RefsStep(s, a);
    SeenStep(s, a);
    QuietStep(s, a);
    WakeStep(s, a);
    LedgerStep(s, a);
  }

  lemma {:induction false} RunKeepsInv(s0: State, run: seq<Action>)
    requires Init(s0) && Runs(s0, run)
    ensures Inv(Exec(s0, run))
    decreases |run|
  {
    if run == [] {
      ShapeInit(s0);
      RefsInit(s0);
      SeenInit(s0);
      LedgerInit(s0);
    } else {
      RunKeepsInv(s0, run[..|run|-1]);
      InvStep(Exec(s0, run[..|run|-1]), run[|run|-1]);
    }
  }

  // ---------------------------------------------------------------- wait records

  /** RefCount is the caller's share plus the entries naming the record; zero means freed. */
  lemma WaitRecordLifetime(s0: State, run: seq<Action>, r: nat)
    requires Init(s0) && Runs(s0, run) && r < |Exec(s0, run).recs|
    ensures var s := Exec(s0, run);
            && s.recs[r].refCount == Share(s, r) + Entries(s, r)
            && (s.recs[r].live <==> Share(s, r) + Entries(s, r) > 0)
  {
    RunKeepsInv(s0, run);
    assert RefOk(Exec(s0, run), r);
  }

  /** The records a step reads or writes. */
  function Touched(s: State, a: Action): set<nat>
    requires Enabled(s, a)
  {
    match a
    case BeginWait(_, _, _, _) => {}
    case SetBegin(_, _) => {}
    case TakeOne(_, _) => {}
    case Reset(_) => {}
    case SetDone(_) => {}
    case PurgeStep(t) => {s.pcs[t].rec, s.events[PurgeEvent(s, t)].regs[s.pcs[t].k].rec}
    case SetSkip(t) => {Front(s, t)}
    case SetWant(t) => {Front(s, t)}
    case SetEnter(t) => {Front(s, t)}
    case SetRelease(t) => {Front(s, t)}
    case _ => {s.pcs[a.t].rec}
  }

  lemma TouchedCovers(s: State, a: Action, r: nat)
    requires Enabled(s, a) && r < |s.recs| && r !in Touched(s, a)
    ensures Apply(s, a).recs[r] == s.recs[r]
  {
  }

  lemma TouchedLive(s: State, a: Action, r: nat)
    requires Shape(s) && Refs(s) && Enabled(s, a) && r in Touched(s, a)
    ensures r < |s.recs| && s.recs[r].live
  {
    match a
    case BeginWait(_, _, _, _) =>
    case SetBegin(_, _) =>
    case TakeOne(_, _) =>
    case Reset(_) =>
    case SetDone(_) =>
    case SetSkip(t) => EntryLive(s, s.pcs[t].event, 0);
    case SetWant(t) => EntryLive(s, s.pcs[t].event, 0);
    case SetEnter(t) => EntryLive(s, s.pcs[t].event, 0);
    case SetRelease(t) => EntryLive(s, s.pcs[t].event, 0);
    case PurgeStep(t) => EntryLive(s, PurgeEvent(s, t), s.pcs[t].k); CallerLive(s, t);
    case _ => CallerLive(s, a.t);
  }

  lemma CallerLive(s: State, t: nat)
    requires Shape(s) && Refs(s) && t < |s.pcs| && !s.pcs[t].Rest? && !s.pcs[t].Setting?
    ensures s.pcs[t].rec < |s.recs| && s.recs[s.pcs[t].rec].live
  {
    assert PcOk(s, t);
    assert RefOk(s, s.pcs[t].rec);
  }

  /** No step touches a freed record, so a freed record never changes again: it is freed once. */
  lemma NeverTouchedAfterFree(s0: State, run: seq<Action>, a: Action)
    requires Init(s0) && Runs(s0, run) && Enabled(Exec(s0, run), a)
    ensures var s := Exec(s0, run);
            && (forall r :: r in Touched(s, a) ==> r < |s.recs| && s.recs[r].live)
            && (forall r :: 0 <= r < |s.recs| && !s.recs[r].live ==> Apply(s, a).recs[r] == s.recs[r])
  {
    var s := Exec(s0, run);
    RunKeepsInv(s0, run);
    forall r | r in Touched(s, a) ensures r < |s.recs| && s.recs[r].live { TouchedLive(s, a, r); }
    forall r | 0 <= r < |s.recs| && !s.recs[r].live ensures Apply(s, a).recs[r] == s.recs[r] { TouchedCovers(s, a, r); }
  }

  // ---------------------------------------------------------------- signals

  /** Between critical sections a raised event has no registered waiter, whatever its kind. */
  lemma NoSleeperBesideSignal(s0: State, run: seq<Action>, e: nat)
    requires Init(s0) && Runs(s0, run) && e < |Exec(s0, run).events|
    ensures var ev := Exec(s0, run).events[e]; ev.signaled && ev.holder.None? ==> ev.regs == []
  {
    RunKeepsInv(s0, run);
    assert QuietOk(Exec(s0, run), e);
  }

  /** A sleeper whose wait is over has been signalled or SetEvent is about to signal it. */
  lemma NoLostWakeup(s0: State, run: seq<Action>, t: nat)
    requires Init(s0) && Runs(s0, run) && t < |Exec(s0, run).pcs| && Exec(s0, run).pcs[t].Asleep?
    ensures var s := Exec(s0, run);
            && AtSleep(s, t)
            && var r := s.pcs[t].rec; IsDone(s.recs[r]) ==> s.recs[r].woken || AboutToSignal(s, r)
  {
    var s := Exec(s0, run);
    RunKeepsInv(s0, run);
    assert PcOk(s, t);
    assert WakeOk(s, s.pcs[t].rec);
  }

  /** Acquisitions of an auto-reset event, plus one if it is raised, are paid for by SetEvent calls. */
  lemma SignalsConserved(s0: State, run: seq<Action>, e: nat)
    requires Init(s0) && Runs(s0, run) && e < |Exec(s0, run).events| && Exec(s0, run).events[e].auto
    ensures var s := Exec(s0, run);
            var ev := s.events[e];
            && Bit(ev.initial) + ev.sets == Bit(ev.signaled) + ev.singles + Granted(s.recs, e) + ev.absorbed
            && ev.singles + Granted(s.recs, e) + Bit(ev.signaled) <= ev.sets + Bit(ev.initial)
  {
    RunKeepsInv(s0, run);
    assert LedgerOk(Exec(s0, run), e);
  }

  /**
   A SetEvent on an auto-reset event that hands its signal over gives it to exactly one wait,
   which is still waiting; one that finds nobody leaves the event raised and grants nothing.
   */
  lemma SetEventHandsOver(s0: State, run: seq<Action>, t: nat)
    requires Init(s0) && Runs(s0, run)
    requires var s := Exec(s0, run);
             && t < |s.pcs| && s.pcs[t].Setting? && s.pcs[t].event < |s.events| && s.events[s.pcs[t].event].auto
             && (CanSetEnter(s, t) || CanSetDone(s, t))
    ensures var s := Exec(s0, run);
            var e := s.pcs[t].event;
            var s' := if CanSetDone(s, t) then DoSetDone(s, t) else DoSetEnter(s, t);
            if CanSetDone(s, t) then s'.events[e].signaled && s'.recs == s.recs
            else !s.events[e].signaled && !s'.events[e].signaled &&
                 if s.recs[Front(s, t)].still then
                   && s'.events[e].sets == s.events[e].sets + 1
                   && Granted(s'.recs, e) == Granted(s.recs, e) + 1
                   && s'.recs == s.recs[Front(s, t) := s'.recs[Front(s, t)]]
                   && s'.recs[Front(s, t)].seen == s.recs[Front(s, t)].seen + [s.events[e].regs[0].idx]
                 else s'.recs == s.recs && s'.events[e].sets == s.events[e].sets
  {
    var s := Exec(s0, run);
    var e := s.pcs[t].event;
    RunKeepsInv(s0, run);
    assert QuietOk(s, e) && EventOk(s, e);
    if !CanSetDone(s, t) && s.recs[Front(s, t)].still {
      var x := s.events[e].regs[0];
      assert EntryOk(s, e, x);
      GrantedMore(s.recs, x.rec, DoSetEnter(s, t).recs[x.rec], x.idx, e);
    }
  }

  /** An infinite wait-any over auto-reset events takes one signal at most and reports it. */
  lemma NoSignalLost(s0: State, run: seq<Action>, r: nat)
    requires Init(s0) && Runs(s0, run) && r < |Exec(s0, run).recs|
    requires var s := Exec(s0, run);
             !s.recs[r].waitAll && s.recs[r].mode.Infinite? && AutoOnly(s, s.recs[r])
    ensures var w := Exec(s0, run).recs[r];
            && |w.seen| <= 1
            && !w.outcome.TimedOut?
            && (w.outcome.Satisfied? ==> |w.seen| == 1 && w.seen[0] == w.outcome.status)
            && (w.seen != [] && w.outcome.Unfinished? ==> w.status == w.seen[0] && IsDone(w))
  {
    RunKeepsInv(s0, run);
    assert SeenOk(Exec(s0, run), r);
  }

  // ---------------------------------------------------------------- wait-all

  /** EventsLeft counts what is not scanned plus what is registered and due; it never goes negative. */
  lemma WaitAllCounting(s0: State, run: seq<Action>, r: nat)
    requires Init(s0) && Runs(s0, run) && r < |Exec(s0, run).recs| && Exec(s0, run).recs[r].waitAll
    ensures var s := Exec(s0, run);
            var w := s.recs[r];
            && w.status >= 0
            && (w.outcome.Unfinished? ==> w.status == |w.events| - Cursor(s, r) + |Due(s, r)|)
            && (w.outcome.Satisfied? ==> forall i :: 0 <= i < |w.events| ==> multiset(w.seen)[i] == 1)
            && (w.outcome.Satisfied? ==> |w.seen| == |w.events|)
  {
    var s := Exec(s0, run);
    RunKeepsInv(s0, run);
    assert SeenOk(s, r);
    var w := s.recs[r];
    WaitAllSums(w, Due(s, r), Cursor(s, r));
    forall i: nat ensures Range(0, |w.events|)[i] == if i < |w.events| then 1 else 0 { RangeElems(0, |w.events|, i); }
  }

  lemma WaitAllSums(w: Wfmo, due: multiset<nat>, cursor: nat)
    requires AllOk(w, due, cursor) && w.waitAll
    ensures |w.seen| <= |w.events|
    ensures w.outcome.Unfinished? ==> w.status == |w.events| - cursor + |due|
    ensures w.outcome.Satisfied? ==> |w.seen| == |w.events|
  {
    var n := |w.events|;
    RangeSize(0, n);
    RangeSize(cursor, n);
    SizeLe(multiset(w.seen) + due + Range(cursor, n), Range(0, n));
    assert |multiset(w.seen) + due + Range(cursor, n)| == |w.seen| + |due| + (n - cursor);
  }

  lemma SizeLe(a: multiset<nat>, b: multiset<nat>)
    requires a <= b
    ensures |a| <= |b|
  {
    assert b == a + (b - a);
  }

  // ---------------------------------------------------------------- deadlock

  /** Multi-waits over these lists can deadlock with SetEvent exactly if the lists contain a knot. */
  lemma DeadlockIffKnot(lists: set<seq<nat>>, n: nat)
    requires forall l, i :: l in lists && 0 <= i < |l| ==> l[i] < n
    ensures (exists s0, s :: Init(s0) && |s0.events| == n && Reachable(s0, s, lists) && Deadlock(s))
       <==> (exists c :: Knot(lists, c))
  {
    if exists c :: Knot(lists, c) {
      var c :| Knot(lists, c);
      var s0, s := EventKnot.KnotDeadlocks(lists, n, c);
    }
    if exists s0, s :: Init(s0) && |s0.events| == n && Reachable(s0, s, lists) && Deadlock(s) {
      var s0, s :| Init(s0) && |s0.events| == n && Reachable(s0, s, lists) && Deadlock(s);
      ReachableDeadlockHasKnot(s0, s, lists);
    }
  }

  lemma ReachableDeadlockHasKnot(s0: State, s: State, lists: set<seq<nat>>)
    requires Init(s0) && Reachable(s0, s, lists) && Deadlock(s)
    ensures exists c :: Knot(lists, c)
  {
    var run :| Runs(s0, run) && Uses(run, lists) && Exec(s0, run) == s;
    RunKeepsShape(s0, run, lists);
    var d :| Stuck(s, d);
    DeadlockNeedsKnot(s, d, lists);
  }

  /**
   With every list in one global order, as in the thread pool, some thread can always move:
   a blocked one leaves another that is not blocked and has a step.
   */
  lemma OrderedNeverDeadlocks(s0: State, s: State, lists: set<seq<nat>>)
    requires Init(s0) && Reachable(s0, s, lists)
    requires forall l :: l in lists ==> Increasing(l)
    ensures !Deadlock(s)
    ensures (exists t :: Blocked(s, t)) ==>
              exists u: nat :: u < |s.pcs| && !Blocked(s, u) && Enabled(s, Move(s, u))
  {
    if Deadlock(s) {
      ReachableDeadlockHasKnot(s0, s, lists);
      var c :| Knot(lists, c);
      OrderedNoKnot(lists, c);
      assert false;
    }
    var run :| Runs(s0, run) && Uses(run, lists) && Exec(s0, run) == s;
    RunKeepsShape(s0, run, lists);
    if t :| Blocked(s, t) {
      var u := SomebodyRuns(s, t);
    }
  }

  /** One list that names an event twice is already a knot. */
  lemma DuplicateIsKnot(l: seq<nat>, i: nat, j: nat)
    requires i < j < |l| && l[i] == l[j]
    ensures Knot({l}, {l[i]})
  {
    assert Precedes({l}, l[i], l[i]);
    forall a | a in {l[i]} ensures PrecedesInside({l}, {l[i]}, a) {
      assert a == l[i];
    }
  }
}
