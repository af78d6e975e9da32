/**
 RefCount accounts exactly for the caller's share and the registered entries.

 A record is allocated with one reference for the caller and one for each listed event.  While the
 caller scans, the references of the events it has not reached are still its own; registering
 passes one on to the entry, and finding an event signalled adds one to those the caller gives
 back at the end.  Entries give theirs back when a SetEvent hands them a signal or finds them
 expired, or when another wait cleans them up.

 The lemmas follow the steps; a step either leaves the entries alone (`RefsFrame`), moves one
 reference between caller and entry (`RefsRegister`, `RefsTake`), or drops some (`RefsDrop`,
 `RefsLoseEntry`).
 */
module EventRefs {
  import opened Wrappers
  import opened EventModel
  import opened EventShape
  import opened EventTally

  /** References the caller still owns: one, plus what it has not registered or has skipped. */
  function Share(s: State, r: nat): nat
    requires r < |s.recs|
  {
    if !Active(s, r) then 0
    else
      var pc := s.pcs[s.recs[r].caller];
      if pc.Scan? || pc.Purge? then
        1 + pc.skipped + (if pc.i < |s.recs[r].events| then |s.recs[r].events| - pc.i else 0)
      else 1 + pc.skipped
  }

  function Entries(s: State, r: nat): nat {
    |Tally(Regs(s.events), r)|
  }

  predicate RefOk(s: State, r: nat)
    requires r < |s.recs|
  {
    && s.recs[r].refCount == Share(s, r) + Entries(s, r)
    && (s.recs[r].live <==> s.recs[r].refCount > 0)
  }

  ghost predicate Refs(s: State) {
    forall r :: 0 <= r < |s.recs| ==> RefOk(s, r)
  }

  /** A record that some entry names is alive. */
  lemma EntryLive(s: State, e: nat, j: nat)
    requires Shape(s) && Refs(s) && e < |s.events| && j < |s.events[e].regs|
    ensures s.events[e].regs[j].rec < |s.recs| && s.recs[s.events[e].regs[j].rec].live
    ensures Entries(s, s.events[e].regs[j].rec) > 0
  {
    assert EventOk(s, e);
    assert EntryOk(s, e, s.events[e].regs[j]);
    assert Regs(s.events)[e] == s.events[e].regs;
    TallyHas(Regs(s.events), e, j);
    assert RefOk(s, s.events[e].regs[j].rec);
  }

  /** Steps that leave every list of entries alone. */
  lemma SameEntries(s: State, s': State, r: nat)
    requires Regs(s'.events) == Regs(s.events)
    ensures Entries(s', r) == Entries(s, r)
  {
  }

  lemma FewerEntries(s: State, s': State, e: nat, k: nat, r: nat)
    requires e < |s.events| && k < |s.events[e].regs|
    requires |s'.events| == |s.events| && s'.events == s.events[e := s'.events[e]]
    requires s'.events[e].regs == RemoveAt(s.events[e].regs, k)
    ensures Entries(s', r) == Entries(s, r) - if s.events[e].regs[k].rec == r then 1 else 0
  {
    RegsUpdate(s.events, e, s'.events[e], r);
    IdxRemove(s.events[e].regs, k, r);
    var gone := if s.events[e].regs[k].rec == r then multiset{s.events[e].regs[k].idx} else multiset{};
    assert Tally(Regs(s'.events), r) + gone + Idx(s'.events[e].regs, r)
        == Tally(Regs(s'.events), r) + (Idx(s'.events[e].regs, r) + gone);
    Cancel(Tally(Regs(s'.events), r) + gone, Tally(Regs(s.events), r), Idx(s'.events[e].regs, r));
  }

  lemma MoreEntries(s: State, s': State, e: nat, x: Info, r: nat)
    requires e < |s.events|
    requires |s'.events| == |s.events| && s'.events == s.events[e := s'.events[e]]
    requires s'.events[e].regs == s.events[e].regs + [x]
    ensures Entries(s', r) == Entries(s, r) + if x.rec == r then 1 else 0
  {
    RegsUpdate(s.events, e, s'.events[e], r);
    IdxAppend(s.events[e].regs, x, r);
    var more := if x.rec == r then multiset{x.idx} else multiset{};
    assert Tally(Regs(s.events), r) + (Idx(s.events[e].regs, r) + more)
        == Tally(Regs(s.events), r) + more + Idx(s.events[e].regs, r);
    Cancel(Tally(Regs(s'.events), r), Tally(Regs(s.events), r) + more, Idx(s.events[e].regs, r));
  }

  /** Taking entry `k` off event `e` together with the reference it stood for. */
  lemma RefsLoseEntry(s: State, s': State, e: nat, k: nat)
    requires Refs(s) && e < |s.events| && k < |s.events[e].regs| && |s'.recs| == |s.recs|
    requires |s'.events| == |s.events| && s'.events == s.events[e := s'.events[e]]
    requires s'.events[e].regs == RemoveAt(s.events[e].regs, k)
    requires var q := s.events[e].regs[k].rec;
             && q < |s.recs| && s.recs[q].live
             && s'.recs[q].refCount == s.recs[q].refCount - 1
             && s'.recs[q].live == (s.recs[q].refCount != 1)
    requires forall r :: 0 <= r < |s.recs| && r != s.events[e].regs[k].rec ==>
               s'.recs[r].refCount == s.recs[r].refCount && s'.recs[r].live == s.recs[r].live
    requires forall r :: 0 <= r < |s.recs| ==> Share(s', r) == Share(s, r)
    ensures Refs(s')
  {
    forall r | 0 <= r < |s'.recs| ensures RefOk(s', r) {
      assert RefOk(s, r);
      FewerEntries(s, s', e, k, r);
    }
  }

  /** Shares depend on program counters, callers and lists alone. */
  lemma SharesSame(s: State, s': State)
    requires s'.pcs == s.pcs && |s'.recs| == |s.recs|
    requires forall r :: 0 <= r < |s.recs| ==>
               s'.recs[r].caller == s.recs[r].caller && s'.recs[r].events == s.recs[r].events
    ensures forall r :: 0 <= r < |s.recs| ==> Share(s', r) == Share(s, r)
  {
  }

  lemma RefsInit(s: State)
    requires Init(s)
    ensures Refs(s)
  {
  }

  lemma RefsBeginWait(s: State, t: nat, es: seq<nat>, waitAll: bool, mode: Mode)
    requires Shape(s) && Refs(s) && CanBeginWait(s, t, es)
    ensures Refs(DoBeginWait(s, t, es, waitAll, mode))
  {
    var s' := DoBeginWait(s, t, es, waitAll, mode);
    forall r | 0 <= r < |s'.recs| ensures RefOk(s', r) {
      SameEntries(s, s', r);
      if r < |s.recs| {
        assert RefOk(s, r) && RecOk(s, r);
      } else {
        forall e, j | 0 <= e < |Regs(s.events)| && 0 <= j < |Regs(s.events)[e]| ensures Regs(s.events)[e][j].rec != r {
          assert EventOk(s, e);
          assert EntryOk(s, e, s.events[e].regs[j]);
        }
        TallyAbsent(Regs(s.events), r);
      }
    }
  }

  /** Steps that neither touch an entry nor a reference count nor anybody's share. */
  lemma RefsFrame(s: State, s': State)
    requires Refs(s) && |s'.recs| == |s.recs|
    requires Regs(s'.events) == Regs(s.events)
    requires forall r :: 0 <= r < |s.recs| ==>
               s'.recs[r].refCount == s.recs[r].refCount && s'.recs[r].live == s.recs[r].live
    requires forall r :: 0 <= r < |s.recs| ==> Share(s', r) == Share(s, r)
    ensures Refs(s')
  {
    forall r | 0 <= r < |s'.recs| ensures RefOk(s', r) {
      assert RefOk(s, r);
    }
  }

  lemma RefsScanSkip(s: State, t: nat)
    requires Shape(s) && Refs(s) && CanScanSkip(s, t)
    ensures Refs(DoScanSkip(s, t))
  {
    assert PcOk(s, t);
    RefsFrame(s, DoScanSkip(s, t));
  }

  lemma RefsScanLock(s: State, t: nat)
    requires Shape(s) && Refs(s) && CanScanLock(s, t)
    ensures Refs(DoScanLock(s, t))
  {
    var s' := DoScanLock(s, t);
    assert PcOk(s, t);
    assert Regs(s'.events) == Regs(s.events);
    RefsFrame(s, s');
  }

  lemma RefsScanEnd(s: State, t: nat)
    requires Shape(s) && Refs(s) && CanScanEnd(s, t)
    ensures Refs(DoScanEnd(s, t))
  {
    assert PcOk(s, t);
    RefsFrame(s, DoScanEnd(s, t));
  }

  lemma RefsPurgeKeep(s: State, t: nat)
    requires Shape(s) && Refs(s) && CanPurgeStep(s, t) && s.recs[s.events[PurgeEvent(s, t)].regs[s.pcs[t].k].rec].still
    ensures Refs(DoPurgeStep(s, t))
  {
    assert PcOk(s, t);
    RefsFrame(s, DoPurgeStep(s, t));
  }

  lemma RefsPurgeRemove(s: State, t: nat)
    requires Shape(s) && Refs(s) && CanPurgeStep(s, t) && !s.recs[s.events[PurgeEvent(s, t)].regs[s.pcs[t].k].rec].still
    ensures Refs(DoPurgeStep(s, t))
  {
    var s' := DoPurgeStep(s, t);
    var e := PurgeEvent(s, t);
    EntryLive(s, e, s.pcs[t].k);
    SharesSame(s, s');
    RefsLoseEntry(s, s', e, s.pcs[t].k);
  }

  lemma RefsTake(s: State, t: nat)
    requires Shape(s) && Refs(s) && CanPurgeEnd(s, t)
    ensures Refs(DoTake(s, t))
  {
    var s' := DoTake(s, t);
    assert PcOk(s, t);
    assert Regs(s'.events) == Regs(s.events);
    RefsFrame(s, s');
  }

  /** Registering moves one reference from the caller to the new entry. */
  lemma RefsRegister(s: State, t: nat)
    requires Shape(s) && Refs(s) && CanPurgeEnd(s, t)
    ensures Refs(DoRegister(s, t))
  {
    var s' := DoRegister(s, t);
    var e := PurgeEvent(s, t);
    var x := Info(s.pcs[t].rec, s.pcs[t].i);
    assert PcOk(s, t);
    forall r | 0 <= r < |s'.recs| ensures RefOk(s', r) {
      assert RefOk(s, r);
      MoreEntries(s, s', e, x, r);
    }
  }

  lemma RefsSettle(s: State, t: nat)
    requires Shape(s) && Refs(s) && CanSettle(s, t)
    ensures Refs(DoSettle(s, t))
  {
    assert PcOk(s, t);
    RefsFrame(s, DoSettle(s, t));
  }

  lemma RefsGiveUp(s: State, t: nat)
    requires Shape(s) && Refs(s) && CanGiveUp(s, t)
    ensures Refs(DoGiveUp(s, t))
  {
    assert PcOk(s, t);
    RefsFrame(s, DoGiveUp(s, t));
  }

  lemma RefsSleep(s: State, t: nat)
    requires Shape(s) && Refs(s) && CanSleep(s, t)
    ensures Refs(DoSleep(s, t))
  {
    assert PcOk(s, t);
    RefsFrame(s, DoSleep(s, t));
  }

  lemma RefsWake(s: State, t: nat)
    requires Shape(s) && Refs(s) && CanWake(s, t)
    ensures Refs(DoWake(s, t))
  {
    assert PcOk(s, t);
    RefsFrame(s, DoWake(s, t));
  }

  lemma RefsDrop(s: State, t: nat)
    requires Shape(s) && Refs(s) && CanDrop(s, t)
    ensures Refs(DoDrop(s, t))
  {
    var s' := DoDrop(s, t);
    assert PcOk(s, t);
    forall r | 0 <= r < |s'.recs| ensures RefOk(s', r) {
      assert RefOk(s, r);
    }
  }

  lemma RefsSetBegin(s: State, t: nat, e: nat)
    requires Shape(s) && Refs(s) && CanSetBegin(s, t, e)
    ensures Refs(DoSetBegin(s, t, e))
  {
    var s' := DoSetBegin(s, t, e);
    assert Regs(s'.events) == Regs(s.events);
    RefsFrame(s, s');
  }

  lemma RefsSetSkip(s: State, t: nat)
    requires Shape(s) && Refs(s) && CanSetSkip(s, t)
    ensures Refs(DoSetSkip(s, t))
  {
    var s' := DoSetSkip(s, t);
    var e := s.pcs[t].event;
    EntryLive(s, e, 0);
    SharesSame(s, s');
    assert s'.events[e].regs == RemoveAt(s.events[e].regs, 0);
    RefsLoseEntry(s, s', e, 0);
  }

  lemma RefsSetWant(s: State, t: nat)
    requires Shape(s) && Refs(s) && CanSetWant(s, t)
    ensures Refs(DoSetWant(s, t))
  {
    var s' := DoSetWant(s, t);
    assert Regs(s'.events) == Regs(s.events);
    RefsFrame(s, s');
  }

  lemma RefsSetEnter(s: State, t: nat)
    requires Shape(s) && Refs(s) && CanSetEnter(s, t)
    ensures Refs(DoSetEnter(s, t))
  {
    var s' := DoSetEnter(s, t);
    assert Regs(s'.events) == Regs(s.events);
    RefsFrame(s, s');
  }

  lemma RefsSetRelease(s: State, t: nat)
    requires Shape(s) && Refs(s) && CanSetRelease(s, t)
    ensures Refs(DoSetRelease(s, t))
  {
    var s' := DoSetRelease(s, t);
    var e := s.pcs[t].event;
    EntryLive(s, e, 0);
    forall r | 0 <= r < |s.recs| ensures Share(s', r) == Share(s, r) {
    }
    assert s'.events[e].regs == RemoveAt(s.events[e].regs, 0);
    RefsLoseEntry(s, s', e, 0);
  }

  lemma RefsSetDone(s: State, t: nat)
    requires Shape(s) && Refs(s) && CanSetDone(s, t)
    ensures Refs(DoSetDone(s, t))
  {
    var s' := DoSetDone(s, t);
    assert Regs(s'.events) == Regs(s.events);
    RefsFrame(s, s');
  }

  lemma RefsOneEvent(s: State, s': State)
    requires Refs(s) && s'.recs == s.recs && s'.pcs == s.pcs && Regs(s'.events) == Regs(s.events)
    ensures Refs(s')
  {
    RefsFrame(s, s');
  }

  lemma RefsStep(s: State, a: Action)
    requires Shape(s) && Refs(s) && Enabled(s, a)
    ensures Refs(Apply(s, a))
  {
    match a
    case BeginWait(t, es, waitAll, mode) => RefsBeginWait(s, t, es, waitAll, mode);
    case ScanSkip(t) => RefsScanSkip(s, t);
    case ScanLock(t) => RefsScanLock(s, t);
    case ScanEnd(t) => RefsScanEnd(s, t);
    case PurgeStep(t) =>
      if s.recs[s.events[PurgeEvent(s, t)].regs[s.pcs[t].k].rec].still { RefsPurgeKeep(s, t); }
      else { RefsPurgeRemove(s, t); }
    case PurgeEnd(t) => RefsTake(s, t); RefsRegister(s, t);
    case Settle(t) => RefsSettle(s, t);
    case GiveUp(t) => RefsGiveUp(s, t);
    case Sleep(t) => RefsSleep(s, t);
    case Wake(t) => RefsWake(s, t);
    case Drop(t) => RefsDrop(s, t);
    case SetBegin(t, e) => RefsSetBegin(s, t, e);
    case SetSkip(t) => RefsSetSkip(s, t);
    case SetWant(t) => RefsSetWant(s, t);
    case SetEnter(t) => RefsSetEnter(s, t);
    case SetRelease(t) => RefsSetRelease(s, t);
    case SetDone(t) => RefsSetDone(s, t);
    case TakeOne(_, e) => assert Regs(Apply(s, a).events) == Regs(s.events); RefsOneEvent(s, Apply(s, a));
    case Reset(e) => assert Regs(Apply(s, a).events) == Regs(s.events); RefsOneEvent(s, Apply(s, a));
  }
}
