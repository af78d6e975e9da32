/**
 Signals and wake-ups: none is lost, none is invented.

   - `Quiet`: outside its critical sections a raised event has no live registration;
   - `Wakeup`: a sleeper whose wait is over has been signalled, or is about to be;
   - `Ledger`: acquisitions of an auto-reset event plus its state balance the calls of SetEvent and
     its initial state, the rest being signals that were absorbed.
 */
module EventLedger {
  import opened Wrappers
  import opened EventModel
  import opened EventShape
  import opened EventTally
  import opened EventSeen

  // ---------------------------------------------------------------- raised events have no sleepers

  /** Only while SetEvent is emptying a manual-reset event may a raised event have entries. */
  predicate QuietOk(s: State, e: nat)
    requires e < |s.events|
  {
    var ev := s.events[e];
    ev.signaled ==> ev.regs == [] || (!ev.auto && ev.holder.Some? && Holds(s, ev.holder.value, e) &&
                                      s.pcs[ev.holder.value].Setting?)
  }

  ghost predicate Quiet(s: State) {
    forall e :: 0 <= e < |s.events| ==> QuietOk(s, e)
  }

  lemma QuietFrame(s: State, s': State, t: nat)
    requires Quiet(s) && s'.events == s.events && t < |s.pcs| == |s'.pcs|
    requires forall u :: 0 <= u < |s.pcs| && u != t ==> s'.pcs[u] == s.pcs[u]
    requires !s.pcs[t].Setting?
    ensures Quiet(s')
  {
    forall e | 0 <= e < |s'.events| ensures QuietOk(s', e) {
      assert QuietOk(s, e);
    }
  }

  /** Steps of one thread on one event. */
  lemma QuietOne(s: State, s': State, t: nat, e: nat)
    requires Quiet(s) && t < |s.pcs| == |s'.pcs| && e < |s.events| == |s'.events|
    requires forall u :: 0 <= u < |s.pcs| && u != t ==> s'.pcs[u] == s.pcs[u]
    requires forall f :: 0 <= f < |s.events| && f != e ==> s'.events[f] == s.events[f]
    requires s.pcs[t].Setting? ==> s.pcs[t].event == e
    requires QuietOk(s', e)
    ensures Quiet(s')
  {
    forall f | 0 <= f < |s'.events| ensures QuietOk(s', f) {
      if f != e { assert QuietOk(s, f); }
    }
  }

  lemma QuietStep(s: State, a: Action)
    requires Shape(s) && Quiet(s) && Enabled(s, a)
    ensures Quiet(Apply(s, a))
  {
    match a
    case BeginWait(t, _, _, _) => QuietFrame(s, Apply(s, a), t);
    case ScanSkip(t) => QuietFrame(s, Apply(s, a), t);
    case ScanEnd(t) => QuietFrame(s, Apply(s, a), t);
    case Settle(t) => QuietFrame(s, Apply(s, a), t);
    case GiveUp(t) => QuietFrame(s, Apply(s, a), t);
    case Sleep(t) => QuietFrame(s, Apply(s, a), t);
    case Wake(t) => QuietFrame(s, Apply(s, a), t);
    case Drop(t) => QuietFrame(s, Apply(s, a), t);
    case TakeOne(t, e) => assert QuietOk(s, e); QuietOne(s, Apply(s, a), t, e);
    case Reset(e) => QuietReset(s, e);
    case SetBegin(t, e) => assert QuietOk(s, e); QuietOne(s, Apply(s, a), t, e);
    case ScanLock(t) => QuietScanLock(s, t);
    case PurgeStep(t) => QuietPurgeStep(s, t);
    case PurgeEnd(t) => QuietPurgeEnd(s, t);
    case SetSkip(t) => QuietSetSkip(s, t);
    case SetWant(t) => QuietSetPhase(s, t, DoSetWant(s, t));
    case SetEnter(t) => QuietSetPhase(s, t, DoSetEnter(s, t));
    case SetRelease(t) => QuietSetRelease(s, t);
    case SetDone(t) => QuietOne(s, Apply(s, a), t, s.pcs[t].event);
  }

  lemma QuietReset(s: State, e: nat)
    requires Quiet(s) && e < |s.events|
    ensures Quiet(DoReset(s, e))
  {
    var s' := DoReset(s, e);
    forall f | 0 <= f < |s'.events| ensures QuietOk(s', f) { assert QuietOk(s, f); }
  }

  lemma QuietScanLock(s: State, t: nat)
    requires Shape(s) && Quiet(s) && CanScanLock(s, t)
    ensures Quiet(DoScanLock(s, t))
  {
    assert QuietOk(s, ScanEvent(s, t));
    QuietOne(s, DoScanLock(s, t), t, ScanEvent(s, t));
  }

  lemma QuietPurgeStep(s: State, t: nat)
    requires Shape(s) && Quiet(s) && CanPurgeStep(s, t)
    ensures Quiet(DoPurgeStep(s, t))
  {
    assert PcOk(s, t) && QuietOk(s, PurgeEvent(s, t));
    QuietOne(s, DoPurgeStep(s, t), t, PurgeEvent(s, t));
  }

  lemma QuietPurgeEnd(s: State, t: nat)
    requires Shape(s) && Quiet(s) && CanPurgeEnd(s, t)
    ensures Quiet(DoPurgeEnd(s, t))
  {
    assert PcOk(s, t) && QuietOk(s, PurgeEvent(s, t));
    QuietOne(s, DoPurgeEnd(s, t), t, PurgeEvent(s, t));
  }

  lemma QuietSetSkip(s: State, t: nat)
    requires Shape(s) && Quiet(s) && CanSetSkip(s, t)
    ensures Quiet(DoSetSkip(s, t))
  {
    assert PcOk(s, t) && QuietOk(s, s.pcs[t].event);
    QuietOne(s, DoSetSkip(s, t), t, s.pcs[t].event);
  }

  lemma QuietSetPhase(s: State, t: nat, s': State)
    requires Shape(s) && Quiet(s)
    requires (CanSetWant(s, t) && s' == DoSetWant(s, t)) || (CanSetEnter(s, t) && s' == DoSetEnter(s, t))
    ensures Quiet(s')
  {
    assert PcOk(s, t) && QuietOk(s, s.pcs[t].event);
    QuietOne(s, s', t, s.pcs[t].event);
  }

  lemma QuietSetRelease(s: State, t: nat)
    requires Shape(s) && Quiet(s) && CanSetRelease(s, t)
    ensures Quiet(DoSetRelease(s, t))
  {
    assert PcOk(s, t) && QuietOk(s, s.pcs[t].event);
    QuietOne(s, DoSetRelease(s, t), t, s.pcs[t].event);
  }

  // ---------------------------------------------------------------- no lost wake-up

  predicate AboutToSignal(s: State, r: nat) {
    exists e :: 0 <= e < |s.events| && s.events[e].phase.Credited? && s.events[e].regs != [] && s.events[e].regs[0].rec == r
  }

  /** A sleeper whose wait is over has been signalled, or is just about to be. */
  predicate WakeOk(s: State, r: nat)
    requires r < |s.recs|
  {
    CallerAsleep(s, r) && IsDone(s.recs[r]) ==> s.recs[r].woken || AboutToSignal(s, r)
  }

  ghost predicate Wakeup(s: State) {
    forall r :: 0 <= r < |s.recs| ==> WakeOk(s, r)
  }

  lemma SignalKept(s: State, s': State, r: nat)
    requires AboutToSignal(s, r) && |s'.events| == |s.events|
    requires forall e :: 0 <= e < |s.events| && s.events[e].phase.Credited? && s.events[e].regs != [] && s.events[e].regs[0].rec == r ==>
               s'.events[e].phase.Credited? && s'.events[e].regs != [] && s'.events[e].regs[0].rec == r
    ensures AboutToSignal(s', r)
  {
    var e :| 0 <= e < |s.events| && s.events[e].phase.Credited? && s.events[e].regs != [] && s.events[e].regs[0].rec == r;
    assert s'.events[e].phase.Credited?;
  }

  /** Steps that finish no wait, put nobody to sleep and leave credited entries in place. */
  lemma WakeFrame(s: State, s': State)
    requires Wakeup(s) && |s'.recs| == |s.recs| && |s'.events| == |s.events|
    requires forall e :: 0 <= e < |s.events| && s.events[e].phase.Credited? && s.events[e].regs != [] ==>
               s'.events[e].phase.Credited? && s'.events[e].regs != [] && s'.events[e].regs[0] == s.events[e].regs[0]
    requires forall r :: 0 <= r < |s.recs| && CallerAsleep(s', r) && IsDone(s'.recs[r]) ==>
               CallerAsleep(s, r) && IsDone(s.recs[r]) && (s.recs[r].woken ==> s'.recs[r].woken)
    ensures Wakeup(s')
  {
    forall r | 0 <= r < |s'.recs| ensures WakeOk(s', r) {
      assert WakeOk(s, r);
      if CallerAsleep(s', r) && IsDone(s'.recs[r]) && !s'.recs[r].woken { SignalKept(s, s', r); }
    }
  }

  lemma WakeBeginWait(s: State, t: nat, es: seq<nat>, waitAll: bool, mode: Mode)
    requires Shape(s) && Wakeup(s) && CanBeginWait(s, t, es)
    ensures Wakeup(DoBeginWait(s, t, es, waitAll, mode))
  {
    var s' := DoBeginWait(s, t, es, waitAll, mode);
    forall r | 0 <= r < |s'.recs| ensures WakeOk(s', r) {
      if r < |s.recs| {
        assert WakeOk(s, r);
        if CallerAsleep(s', r) && IsDone(s'.recs[r]) && !s'.recs[r].woken { SignalKept(s, s', r); }
      }
    }
  }

  lemma WakeCall(s: State, t: nat, s': State)
    requires Shape(s) && Wakeup(s)
    requires (CanScanSkip(s, t) && s' == DoScanSkip(s, t)) || (CanScanEnd(s, t) && s' == DoScanEnd(s, t))
          || (CanSettle(s, t) && s' == DoSettle(s, t)) || (CanGiveUp(s, t) && s' == DoGiveUp(s, t))
          || (CanSleep(s, t) && s' == DoSleep(s, t)) || (CanWake(s, t) && s' == DoWake(s, t))
          || (CanDrop(s, t) && s' == DoDrop(s, t))
    ensures Wakeup(s')
  {
    assert PcOk(s, t);
    WakeFrame(s, s');
  }

  lemma WakeLock(s: State, t: nat, s': State)
    requires Shape(s) && Wakeup(s)
    requires (CanScanLock(s, t) && s' == DoScanLock(s, t)) || (CanPurgeStep(s, t) && s' == DoPurgeStep(s, t))
    ensures Wakeup(s')
  {
    assert PcOk(s, t);
    assert CanScanLock(s, t) ==> EventOk(s, ScanEvent(s, t));
    assert CanPurgeStep(s, t) ==> EventOk(s, PurgeEvent(s, t));
    WakeFrame(s, s');
  }

  lemma WakePurgeEnd(s: State, t: nat)
    requires Shape(s) && Wakeup(s) && CanPurgeEnd(s, t)
    ensures Wakeup(DoPurgeEnd(s, t))
  {
    assert PcOk(s, t) && EventOk(s, PurgeEvent(s, t));
    WakeFrame(s, DoPurgeEnd(s, t));
  }

  lemma WakeSet(s: State, t: nat, s': State)
    requires Shape(s) && Wakeup(s)
    requires (CanSetSkip(s, t) && s' == DoSetSkip(s, t)) || (CanSetWant(s, t) && s' == DoSetWant(s, t))
          || (CanSetDone(s, t) && s' == DoSetDone(s, t))
    ensures Wakeup(s')
  {
    WakeFrame(s, s');
  }

  lemma WakeSetEnter(s: State, t: nat)
    requires Shape(s) && Wakeup(s) && CanSetEnter(s, t)
    ensures Wakeup(DoSetEnter(s, t))
  {
    var s' := DoSetEnter(s, t);
    var e := s.pcs[t].event;
    forall r | 0 <= r < |s'.recs| ensures WakeOk(s', r) {
      assert WakeOk(s, r);
      if CallerAsleep(s', r) && IsDone(s'.recs[r]) && !s'.recs[r].woken {
        if r == Front(s, t) && s'.events[e].phase.Credited? {
          assert s'.events[e].regs[0].rec == r;
        } else {
          SignalKept(s, s', r);
        }
      }
    }
  }

  lemma WakeSetRelease(s: State, t: nat)
    requires Shape(s) && Wakeup(s) && CanSetRelease(s, t)
    ensures Wakeup(DoSetRelease(s, t))
  {
    var s' := DoSetRelease(s, t);
    forall r | 0 <= r < |s'.recs| ensures WakeOk(s', r) {
      assert WakeOk(s, r);
      if r != Front(s, t) && CallerAsleep(s', r) && IsDone(s'.recs[r]) && !s'.recs[r].woken { SignalKept(s, s', r); }
    }
  }

  lemma WakeSetBegin(s: State, t: nat, e: nat)
    requires Shape(s) && Wakeup(s) && CanSetBegin(s, t, e)
    ensures Wakeup(DoSetBegin(s, t, e))
  {
    assert EventOk(s, e);
    WakeFrame(s, DoSetBegin(s, t, e));
  }

  lemma WakeStep(s: State, a: Action)
    requires Shape(s) && Wakeup(s) && Enabled(s, a)
    ensures Wakeup(Apply(s, a))
  {
    match a
    case BeginWait(t, es, waitAll, mode) => WakeBeginWait(s, t, es, waitAll, mode);
    case ScanSkip(t) => WakeCall(s, t, DoScanSkip(s, t));
    case ScanLock(t) => WakeLock(s, t, DoScanLock(s, t));
    case ScanEnd(t) => WakeCall(s, t, DoScanEnd(s, t));
    case PurgeStep(t) => WakeLock(s, t, DoPurgeStep(s, t));
    case PurgeEnd(t) => WakePurgeEnd(s, t);
    case Settle(t) => WakeCall(s, t, DoSettle(s, t));
    case GiveUp(t) => WakeCall(s, t, DoGiveUp(s, t));
    case Sleep(t) => WakeCall(s, t, DoSleep(s, t));
    case Wake(t) => WakeCall(s, t, DoWake(s, t));
    case Drop(t) => WakeCall(s, t, DoDrop(s, t));
    case SetBegin(t, e) => WakeSetBegin(s, t, e);
    case SetSkip(t) => WakeSet(s, t, DoSetSkip(s, t));
    case SetWant(t) => WakeSet(s, t, DoSetWant(s, t));
    case SetEnter(t) => WakeSetEnter(s, t);
    case SetRelease(t) => WakeSetRelease(s, t);
    case SetDone(t) => WakeSet(s, t, DoSetDone(s, t));
    case TakeOne(_, e) => WakeFrame(s, Apply(s, a));
    case Reset(e) => WakeFrame(s, Apply(s, a));
  }

  // ---------------------------------------------------------------- conservation

  function Bit(b: bool): nat { if b then 1 else 0 }

  /** Every SetEvent that took effect, and the initial state, is somewhere. */
  predicate LedgerOk(s: State, e: nat)
    requires e < |s.events|
  {
    var ev := s.events[e];
    ev.auto ==> Bit(ev.initial) + ev.sets == Bit(ev.signaled) + ev.singles + ev.absorbed + Granted(s.recs, e)
  }

  ghost predicate Ledger(s: State) {
    forall e :: 0 <= e < |s.events| ==> LedgerOk(s, e)
  }

  lemma LedgerInit(s: State)
    requires Init(s)
    ensures Ledger(s)
  {
  }

  predicate SameBooks(ev: Event, ev': Event) {
    && ev'.auto == ev.auto && ev'.initial == ev.initial && ev'.sets == ev.sets && ev'.signaled == ev.signaled
    && ev'.singles == ev.singles && ev'.absorbed == ev.absorbed
  }

  /** A step that grants nothing and books nothing. */
  lemma LedgerSame(s: State, s': State, q: nat)
    requires Ledger(s) && |s'.events| == |s.events|
    requires forall e :: 0 <= e < |s.events| ==> SameBooks(s.events[e], s'.events[e]) || !s'.events[e].auto
    requires s'.recs == s.recs || (q < |s.recs| == |s'.recs| && s'.recs == s.recs[q := s'.recs[q]]
             && s'.recs[q].events == s.recs[q].events && s'.recs[q].seen == s.recs[q].seen)
    ensures Ledger(s')
  {
    forall e | 0 <= e < |s'.events| ensures LedgerOk(s', e) {
      assert LedgerOk(s, e);
      if s'.recs != s.recs { GrantedSame(s.recs, q, s'.recs[q], e); }
    }
  }

  /** A step that lets record `q` see index `i`; the event listed there pays for it. */
  lemma LedgerGrant(s: State, s': State, q: nat, i: nat, d: nat)
    requires Ledger(s) && |s'.events| == |s.events| && q < |s.recs| == |s'.recs| && s'.recs == s.recs[q := s'.recs[q]]
    requires s'.recs[q].events == s.recs[q].events && s'.recs[q].seen == s.recs[q].seen + [i] && i < |s.recs[q].events|
    requires d == s.recs[q].events[i] && d < |s.events|
    requires forall e :: 0 <= e < |s.events| && e != d ==> SameBooks(s.events[e], s'.events[e])
    requires var ev, ev' := s.events[d], s'.events[d];
             ev'.auto == ev.auto && (ev'.auto ==>
               ev'.initial == ev.initial && ev'.singles == ev.singles && ev'.absorbed == ev.absorbed &&
               ev'.sets + Bit(ev.signaled) == ev.sets + Bit(ev'.signaled) + 1)
    ensures Ledger(s')
  {
    forall e | 0 <= e < |s'.events| ensures LedgerOk(s', e) {
      assert LedgerOk(s, e);
      GrantedMore(s.recs, q, s'.recs[q], i, e);
    }
  }

  /** A step that books something on one event and grants nothing. */
  lemma LedgerBook(s: State, s': State, d: nat)
    requires Ledger(s) && d < |s.events| == |s'.events| && s'.recs == s.recs
    requires forall e :: 0 <= e < |s.events| && e != d ==> s'.events[e] == s.events[e]
    requires var ev, ev' := s.events[d], s'.events[d];
             ev'.auto == ev.auto && ev'.initial == ev.initial && (ev'.auto ==>
               ev'.sets + Bit(ev.signaled) + ev.singles + ev.absorbed
               == ev.sets + Bit(ev'.signaled) + ev'.singles + ev'.absorbed)
    ensures Ledger(s')
  {
    forall e | 0 <= e < |s'.events| ensures LedgerOk(s', e) {
      assert LedgerOk(s, e);
    }
  }

  lemma LedgerBeginWait(s: State, t: nat, es: seq<nat>, waitAll: bool, mode: Mode)
    requires Ledger(s) && CanBeginWait(s, t, es)
    ensures Ledger(DoBeginWait(s, t, es, waitAll, mode))
  {
    var s' := DoBeginWait(s, t, es, waitAll, mode);
    forall e | 0 <= e < |s'.events| ensures LedgerOk(s', e) {
      assert LedgerOk(s, e);
      GrantedAppend(s.recs, s'.recs[|s.recs|], e);
    }
  }

  lemma LedgerScanSkip(s: State, t: nat)
    requires Shape(s) && Ledger(s) && CanScanSkip(s, t)
    ensures Ledger(DoScanSkip(s, t))
  {
    LedgerGrant(s, DoScanSkip(s, t), s.pcs[t].rec, s.pcs[t].i, ScanEvent(s, t));
  }

  lemma LedgerPurgeEnd(s: State, t: nat)
    requires Shape(s) && Ledger(s) && CanPurgeEnd(s, t)
    ensures Ledger(DoPurgeEnd(s, t))
  {
    if s.events[PurgeEvent(s, t)].signaled {
      LedgerGrant(s, DoTake(s, t), s.pcs[t].rec, s.pcs[t].i, PurgeEvent(s, t));
    } else {
      LedgerSame(s, DoRegister(s, t), 0);
    }
  }

  lemma LedgerPurgeStep(s: State, t: nat)
    requires Ledger(s) && CanPurgeStep(s, t)
    ensures Ledger(DoPurgeStep(s, t))
  {
    LedgerSame(s, DoPurgeStep(s, t), s.events[PurgeEvent(s, t)].regs[s.pcs[t].k].rec);
  }

  lemma LedgerSetEnter(s: State, t: nat)
    requires Shape(s) && Ledger(s) && CanSetEnter(s, t)
    ensures Ledger(DoSetEnter(s, t))
  {
    var e := s.pcs[t].event;
    var x := s.events[e].regs[0];
    assert EventOk(s, e) && EntryOk(s, e, x);
    if s.events[e].auto && !s.recs[x.rec].still {
      LedgerSame(s, DoSetBack(s, t), 0);
    } else {
      LedgerGrant(s, DoSetCredit(s, t), x.rec, x.idx, e);
    }
  }

  lemma LedgerStep(s: State, a: Action)
    requires Shape(s) && Ledger(s) && Enabled(s, a)
    ensures Ledger(Apply(s, a))
  {
    match a
    case BeginWait(t, es, waitAll, mode) => LedgerBeginWait(s, t, es, waitAll, mode);
    case ScanSkip(t) => LedgerScanSkip(s, t);
    case ScanLock(t) => LedgerSame(s, Apply(s, a), 0);
    case ScanEnd(t) => LedgerSame(s, Apply(s, a), 0);
    case PurgeStep(t) => LedgerPurgeStep(s, t);
    case PurgeEnd(t) => LedgerPurgeEnd(s, t);
    case Settle(t) => LedgerSame(s, Apply(s, a), s.pcs[t].rec);
    case GiveUp(t) => LedgerSame(s, Apply(s, a), s.pcs[t].rec);
    case Sleep(t) => LedgerSame(s, Apply(s, a), s.pcs[t].rec);
    case Wake(t) => LedgerSame(s, Apply(s, a), s.pcs[t].rec);
    case Drop(t) => LedgerSame(s, Apply(s, a), s.pcs[t].rec);
    case SetBegin(t, e) => LedgerSame(s, Apply(s, a), 0);
    case SetSkip(t) => LedgerSame(s, Apply(s, a), Front(s, t));
    case SetWant(t) => LedgerSame(s, Apply(s, a), 0);
    case SetEnter(t) => LedgerSetEnter(s, t);
    case SetRelease(t) => LedgerSame(s, Apply(s, a), Front(s, t));
    case SetDone(t) => LedgerBook(s, Apply(s, a), s.pcs[t].event);
    case TakeOne(_, e) => LedgerBook(s, Apply(s, a), e);
    case Reset(e) => LedgerBook(s, Apply(s, a), e);
  }
}
