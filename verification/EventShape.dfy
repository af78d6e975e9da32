/**
 What every step of EventModel keeps about program counters, mutexes and registrations:

   - a thread inside a multi-wait owns its record, and holds the record's mutex exactly while it
     scans, cleans up or tests; nobody else ever keeps that mutex beyond a step;
   - a thread that cleans up or sets holds the mutex of that event;
   - a registered entry names an allocated record and an index, behind the caller's scan, at which
     that record lists the event;
   - a wait has no outcome exactly while its caller is in the call and has not left it, and
     StillWaiting is true only of such a wait.

 Each step is checked for program counters, records and events apart, since most steps change
 only one of the three.
 */
module EventShape {
  import opened Wrappers
  import opened EventModel

  /** How far the caller's scan has come; past the scan, the whole list. */
  function Cursor(s: State, r: nat): nat
    requires r < |s.recs|
  {
    var t := s.recs[r].caller;
    if t < |s.pcs| && (s.pcs[t].Scan? || s.pcs[t].Purge?) && s.pcs[t].rec == r then s.pcs[t].i else |s.recs[r].events|
  }

  predicate Active(s: State, r: nat)
    requires r < |s.recs|
  {
    s.recs[r].caller < |s.pcs| && InCall(s.pcs[s.recs[r].caller], r)
  }

  predicate PcOk(s: State, t: nat)
    requires t < |s.pcs|
  {
    match s.pcs[t]
    case Rest => true
    case Setting(e) => e < |s.events| && s.events[e].holder == Some(t)
    case Scan(r, i, skipped) =>
      OwnRec(s, t, r) && s.recs[r].mutex == Some(t) && s.recs[r].still && i <= |s.recs[r].events|
    case Purge(r, i, skipped, k) =>
      && OwnRec(s, t, r) && s.recs[r].mutex == Some(t) && s.recs[r].still && i < |s.recs[r].events|
      && s.recs[r].events[i] < |s.events|
      && var ev := s.events[s.recs[r].events[i]];
         ev.holder == Some(t) && k <= |ev.regs|
    case Check(r, skipped) => OwnRec(s, t, r) && s.recs[r].mutex == Some(t)
    case Asleep(r, skipped) => OwnRec(s, t, r) && s.recs[r].mutex == None && !s.recs[r].mode.Poll?
    case Leave(r, skipped) => OwnRec(s, t, r) && s.recs[r].mutex == None
  }

  predicate OwnRec(s: State, t: nat, r: nat) {
    r < |s.recs| && s.recs[r].caller == t
  }

  /** The mutex of a record is only ever held by its caller, inside the call. */
  predicate RecOk(s: State, r: nat)
    requires r < |s.recs|
  {
    var w := s.recs[r];
    && w.caller < |s.pcs|
    && (forall i :: 0 <= i < |w.events| ==> w.events[i] < |s.events|)
    && (w.mutex.Some? ==> w.mutex.value == w.caller && var pc := s.pcs[w.caller];
                          (pc.Scan? || pc.Purge? || pc.Check?) && pc.rec == r)
    && (w.outcome.Unfinished? <==> Active(s, r) && !s.pcs[w.caller].Leave?)
    && (w.still ==> w.outcome.Unfinished?)
    && (w.waitAll && w.outcome.Unfinished? ==> w.still)
  }

  predicate Holds(s: State, t: nat, e: nat) {
    t < |s.pcs| &&
    match s.pcs[t]
    case Setting(e') => e' == e
    case Purge(r, i, _, _) => r < |s.recs| && i < |s.recs[r].events| && s.recs[r].events[i] == e
    case _ => false
  }

  predicate EventOk(s: State, e: nat)
    requires e < |s.events|
  {
    var ev := s.events[e];
    && (ev.holder.Some? ==> Holds(s, ev.holder.value, e))
    && (!ev.phase.Look? ==> ev.regs != [] && ev.holder.Some? && s.pcs[ev.holder.value].Setting?)
    && forall j :: 0 <= j < |ev.regs| ==> EntryOk(s, e, ev.regs[j])
  }

  predicate EntryOk(s: State, e: nat, x: Info) {
    && x.rec < |s.recs|
    && x.idx < Cursor(s, x.rec) <= |s.recs[x.rec].events|
    && s.recs[x.rec].events[x.idx] == e
  }

  ghost predicate Shape(s: State) {
    && (forall t :: 0 <= t < |s.pcs| ==> PcOk(s, t))
    && (forall r :: 0 <= r < |s.recs| ==> RecOk(s, r))
    && (forall e :: 0 <= e < |s.events| ==> EventOk(s, e))
  }

  lemma ShapeInit(s: State)
    requires Init(s)
    ensures Shape(s)
  {
  }

  lemma ShapeBeginWait(s: State, t: nat, es: seq<nat>, waitAll: bool, mode: Mode)
    requires Shape(s) && CanBeginWait(s, t, es)
    ensures Shape(DoBeginWait(s, t, es, waitAll, mode))
  {
    var s' := DoBeginWait(s, t, es, waitAll, mode);
    assert PcOk(s, t);
    forall u | 0 <= u < |s'.pcs| ensures PcOk(s', u) { assert PcOk(s, u); }
    forall r | 0 <= r < |s'.recs| ensures RecOk(s', r) { if r < |s.recs| { assert RecOk(s, r); } }
    forall f | 0 <= f < |s'.events| ensures EventOk(s', f) { assert EventOk(s, f); }
  }

  lemma ShapeScanSkip(s: State, t: nat)
    requires Shape(s) && CanScanSkip(s, t)
    ensures Shape(DoScanSkip(s, t))
  {
    var s' := DoScanSkip(s, t);
    assert PcOk(s, t);
    assert RecOk(s, s.pcs[t].rec);
    forall u | 0 <= u < |s'.pcs| ensures PcOk(s', u) { assert PcOk(s, u); }
    forall r | 0 <= r < |s'.recs| ensures RecOk(s', r) { assert RecOk(s, r); }
    forall f | 0 <= f < |s'.events| ensures EventOk(s', f) { assert EventOk(s, f); }
  }

  lemma ShapeScanLock(s: State, t: nat)
    requires Shape(s) && CanScanLock(s, t)
    ensures Shape(DoScanLock(s, t))
  {
    var s' := DoScanLock(s, t);
    assert PcOk(s, t);
    assert RecOk(s, s.pcs[t].rec);
    forall u | 0 <= u < |s'.pcs| ensures PcOk(s', u) { assert PcOk(s, u); }
    forall r | 0 <= r < |s'.recs| ensures RecOk(s', r) { assert RecOk(s, r); }
    forall f | 0 <= f < |s'.events| ensures EventOk(s', f) { assert EventOk(s, f); }
  }

  lemma ShapeScanEnd(s: State, t: nat)
    requires Shape(s) && CanScanEnd(s, t)
    ensures Shape(DoScanEnd(s, t))
  {
    var s' := DoScanEnd(s, t);
    assert PcOk(s, t);
    assert RecOk(s, s.pcs[t].rec);
    forall u | 0 <= u < |s'.pcs| ensures PcOk(s', u) { assert PcOk(s, u); }
    forall r | 0 <= r < |s'.recs| ensures RecOk(s', r) { assert RecOk(s, r); }
    forall f | 0 <= f < |s'.events| ensures EventOk(s', f) { assert EventOk(s, f); }
  }

  lemma ShapePurgeStepPcs(s: State, t: nat, s': State)
    requires Shape(s) && CanPurgeStep(s, t) && s' == DoPurgeStep(s, t)
    ensures forall u :: 0 <= u < |s'.pcs| ==> PcOk(s', u)
  {
    assert PcOk(s, t) && RecOk(s, s.pcs[t].rec) && EventOk(s, PurgeEvent(s, t));
    forall u | 0 <= u < |s'.pcs| ensures PcOk(s', u) { assert PcOk(s, u); }
  }

  lemma ShapePurgeStepRecs(s: State, t: nat, s': State)
    requires Shape(s) && CanPurgeStep(s, t) && s' == DoPurgeStep(s, t)
    ensures forall r :: 0 <= r < |s'.recs| ==> RecOk(s', r)
  {
    assert PcOk(s, t) && RecOk(s, s.pcs[t].rec) && EventOk(s, PurgeEvent(s, t));
    forall r | 0 <= r < |s'.recs| ensures RecOk(s', r) { assert RecOk(s, r); }
  }

  lemma ShapePurgeStepEvents(s: State, t: nat, s': State)
    requires Shape(s) && CanPurgeStep(s, t) && s' == DoPurgeStep(s, t)
    ensures forall f :: 0 <= f < |s'.events| ==> EventOk(s', f)
  {
    assert PcOk(s, t) && RecOk(s, s.pcs[t].rec) && EventOk(s, PurgeEvent(s, t));
    forall f | 0 <= f < |s'.events| ensures EventOk(s', f) { assert EventOk(s, f); }
  }

  lemma ShapePurgeStep(s: State, t: nat)
    requires Shape(s) && CanPurgeStep(s, t)
    ensures Shape(DoPurgeStep(s, t))
  {
    ShapePurgeStepPcs(s, t, DoPurgeStep(s, t));
    ShapePurgeStepRecs(s, t, DoPurgeStep(s, t));
    ShapePurgeStepEvents(s, t, DoPurgeStep(s, t));
  }

  lemma ShapeTakePcs(s: State, t: nat, s': State)
    requires Shape(s) && CanPurgeEnd(s, t) && s' == DoTake(s, t)
    ensures forall u :: 0 <= u < |s'.pcs| ==> PcOk(s', u)
  {
    assert PcOk(s, t) && RecOk(s, s.pcs[t].rec) && EventOk(s, PurgeEvent(s, t));
    forall u | 0 <= u < |s'.pcs| ensures PcOk(s', u) { assert PcOk(s, u); }
  }

  lemma ShapeTakeRecs(s: State, t: nat, s': State)
    requires Shape(s) && CanPurgeEnd(s, t) && s' == DoTake(s, t)
    ensures forall r :: 0 <= r < |s'.recs| ==> RecOk(s', r)
  {
    assert PcOk(s, t) && RecOk(s, s.pcs[t].rec) && EventOk(s, PurgeEvent(s, t));
    forall r | 0 <= r < |s'.recs| ensures RecOk(s', r) { assert RecOk(s, r); }
  }

  lemma ShapeTakeEvents(s: State, t: nat, s': State)
    requires Shape(s) && CanPurgeEnd(s, t) && s' == DoTake(s, t)
    ensures forall f :: 0 <= f < |s'.events| ==> EventOk(s', f)
  {
    assert PcOk(s, t) && RecOk(s, s.pcs[t].rec) && EventOk(s, PurgeEvent(s, t));
    forall f | 0 <= f < |s'.events| ensures EventOk(s', f) { assert EventOk(s, f); }
  }

  lemma ShapeTake(s: State, t: nat)
    requires Shape(s) && CanPurgeEnd(s, t)
    ensures Shape(DoTake(s, t))
  {
    ShapeTakePcs(s, t, DoTake(s, t));
    ShapeTakeRecs(s, t, DoTake(s, t));
    ShapeTakeEvents(s, t, DoTake(s, t));
  }

  lemma ShapeRegisterPcs(s: State, t: nat, s': State)
    requires Shape(s) && CanPurgeEnd(s, t) && s' == DoRegister(s, t)
    ensures forall u :: 0 <= u < |s'.pcs| ==> PcOk(s', u)
  {
    assert PcOk(s, t) && RecOk(s, s.pcs[t].rec) && EventOk(s, PurgeEvent(s, t));
    forall u | 0 <= u < |s'.pcs| ensures PcOk(s', u) { assert PcOk(s, u); }
  }

  lemma ShapeRegisterRecs(s: State, t: nat, s': State)
    requires Shape(s) && CanPurgeEnd(s, t) && s' == DoRegister(s, t)
    ensures forall r :: 0 <= r < |s'.recs| ==> RecOk(s', r)
  {
    assert PcOk(s, t) && RecOk(s, s.pcs[t].rec) && EventOk(s, PurgeEvent(s, t));
    forall r | 0 <= r < |s'.recs| ensures RecOk(s', r) { assert RecOk(s, r); }
  }

  lemma ShapeRegisterEvents(s: State, t: nat, s': State)
    requires Shape(s) && CanPurgeEnd(s, t) && s' == DoRegister(s, t)
    ensures forall f :: 0 <= f < |s'.events| ==> EventOk(s', f)
  {
    assert PcOk(s, t) && RecOk(s, s.pcs[t].rec) && EventOk(s, PurgeEvent(s, t));
    forall f | 0 <= f < |s'.events| ensures EventOk(s', f) { assert EventOk(s, f); }
  }

  lemma ShapeRegister(s: State, t: nat)
    requires Shape(s) && CanPurgeEnd(s, t)
    ensures Shape(DoRegister(s, t))
  {
    ShapeRegisterPcs(s, t, DoRegister(s, t));
    ShapeRegisterRecs(s, t, DoRegister(s, t));
    ShapeRegisterEvents(s, t, DoRegister(s, t));
  }

  lemma ShapeSettle(s: State, t: nat)
    requires Shape(s) && CanSettle(s, t)
    ensures Shape(DoSettle(s, t))
  {
    var s' := DoSettle(s, t);
    assert PcOk(s, t);
    assert RecOk(s, s.pcs[t].rec);
    forall u | 0 <= u < |s'.pcs| ensures PcOk(s', u) { assert PcOk(s, u); }
    forall r | 0 <= r < |s'.recs| ensures RecOk(s', r) { assert RecOk(s, r); }
    forall f | 0 <= f < |s'.events| ensures EventOk(s', f) { assert EventOk(s, f); }
  }

  lemma ShapeGiveUp(s: State, t: nat)
    requires Shape(s) && CanGiveUp(s, t)
    ensures Shape(DoGiveUp(s, t))
  {
    var s' := DoGiveUp(s, t);
    assert PcOk(s, t);
    assert RecOk(s, s.pcs[t].rec);
    forall u | 0 <= u < |s'.pcs| ensures PcOk(s', u) { assert PcOk(s, u); }
    forall r | 0 <= r < |s'.recs| ensures RecOk(s', r) { assert RecOk(s, r); }
    forall f | 0 <= f < |s'.events| ensures EventOk(s', f) { assert EventOk(s, f); }
  }

  lemma ShapeSleep(s: State, t: nat)
    requires Shape(s) && CanSleep(s, t)
    ensures Shape(DoSleep(s, t))
  {
    var s' := DoSleep(s, t);
    assert PcOk(s, t);
    assert RecOk(s, s.pcs[t].rec);
    forall u | 0 <= u < |s'.pcs| ensures PcOk(s', u) { assert PcOk(s, u); }
    forall r | 0 <= r < |s'.recs| ensures RecOk(s', r) { assert RecOk(s, r); }
    forall f | 0 <= f < |s'.events| ensures EventOk(s', f) { assert EventOk(s, f); }
  }

  lemma ShapeWake(s: State, t: nat)
    requires Shape(s) && CanWake(s, t)
    ensures Shape(DoWake(s, t))
  {
    var s' := DoWake(s, t);
    assert PcOk(s, t);
    assert RecOk(s, s.pcs[t].rec);
    forall u | 0 <= u < |s'.pcs| ensures PcOk(s', u) { assert PcOk(s, u); }
    forall r | 0 <= r < |s'.recs| ensures RecOk(s', r) { assert RecOk(s, r); }
    forall f | 0 <= f < |s'.events| ensures EventOk(s', f) { assert EventOk(s, f); }
  }

  lemma ShapeDrop(s: State, t: nat)
    requires Shape(s) && CanDrop(s, t)
    ensures Shape(DoDrop(s, t))
  {
    var s' := DoDrop(s, t);
    assert PcOk(s, t);
    assert RecOk(s, s.pcs[t].rec);
    forall u | 0 <= u < |s'.pcs| ensures PcOk(s', u) { assert PcOk(s, u); }
    forall r | 0 <= r < |s'.recs| ensures RecOk(s', r) { assert RecOk(s, r); }
    forall f | 0 <= f < |s'.events| ensures EventOk(s', f) { assert EventOk(s, f); }
  }

  lemma ShapeSetBegin(s: State, t: nat, e: nat)
    requires Shape(s) && CanSetBegin(s, t, e)
    ensures Shape(DoSetBegin(s, t, e))
  {
    var s' := DoSetBegin(s, t, e);
    assert PcOk(s, t);
    forall u | 0 <= u < |s'.pcs| ensures PcOk(s', u) { assert PcOk(s, u); }
    forall r | 0 <= r < |s'.recs| ensures RecOk(s', r) { assert RecOk(s, r); }
    forall f | 0 <= f < |s'.events| ensures EventOk(s', f) { assert EventOk(s, f); }
  }

  lemma ShapeSetSkip(s: State, t: nat)
    requires Shape(s) && CanSetSkip(s, t)
    ensures Shape(DoSetSkip(s, t))
  {
    var s' := DoSetSkip(s, t);
    assert PcOk(s, t);
    assert EventOk(s, s.pcs[t].event);
    forall u | 0 <= u < |s'.pcs| ensures PcOk(s', u) { assert PcOk(s, u); }
    forall r | 0 <= r < |s'.recs| ensures RecOk(s', r) { assert RecOk(s, r); }
    forall f | 0 <= f < |s'.events| ensures EventOk(s', f) { assert EventOk(s, f); }
  }

  lemma ShapeSetWant(s: State, t: nat)
    requires Shape(s) && CanSetWant(s, t)
    ensures Shape(DoSetWant(s, t))
  {
    var s' := DoSetWant(s, t);
    assert PcOk(s, t);
    assert EventOk(s, s.pcs[t].event);
    forall u | 0 <= u < |s'.pcs| ensures PcOk(s', u) { assert PcOk(s, u); }
    forall r | 0 <= r < |s'.recs| ensures RecOk(s', r) { assert RecOk(s, r); }
    forall f | 0 <= f < |s'.events| ensures EventOk(s', f) { assert EventOk(s, f); }
  }

  lemma ShapeSetBackPcs(s: State, t: nat, s': State)
    requires Shape(s) && CanSetEnter(s, t) && s' == DoSetBack(s, t)
    ensures forall u :: 0 <= u < |s'.pcs| ==> PcOk(s', u)
  {
    assert PcOk(s, t) && EventOk(s, s.pcs[t].event);
    forall u | 0 <= u < |s'.pcs| ensures PcOk(s', u) { assert PcOk(s, u); }
  }

  lemma ShapeSetBackRecs(s: State, t: nat, s': State)
    requires Shape(s) && CanSetEnter(s, t) && s' == DoSetBack(s, t)
    ensures forall r :: 0 <= r < |s'.recs| ==> RecOk(s', r)
  {
    assert PcOk(s, t) && EventOk(s, s.pcs[t].event);
    forall r | 0 <= r < |s'.recs| ensures RecOk(s', r) { assert RecOk(s, r); }
  }

  lemma ShapeSetBackEvents(s: State, t: nat, s': State)
    requires Shape(s) && CanSetEnter(s, t) && s' == DoSetBack(s, t)
    ensures forall f :: 0 <= f < |s'.events| ==> EventOk(s', f)
  {
    assert PcOk(s, t) && EventOk(s, s.pcs[t].event);
    forall f | 0 <= f < |s'.events| ensures EventOk(s', f) { assert EventOk(s, f); }
  }

  lemma ShapeSetBack(s: State, t: nat)
    requires Shape(s) && CanSetEnter(s, t)
    ensures Shape(DoSetBack(s, t))
  {
    ShapeSetBackPcs(s, t, DoSetBack(s, t));
    ShapeSetBackRecs(s, t, DoSetBack(s, t));
    ShapeSetBackEvents(s, t, DoSetBack(s, t));
  }

  lemma ShapeSetCreditPcs(s: State, t: nat, s': State)
    requires Shape(s) && CanSetEnter(s, t) && s' == DoSetCredit(s, t)
    ensures forall u :: 0 <= u < |s'.pcs| ==> PcOk(s', u)
  {
    assert PcOk(s, t) && EventOk(s, s.pcs[t].event);
    forall u | 0 <= u < |s'.pcs| ensures PcOk(s', u) { assert PcOk(s, u); }
  }

  lemma ShapeSetCreditRecs(s: State, t: nat, s': State)
    requires Shape(s) && CanSetEnter(s, t) && s' == DoSetCredit(s, t)
    ensures forall r :: 0 <= r < |s'.recs| ==> RecOk(s', r)
  {
    assert PcOk(s, t) && EventOk(s, s.pcs[t].event);
    forall r | 0 <= r < |s'.recs| ensures RecOk(s', r) { assert RecOk(s, r); }
  }

  lemma ShapeSetCreditEvents(s: State, t: nat, s': State)
    requires Shape(s) && CanSetEnter(s, t) && s' == DoSetCredit(s, t)
    ensures forall f :: 0 <= f < |s'.events| ==> EventOk(s', f)
  {
    assert PcOk(s, t) && EventOk(s, s.pcs[t].event);
    forall f | 0 <= f < |s'.events| ensures EventOk(s', f) { assert EventOk(s, f); }
  }

  lemma ShapeSetCredit(s: State, t: nat)
    requires Shape(s) && CanSetEnter(s, t)
    ensures Shape(DoSetCredit(s, t))
  {
    ShapeSetCreditPcs(s, t, DoSetCredit(s, t));
    ShapeSetCreditRecs(s, t, DoSetCredit(s, t));
    ShapeSetCreditEvents(s, t, DoSetCredit(s, t));
  }

  lemma ShapeSetReleasePcs(s: State, t: nat, s': State)
    requires Shape(s) && CanSetRelease(s, t) && s' == DoSetRelease(s, t)
    ensures forall u :: 0 <= u < |s'.pcs| ==> PcOk(s', u)
  {
    assert PcOk(s, t) && EventOk(s, s.pcs[t].event);
    forall u | 0 <= u < |s'.pcs| ensures PcOk(s', u) { assert PcOk(s, u); }
  }

  lemma ShapeSetReleaseRecs(s: State, t: nat, s': State)
    requires Shape(s) && CanSetRelease(s, t) && s' == DoSetRelease(s, t)
    ensures forall r :: 0 <= r < |s'.recs| ==> RecOk(s', r)
  {
    assert PcOk(s, t) && EventOk(s, s.pcs[t].event);
    forall r | 0 <= r < |s'.recs| ensures RecOk(s', r) { assert RecOk(s, r); }
  }

  lemma ShapeSetReleaseEvents(s: State, t: nat, s': State)
    requires Shape(s) && CanSetRelease(s, t) && s' == DoSetRelease(s, t)
    ensures forall f :: 0 <= f < |s'.events| ==> EventOk(s', f)
  {
    assert PcOk(s, t) && EventOk(s, s.pcs[t].event);
    forall f | 0 <= f < |s'.events| ensures EventOk(s', f) { assert EventOk(s, f); }
  }

  lemma ShapeSetRelease(s: State, t: nat)
    requires Shape(s) && CanSetRelease(s, t)
    ensures Shape(DoSetRelease(s, t))
  {
    ShapeSetReleasePcs(s, t, DoSetRelease(s, t));
    ShapeSetReleaseRecs(s, t, DoSetRelease(s, t));
    ShapeSetReleaseEvents(s, t, DoSetRelease(s, t));
  }

  lemma ShapeSetDone(s: State, t: nat)
    requires Shape(s) && CanSetDone(s, t)
    ensures Shape(DoSetDone(s, t))
  {
    var s' := DoSetDone(s, t);
    assert PcOk(s, t);
    assert EventOk(s, s.pcs[t].event);
    forall u | 0 <= u < |s'.pcs| ensures PcOk(s', u) { assert PcOk(s, u); }
    forall r | 0 <= r < |s'.recs| ensures RecOk(s', r) { assert RecOk(s, r); }
    forall f | 0 <= f < |s'.events| ensures EventOk(s', f) { assert EventOk(s, f); }
  }

  lemma ShapeTakeOne(s: State, t: nat, e: nat)
    requires Shape(s) && CanTakeOne(s, t, e)
    ensures Shape(DoTakeOne(s, e))
  {
    var s' := DoTakeOne(s, e);
    assert PcOk(s, t);
    forall u | 0 <= u < |s'.pcs| ensures PcOk(s', u) { assert PcOk(s, u); }
    forall r | 0 <= r < |s'.recs| ensures RecOk(s', r) { assert RecOk(s, r); }
    forall f | 0 <= f < |s'.events| ensures EventOk(s', f) { assert EventOk(s, f); }
  }

  lemma ShapeReset(s: State, e: nat)
    requires Shape(s) && e < |s.events|
    ensures Shape(DoReset(s, e))
  {
    var s' := DoReset(s, e);
    forall u | 0 <= u < |s'.pcs| ensures PcOk(s', u) { assert PcOk(s, u); }
    forall r | 0 <= r < |s'.recs| ensures RecOk(s', r) { assert RecOk(s, r); }
    forall f | 0 <= f < |s'.events| ensures EventOk(s', f) { assert EventOk(s, f); }
  }

  lemma ShapeStep(s: State, a: Action)
    requires Shape(s) && Enabled(s, a)
    ensures Shape(Apply(s, a))
  {
    match a
    case BeginWait(t, es, waitAll, mode) => ShapeBeginWait(s, t, es, waitAll, mode);
    case ScanSkip(t) => ShapeScanSkip(s, t);
    case ScanLock(t) => ShapeScanLock(s, t);
    case ScanEnd(t) => ShapeScanEnd(s, t);
    case PurgeStep(t) => ShapePurgeStep(s, t);
    case PurgeEnd(t) => ShapeTake(s, t); ShapeRegister(s, t);
    case Settle(t) => ShapeSettle(s, t);
    case GiveUp(t) => ShapeGiveUp(s, t);
    case Sleep(t) => ShapeSleep(s, t);
    case Wake(t) => ShapeWake(s, t);
    case Drop(t) => ShapeDrop(s, t);
    case SetBegin(t, e) => ShapeSetBegin(s, t, e);
    case SetSkip(t) => ShapeSetSkip(s, t);
    case SetWant(t) => ShapeSetWant(s, t);
    case SetEnter(t) => ShapeSetBack(s, t); ShapeSetCredit(s, t);
    case SetRelease(t) => ShapeSetRelease(s, t);
    case SetDone(t) => ShapeSetDone(s, t);
    case TakeOne(t, e) => ShapeTakeOne(s, t, e);
    case Reset(e) => ShapeReset(s, e);
  }
}
