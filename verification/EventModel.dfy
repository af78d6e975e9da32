/**
 The POSIX half of rpc_srv_demo_linux/threadpool/rpevents.cpp as a state machine.

 One step is what a thread does between two points where another thread may interfere:
 taking or giving back a mutex, an atomic access to RefCount or StillWaiting, or a whole
 critical section that takes no further mutex.  Events and threads are numbered and fixed;
 wait records are numbered in order of allocation and keep their number when freed, so that
 a touch of a freed record would be visible.
 */
module EventModel {
  import opened Wrappers

  /** An entry of an event's RegisteredWaits: the wait record and the index it waits at. */
  datatype Info = Info(rec: nat, idx: nat)

  /** Where a SetEvent call that holds the event mutex stands with the front entry. */
  datatype Phase =
    | Look      // about to test StillWaiting of the front entry's record
    | Want      // saw it true and now wants the record's mutex
    | Credited  // has signalled the record and left its mutex; the entry is still queued

  /** The last four fields are history: nothing in a step depends on them. */
  datatype Event = Event(
    auto: bool,
    signaled: bool,
    regs: seq<Info>,
    holder: Option<nat>,
    phase: Phase,
    initial: bool,
    sets: nat,
    singles: nat,
    absorbed: nat)

  datatype Mode = Infinite | Timed | Poll

  datatype Outcome = Unfinished | TimedOut | Satisfied(status: int)

  /** smart_wfmo_t_.  `status` is the union EventsLeft / FiredEvent; `seen` is history. */
  datatype Wfmo = Wfmo(
    events: seq<nat>,
    waitAll: bool,
    mode: Mode,
    caller: nat,
    mutex: Option<nat>,
    refCount: int,
    status: int,
    still: bool,
    live: bool,
    woken: bool,
    seen: seq<nat>,
    outcome: Outcome)

  datatype Pc =
    | Rest
    | Scan(rec: nat, i: nat, skipped: nat)            // loop head; holds the record
    | Purge(rec: nat, i: nat, skipped: nat, k: nat)   // holds the record and event i
    | Check(rec: nat, skipped: nat)                   // loop test; holds the record
    | Asleep(rec: nat, skipped: nat)                  // in pthread_cond_wait
    | Leave(rec: nat, skipped: nat)                   // unlocked, about to drop its references
    | Setting(event: nat)                             // SetEvent, holding the event

  datatype State = State(events: seq<Event>, recs: seq<Wfmo>, pcs: seq<Pc>)

  datatype Action =
    | BeginWait(t: nat, events: seq<nat>, waitAll: bool, mode: Mode)
    | ScanSkip(t: nat)
    | ScanLock(t: nat)
    | PurgeStep(t: nat)
    | PurgeEnd(t: nat)
    | ScanEnd(t: nat)
    | Settle(t: nat)
    | GiveUp(t: nat)
    | Sleep(t: nat)
    | Wake(t: nat)
    | Drop(t: nat)
    | SetBegin(t: nat, event: nat)
    | SetSkip(t: nat)
    | SetWant(t: nat)
    | SetEnter(t: nat)
    | SetRelease(t: nat)
    | SetDone(t: nat)
    | TakeOne(t: nat, event: nat)
    | Reset(event: nat)

  predicate IsDone(w: Wfmo) {
    if w.waitAll then w.status == 0 else w.status != -1
  }

  /** Thread `t` is in its multi-wait and `r` is the record it allocated. */
  predicate InCall(pc: Pc, r: nat) {
    (pc.Scan? || pc.Purge? || pc.Check? || pc.Asleep? || pc.Leave?) && pc.rec == r
  }

  // ---------------------------------------------------------------- helpers

  /** fetch_sub on RefCount by `n`; whoever takes it to zero frees the record. */
  function DropRef(w: Wfmo, n: int): Wfmo {
    w.(refCount := w.refCount - n, live := w.live && w.refCount != n)
  }

  /** Index `i` was found signalled, by the scan or by a SetEvent. */
  function Credit(w: Wfmo, i: nat): Wfmo {
    w.(status := if w.waitAll then w.status - 1 else i, seen := w.seen + [i])
  }

  /** What SetEvent does inside the record's mutex: a wait-any is over at once. */
  function CreditBySet(w: Wfmo, i: nat): Wfmo {
    if w.waitAll then Credit(w, i) else Credit(w, i).(still := false)
  }

  /** Wait-any breaks out of the loop and gives back the references it will not use. */
  function AfterSeen(w: Wfmo, r: nat, i: nat, skipped: nat): Pc
    requires i < |w.events|
  {
    if w.waitAll then Scan(r, i + 1, skipped + 1) else Check(r, skipped + |w.events| - i)
  }

  function Finish(w: Wfmo, o: Outcome): Wfmo {
    w.(still := false, mutex := None, outcome := o)
  }

  function RemoveAt(regs: seq<Info>, k: nat): seq<Info>
    requires k < |regs|
  {
    regs[..k] + regs[k+1..]
  }

  // ---------------------------------------------------------------- WaitForMultipleEvents

  predicate CanBeginWait(s: State, t: nat, es: seq<nat>) {
    t < |s.pcs| && s.pcs[t].Rest? && forall i :: 0 <= i < |es| ==> es[i] < |s.events|
  }

  /** Allocate the record with 1 + count references and lock it. */
  function DoBeginWait(s: State, t: nat, es: seq<nat>, waitAll: bool, mode: Mode): State
    requires CanBeginWait(s, t, es)
  {
    var w := Wfmo(es, waitAll, mode, t, Some(t), 1 + |es|, if waitAll then |es| else -1,
                  true, true, false, [], Unfinished);
    s.(recs := s.recs + [w], pcs := s.pcs[t := Scan(|s.recs|, 0, 0)])
  }

  predicate AtScan(s: State, t: nat) {
    && t < |s.pcs| && s.pcs[t].Scan? && s.pcs[t].rec < |s.recs|
    && var w := s.recs[s.pcs[t].rec];
       s.pcs[t].i < |w.events| && w.events[s.pcs[t].i] < |s.events|
  }

  function ScanEvent(s: State, t: nat): nat
    requires AtScan(s, t)
  {
    s.recs[s.pcs[t].rec].events[s.pcs[t].i]
  }

  /** A signalled manual-reset event is taken without its mutex. */
  predicate CanScanSkip(s: State, t: nat) {
    AtScan(s, t) && !s.events[ScanEvent(s, t)].auto && s.events[ScanEvent(s, t)].signaled
  }

  function DoScanSkip(s: State, t: nat): State
    requires CanScanSkip(s, t)
  {
    var pc := s.pcs[t];
    var w := s.recs[pc.rec];
    s.(recs := s.recs[pc.rec := Credit(w, pc.i)], pcs := s.pcs[t := AfterSeen(w, pc.rec, pc.i, pc.skipped)])
  }

  predicate CanScanLock(s: State, t: nat) {
    AtScan(s, t) && s.events[ScanEvent(s, t)].holder.None?
  }

  function DoScanLock(s: State, t: nat): State
    requires CanScanLock(s, t)
  {
    var pc := s.pcs[t];
    var e := ScanEvent(s, t);
    s.(events := s.events[e := s.events[e].(holder := Some(t))], pcs := s.pcs[t := Purge(pc.rec, pc.i, pc.skipped, 0)])
  }

  predicate CanScanEnd(s: State, t: nat) {
    && t < |s.pcs| && s.pcs[t].Scan? && s.pcs[t].rec < |s.recs|
    && s.pcs[t].i == |s.recs[s.pcs[t].rec].events|
  }

  function DoScanEnd(s: State, t: nat): State
    requires CanScanEnd(s, t)
  {
    s.(pcs := s.pcs[t := Check(s.pcs[t].rec, s.pcs[t].skipped)])
  }

  predicate AtPurge(s: State, t: nat) {
    && t < |s.pcs| && s.pcs[t].Purge? && s.pcs[t].rec < |s.recs|
    && var w := s.recs[s.pcs[t].rec];
       s.pcs[t].i < |w.events| && w.events[s.pcs[t].i] < |s.events|
  }

  function PurgeEvent(s: State, t: nat): nat
    requires AtPurge(s, t)
  {
    s.recs[s.pcs[t].rec].events[s.pcs[t].i]
  }

  /** RemoveExpiredWaitHelper on the entry at the clean-up position. */
  predicate CanPurgeStep(s: State, t: nat) {
    && AtPurge(s, t)
    && var regs := s.events[PurgeEvent(s, t)].regs;
       s.pcs[t].k < |regs| && regs[s.pcs[t].k].rec < |s.recs|
  }

  function DoPurgeStep(s: State, t: nat): State
    requires CanPurgeStep(s, t)
  {
    var pc := s.pcs[t];
    var e := PurgeEvent(s, t);
    var ev := s.events[e];
    var q := ev.regs[pc.k].rec;
    if s.recs[q].still then s.(pcs := s.pcs[t := pc.(k := pc.k + 1)])
    else s.(events := s.events[e := ev.(regs := RemoveAt(ev.regs, pc.k))], recs := s.recs[q := DropRef(s.recs[q], 1)])
  }

  predicate CanPurgeEnd(s: State, t: nat) {
    AtPurge(s, t) && s.pcs[t].k == |s.events[PurgeEvent(s, t)].regs|
  }

  /** UnlockedWaitForEvent(e, 0): take the event if it is signalled, register otherwise. */
  function DoPurgeEnd(s: State, t: nat): State
    requires CanPurgeEnd(s, t)
  {
    if s.events[PurgeEvent(s, t)].signaled then DoTake(s, t) else DoRegister(s, t)
  }

  function DoTake(s: State, t: nat): State
    requires CanPurgeEnd(s, t)
  {
    var pc := s.pcs[t];
    var w := s.recs[pc.rec];
    var e := PurgeEvent(s, t);
    var ev := s.events[e];
    s.(events := s.events[e := ev.(signaled := !ev.auto, holder := None)],
       recs := s.recs[pc.rec := Credit(w, pc.i)],
       pcs := s.pcs[t := AfterSeen(w, pc.rec, pc.i, pc.skipped)])
  }

  function DoRegister(s: State, t: nat): State
    requires CanPurgeEnd(s, t)
  {
    var pc := s.pcs[t];
    var e := PurgeEvent(s, t);
    var ev := s.events[e];
    s.(events := s.events[e := ev.(regs := ev.regs + [Info(pc.rec, pc.i)], holder := None)],
       pcs := s.pcs[t := Scan(pc.rec, pc.i + 1, pc.skipped)])
  }

  predicate AtCheck(s: State, t: nat) {
    t < |s.pcs| && s.pcs[t].Check? && s.pcs[t].rec < |s.recs|
  }

  predicate AtSleep(s: State, t: nat) {
    t < |s.pcs| && s.pcs[t].Asleep? && s.pcs[t].rec < |s.recs|
  }

  predicate CanSettle(s: State, t: nat) {
    AtCheck(s, t) && IsDone(s.recs[s.pcs[t].rec])
  }

  /** The wait is over: report the status, clear StillWaiting and unlock. */
  function DoSettle(s: State, t: nat): State
    requires CanSettle(s, t)
  {
    var pc := s.pcs[t];
    var w := s.recs[pc.rec];
    s.(recs := s.recs[pc.rec := Finish(w, Satisfied(w.status))], pcs := s.pcs[t := Leave(pc.rec, pc.skipped)])
  }

  /** A zero time-out, or pthread_cond_timedwait reporting one. */
  predicate CanGiveUp(s: State, t: nat) {
    || (AtCheck(s, t) && !IsDone(s.recs[s.pcs[t].rec]) && s.recs[s.pcs[t].rec].mode.Poll?)
    || (AtSleep(s, t) && s.recs[s.pcs[t].rec].mutex.None? && s.recs[s.pcs[t].rec].mode.Timed?)
  }

  function DoGiveUp(s: State, t: nat): State
    requires CanGiveUp(s, t)
  {
    var pc := s.pcs[t];
    s.(recs := s.recs[pc.rec := Finish(s.recs[pc.rec], TimedOut)], pcs := s.pcs[t := Leave(pc.rec, pc.skipped)])
  }

  predicate CanSleep(s: State, t: nat) {
    AtCheck(s, t) && !IsDone(s.recs[s.pcs[t].rec]) && !s.recs[s.pcs[t].rec].mode.Poll?
  }

  function DoSleep(s: State, t: nat): State
    requires CanSleep(s, t)
  {
    var pc := s.pcs[t];
    var w := s.recs[pc.rec];
    s.(recs := s.recs[pc.rec := w.(mutex := None, woken := false)], pcs := s.pcs[t := Asleep(pc.rec, pc.skipped)])
  }

  /** Spurious wake-ups are allowed, so waking needs nothing but the mutex. */
  predicate CanWake(s: State, t: nat) {
    AtSleep(s, t) && s.recs[s.pcs[t].rec].mutex.None?
  }

  function DoWake(s: State, t: nat): State
    requires CanWake(s, t)
  {
    var pc := s.pcs[t];
    s.(recs := s.recs[pc.rec := s.recs[pc.rec].(mutex := Some(t))], pcs := s.pcs[t := Check(pc.rec, pc.skipped)])
  }

  predicate CanDrop(s: State, t: nat) {
    t < |s.pcs| && s.pcs[t].Leave? && s.pcs[t].rec < |s.recs|
  }

  function DoDrop(s: State, t: nat): State
    requires CanDrop(s, t)
  {
    var pc := s.pcs[t];
    s.(recs := s.recs[pc.rec := DropRef(s.recs[pc.rec], 1 + pc.skipped)], pcs := s.pcs[t := Rest])
  }

  // ---------------------------------------------------------------- SetEvent

  predicate CanSetBegin(s: State, t: nat, e: nat) {
    t < |s.pcs| && s.pcs[t].Rest? && e < |s.events| && s.events[e].holder.None?
  }

  /** A manual-reset event is raised before its waiters are visited. */
  function DoSetBegin(s: State, t: nat, e: nat): State
    requires CanSetBegin(s, t, e)
  {
    var ev := s.events[e];
    s.(events := s.events[e := ev.(holder := Some(t), phase := Look, signaled := ev.signaled || !ev.auto)],
       pcs := s.pcs[t := Setting(e)])
  }

  predicate AtSet(s: State, t: nat, phase: Phase) {
    && t < |s.pcs| && s.pcs[t].Setting? && s.pcs[t].event < |s.events|
    && s.events[s.pcs[t].event].phase == phase
  }

  predicate AtFront(s: State, t: nat, phase: Phase) {
    && AtSet(s, t, phase)
    && var regs := s.events[s.pcs[t].event].regs;
       regs != [] && regs[0].rec < |s.recs|
  }

  function Front(s: State, t: nat): nat
    requires t < |s.pcs| && s.pcs[t].Setting? && s.pcs[t].event < |s.events| && s.events[s.pcs[t].event].regs != []
  {
    s.events[s.pcs[t].event].regs[0].rec
  }

  predicate CanSetSkip(s: State, t: nat) {
    AtFront(s, t, Look) && !s.recs[Front(s, t)].still
  }

  /** The front entry's wait has ended: drop its reference and the entry. */
  function DoSetSkip(s: State, t: nat): State
    requires CanSetSkip(s, t)
  {
    var e := s.pcs[t].event;
    var ev := s.events[e];
    var q := Front(s, t);
    s.(events := s.events[e := ev.(regs := ev.regs[1..])], recs := s.recs[q := DropRef(s.recs[q], 1)])
  }

  predicate CanSetWant(s: State, t: nat) {
    AtFront(s, t, Look) && s.recs[Front(s, t)].still
  }

  function DoSetWant(s: State, t: nat): State
    requires CanSetWant(s, t)
  {
    var e := s.pcs[t].event;
    s.(events := s.events[e := s.events[e].(phase := Want)])
  }

  predicate CanSetEnter(s: State, t: nat) {
    AtFront(s, t, Want) && s.recs[Front(s, t)].mutex.None?
  }

  /** Inside the record's mutex.  Only the auto-reset branch looks at StillWaiting again. */
  function DoSetEnter(s: State, t: nat): State
    requires CanSetEnter(s, t)
  {
    if s.events[s.pcs[t].event].auto && !s.recs[Front(s, t)].still then DoSetBack(s, t) else DoSetCredit(s, t)
  }

  function DoSetBack(s: State, t: nat): State
    requires CanSetEnter(s, t)
  {
    var e := s.pcs[t].event;
    s.(events := s.events[e := s.events[e].(phase := Look)])
  }

  function DoSetCredit(s: State, t: nat): State
    requires CanSetEnter(s, t)
  {
    var e := s.pcs[t].event;
    var ev := s.events[e];
    var q := Front(s, t);
    s.(events := s.events[e := ev.(phase := Credited, sets := ev.sets + if ev.auto then 1 else 0)],
       recs := s.recs[q := CreditBySet(s.recs[q], ev.regs[0].idx)])
  }

  predicate CanSetRelease(s: State, t: nat) {
    AtFront(s, t, Credited)
  }

  predicate CallerAsleep(s: State, r: nat)
    requires r < |s.recs|
  {
    s.recs[r].caller < |s.pcs| && s.pcs[s.recs[r].caller].Asleep? && s.pcs[s.recs[r].caller].rec == r
  }

  /** Signal the condition variable, drop the reference, pop; an auto-reset SetEvent returns. */
  function DoSetRelease(s: State, t: nat): State
    requires CanSetRelease(s, t)
  {
    var e := s.pcs[t].event;
    var ev := s.events[e];
    var q := Front(s, t);
    var w := DropRef(s.recs[q], 1).(woken := s.recs[q].woken || CallerAsleep(s, q));
    s.(events := s.events[e := ev.(regs := ev.regs[1..], phase := Look, holder := if ev.auto then None else ev.holder)],
       recs := s.recs[q := w],
       pcs := if ev.auto then s.pcs[t := Rest] else s.pcs)
  }

  predicate CanSetDone(s: State, t: nat) {
    AtSet(s, t, Look) && s.events[s.pcs[t].event].regs == []
  }

  /** Nobody left to hand the signal to: an auto-reset event stays raised. */
  function DoSetDone(s: State, t: nat): State
    requires CanSetDone(s, t)
  {
    var e := s.pcs[t].event;
    s.(events := s.events[e := Raised(s.events[e]).(holder := None)], pcs := s.pcs[t := Rest])
  }

  function Raised(ev: Event): Event {
    if ev.auto then
      ev.(signaled := true, sets := ev.sets + 1, absorbed := ev.absorbed + if ev.signaled then 1 else 0)
    else ev
  }

  // ---------------------------------------------------------------- WaitForEvent, ResetEvent

  /** The step at which a single wait succeeds; before it, the thread holds nothing. */
  predicate CanTakeOne(s: State, t: nat, e: nat) {
    t < |s.pcs| && s.pcs[t].Rest? && e < |s.events| && s.events[e].holder.None? && s.events[e].signaled
  }

  function DoTakeOne(s: State, e: nat): State
    requires e < |s.events|
  {
    var ev := s.events[e];
    s.(events := s.events[e := if ev.auto then ev.(signaled := false, singles := ev.singles + 1) else ev])
  }

  /** ResetEvent takes no mutex. */
  function DoReset(s: State, e: nat): State
    requires e < |s.events|
  {
    var ev := s.events[e];
    s.(events := s.events[e := ev.(signaled := false, absorbed := ev.absorbed + if ev.signaled then 1 else 0)])
  }

  // ---------------------------------------------------------------- steps

  predicate Enabled(s: State, a: Action) {
    match a
    case BeginWait(t, es, _, _) => CanBeginWait(s, t, es)
    case ScanSkip(t) => CanScanSkip(s, t)
    case ScanLock(t) => CanScanLock(s, t)
    case PurgeStep(t) => CanPurgeStep(s, t)
    case PurgeEnd(t) => CanPurgeEnd(s, t)
    case ScanEnd(t) => CanScanEnd(s, t)
    case Settle(t) => CanSettle(s, t)
    case GiveUp(t) => CanGiveUp(s, t)
    case Sleep(t) => CanSleep(s, t)
    case Wake(t) => CanWake(s, t)
    case Drop(t) => CanDrop(s, t)
    case SetBegin(t, e) => CanSetBegin(s, t, e)
    case SetSkip(t) => CanSetSkip(s, t)
    case SetWant(t) => CanSetWant(s, t)
    case SetEnter(t) => CanSetEnter(s, t)
    case SetRelease(t) => CanSetRelease(s, t)
    case SetDone(t) => CanSetDone(s, t)
    case TakeOne(t, e) => CanTakeOne(s, t, e)
    case Reset(e) => e < |s.events|
  }

  function Apply(s: State, a: Action): State
    requires Enabled(s, a)
  {
    match a
    case BeginWait(t, es, waitAll, mode) => DoBeginWait(s, t, es, waitAll, mode)
    case ScanSkip(t) => DoScanSkip(s, t)
    case ScanLock(t) => DoScanLock(s, t)
    case PurgeStep(t) => DoPurgeStep(s, t)
    case PurgeEnd(t) => DoPurgeEnd(s, t)
    case ScanEnd(t) => DoScanEnd(s, t)
    case Settle(t) => DoSettle(s, t)
    case GiveUp(t) => DoGiveUp(s, t)
    case Sleep(t) => DoSleep(s, t)
    case Wake(t) => DoWake(s, t)
    case Drop(t) => DoDrop(s, t)
    case SetBegin(t, e) => DoSetBegin(s, t, e)
    case SetSkip(t) => DoSetSkip(s, t)
    case SetWant(t) => DoSetWant(s, t)
    case SetEnter(t) => DoSetEnter(s, t)
    case SetRelease(t) => DoSetRelease(s, t)
    case SetDone(t) => DoSetDone(s, t)
    case TakeOne(_, e) => DoTakeOne(s, e)
    case Reset(e) => DoReset(s, e)
  }

  // ---------------------------------------------------------------- runs

  /** Fresh events, nobody waiting, `n` threads. */
  predicate Init(s: State) {
    && s.recs == []
    && (forall t :: 0 <= t < |s.pcs| ==> s.pcs[t].Rest?)
    && (forall e :: 0 <= e < |s.events| ==>
          && s.events[e].signaled == s.events[e].initial
          && s.events[e].regs == [] && s.events[e].holder.None? && s.events[e].phase.Look?
          && s.events[e].sets == s.events[e].singles == s.events[e].absorbed == 0)
  }

  predicate Runs(s: State, run: seq<Action>)
    decreases |run|, 0
  {
    run == [] || (Runs(s, run[..|run|-1]) && Enabled(Exec(s, run[..|run|-1]), run[|run|-1]))
  }

  function Exec(s: State, run: seq<Action>): State
    requires Runs(s, run)
    decreases |run|, 1
  {
    if run == [] then s else Apply(Exec(s, run[..|run|-1]), run[|run|-1])
  }
}
