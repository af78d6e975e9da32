/** When a multi-wait takes a signal that it does not report, exactly. */
module EventLosses {
  import opened Wrappers
  import opened EventModel
  import opened EventShape
  import opened EventSeen
  import opened EventOrder
  import EventLaws

  /** The wait has told its caller that index `i` was signalled. */
  predicate Reported(w: Wfmo, i: nat) {
    if w.waitAll then w.outcome.Satisfied? else w.outcome == Satisfied(i)
  }

  predicate AutoAt(s: State, w: Wfmo, i: nat) {
    i < |w.events| && w.events[i] < |s.events| && s.events[w.events[i]].auto
  }

  /** The wait is over, was granted the auto-reset event at index `i` and did not report it. */
  predicate LostAt(s: State, w: Wfmo, i: nat) {
    AutoAt(s, w, i) && i in w.seen && !w.outcome.Unfinished? && !Reported(w, i)
  }

  /** A call with this list, this `waitAll` and this kind of time-out has lost a signal. */
  ghost predicate Loss(s: State, l: seq<nat>, waitAll: bool, mode: Mode) {
    exists r, i :: 0 <= r < |s.recs| && LostAt(s, s.recs[r], i)
                   && s.recs[r].events == l && s.recs[r].waitAll == waitAll && s.recs[r].mode == mode
  }

  /** `kinds[e]` says whether event `e` is auto-reset. */
  predicate Kinds(s: State, kinds: seq<bool>) {
    |s.events| == |kinds| && forall e :: 0 <= e < |kinds| ==> s.events[e].auto == kinds[e]
  }

  ghost predicate LosesIn(s0: State, run: seq<Action>, l: seq<nat>, kinds: seq<bool>, waitAll: bool, mode: Mode) {
    Init(s0) && Kinds(s0, kinds) && Runs(s0, run) && Loss(Exec(s0, run), l, waitAll, mode)
  }

  predicate Names(l: seq<nat>, kinds: seq<bool>, auto: bool) {
    exists i :: 0 <= i < |l| && l[i] < |kinds| && kinds[l[i]] == auto
  }

  predicate MayLose(l: seq<nat>, kinds: seq<bool>, waitAll: bool, mode: Mode) {
    && Names(l, kinds, true)
    && (mode.Timed? || if waitAll then mode.Poll? && |l| > 1 else mode.Infinite? && Names(l, kinds, false))
  }

  // ---------------------------------------------------------------- zero time-outs

  /**
   A call with a zero time-out holds its record from the scan to its outcome, so that nobody else
   credits it meanwhile.  After the outcome only a manual-reset SetEvent may.
   */
  predicate PollOk(s: State, w: Wfmo) {
    w.mode.Poll? ==>
      && (w.outcome.Unfinished? && !w.waitAll ==> |w.seen| <= 1)
      && (!w.outcome.Unfinished? && (w.waitAll ==> |w.events| <= 1) ==>
            forall i <- w.seen :: AutoAt(s, w, i) ==> Reported(w, i))
  }

  ghost predicate Polls(s: State) {
    forall r :: 0 <= r < |s.recs| ==> PollOk(s, s.recs[r])
  }

  predicate Grants(a: Action) {
    a.ScanSkip? || a.PurgeEnd? || a.SetEnter?
  }

  lemma KindsAfter(s: State, a: Action)
    requires Enabled(s, a)
    ensures SameKinds(s, Apply(s, a))
  {
  }

  lemma HistoryAfter(s: State, a: Action, r: nat)
    requires Enabled(s, a) && r < |s.recs| && !Grants(a) && !a.Settle? && !a.GiveUp?
    ensures r < |Apply(s, a).recs| && SameHistory(s.recs[r], Apply(s, a).recs[r])
  {
  }

  lemma PollFrame(s: State, s': State, w: Wfmo, w': Wfmo)
    requires SameKinds(s, s') && SameHistory(w, w') && PollOk(s, w)
    ensures PollOk(s', w')
  {
    forall i | AutoAt(s', w', i) ensures AutoAt(s, w, i) { }
  }

  /** A scan credits an unfinished wait, a wait-any for the first time. */
  lemma PollScan(s: State, s': State, t: nat, r: nat)
    requires Shape(s) && Seen(s) && SameKinds(s, s') && t < |s.pcs| && r < |s.recs|
    requires (s.pcs[t].Scan? || s.pcs[t].Purge?) && s.pcs[t].rec == r
    ensures PollOk(s', Credit(s.recs[r], s.pcs[t].i))
  {
    assert PcOk(s, t) && RecOk(s, r) && SeenOk(s, r);
  }

  /** SetEvent credits a zero time-out call only when that is over, and then only from a manual-reset event. */
  lemma PollSet(s: State, t: nat)
    requires Shape(s) && Seen(s) && Polls(s) && CanSetEnter(s, t)
    requires s.events[s.pcs[t].event].auto ==> s.recs[Front(s, t)].still
    ensures PollOk(DoSetCredit(s, t), DoSetCredit(s, t).recs[Front(s, t)])
  {
    var e := s.pcs[t].event;
    var x := s.events[e].regs[0];
    assert EventOk(s, e) && EntryOk(s, e, x) && RecOk(s, x.rec) && PollOk(s, s.recs[x.rec]);
    assert PcOk(s, s.recs[x.rec].caller);
    var s' := DoSetCredit(s, t);
    KindsAfter(s, SetEnter(t));
    forall i | AutoAt(s', s'.recs[x.rec], i) ensures AutoAt(s, s.recs[x.rec], i) { }
  }

  lemma PollEnd(s: State, t: nat, o: Outcome)
    requires Shape(s) && Seen(s) && Polls(s) && t < |s.pcs| && (s.pcs[t].Check? || s.pcs[t].Asleep?)
    requires s.pcs[t].rec < |s.recs|
    requires var w := s.recs[s.pcs[t].rec]; if IsDone(w) && s.pcs[t].Check? then o == Satisfied(w.status) else o == TimedOut
    ensures PollOk(s, Finish(s.recs[s.pcs[t].rec], o))
  {
    var w := s.recs[s.pcs[t].rec];
    assert PcOk(s, t) && RecOk(s, s.pcs[t].rec) && SeenOk(s, s.pcs[t].rec) && PollOk(s, w);
    if w.waitAll { EventLaws.WaitAllSums(w, Due(s, s.pcs[t].rec), Cursor(s, s.pcs[t].rec)); }
  }

  lemma PollGrant(s: State, a: Action, r: nat)
    requires Shape(s) && Seen(s) && Polls(s) && Enabled(s, a) && Grants(a) && r < |s.recs|
    ensures PollOk(Apply(s, a), Apply(s, a).recs[r])
  {
    var s' := Apply(s, a);
    KindsAfter(s, a);
    if SameHistory(s.recs[r], s'.recs[r]) {
      PollFrame(s, s', s.recs[r], s'.recs[r]);
    } else if a.SetEnter? {
      PollSet(s, a.t);
    } else {
      PollScan(s, s', a.t, r);
    }
  }

  lemma PollStep(s: State, a: Action)
    requires Shape(s) && Seen(s) && Polls(s) && Enabled(s, a)
    ensures Polls(Apply(s, a))
  {
    var s' := Apply(s, a);
    forall r | 0 <= r < |s'.recs| ensures PollOk(s', s'.recs[r]) {
      if r < |s.recs| {
        assert PollOk(s, s.recs[r]);
        KindsAfter(s, a);
        if Grants(a) {
          PollGrant(s, a, r);
        } else if a.Settle? || a.GiveUp? {
          PollFinish(s, a, r);
        } else {
          HistoryAfter(s, a, r);
          PollFrame(s, s', s.recs[r], s'.recs[r]);
        }
      }
    }
  }

  lemma PollFinish(s: State, a: Action, r: nat)
    requires Shape(s) && Seen(s) && Polls(s) && Enabled(s, a) && (a.Settle? || a.GiveUp?) && r < |s.recs|
    ensures PollOk(Apply(s, a), Apply(s, a).recs[r])
  {
    assert PollOk(s, s.recs[r]);
    if r == s.pcs[a.t].rec {
      PollEnd(s, a.t, if a.Settle? then Satisfied(s.recs[r].status) else TimedOut);
    }
  }

  lemma {:induction false} RunKeepsPolls(s0: State, run: seq<Action>)
    requires Init(s0) && Runs(s0, run)
    ensures Polls(Exec(s0, run)) && SameKinds(s0, Exec(s0, run))
    decreases |run|
  {
    if run != [] {
      var front := run[..|run|-1];
      RunKeepsPolls(s0, front);
      EventLaws.RunKeepsInv(s0, front);
      PollStep(Exec(s0, front), run[|run|-1]);
      KindsAfter(Exec(s0, front), run[|run|-1]);
    }
  }

  /** An index at which a list without only auto-reset events names a manual-reset one. */
  lemma NamesManual(s: State, w: Wfmo, kinds: seq<bool>)
    requires Kinds(s, kinds) && !AutoOnly(s, w) && forall i :: 0 <= i < |w.events| ==> w.events[i] < |s.events|
    ensures Names(w.events, kinds, false)
  {
    var k :| 0 <= k < |w.events| && !(w.events[k] < |s.events| && s.events[w.events[k]].auto);
    assert !kinds[w.events[k]];
  }

  lemma LossHere(s: State, kinds: seq<bool>, r: nat, i: nat)
    requires r < |s.recs| && PollOk(s, s.recs[r]) && SeenOk(s, r) && LostAt(s, s.recs[r], i) && Kinds(s, kinds)
    requires forall k :: 0 <= k < |s.recs[r].events| ==> s.recs[r].events[k] < |s.events|
    ensures MayLose(s.recs[r].events, kinds, s.recs[r].waitAll, s.recs[r].mode)
  {
    var w := s.recs[r];
    assert kinds[w.events[i]];
    if w.mode.Infinite? && !w.waitAll && AutoOnly(s, w) {
      assert false;
    }
    if w.mode.Infinite? && !w.waitAll { NamesManual(s, w, kinds); }
  }

  /** No call loses a signal unless its list, its kind and its time-out allow it. */
  lemma LossNeeds(s0: State, run: seq<Action>, kinds: seq<bool>, r: nat, i: nat)
    requires Init(s0) && Kinds(s0, kinds) && Runs(s0, run)
    requires r < |Exec(s0, run).recs| && LostAt(Exec(s0, run), Exec(s0, run).recs[r], i)
    ensures var w := Exec(s0, run).recs[r]; MayLose(w.events, kinds, w.waitAll, w.mode)
  {
    var s := Exec(s0, run);
    RunKeepsPolls(s0, run);
    EventLaws.RunKeepsInv(s0, run);
    assert PollOk(s, s.recs[r]) && SeenOk(s, r) && RecOk(s, r);
    LossHere(s, kinds, r, i);
  }

  // ---------------------------------------------------------------- losing runs

  /** One call over `l`; the event at index `hot`, if that is one, is raised at the start. */
  datatype Scene = Scene(l: seq<nat>, kinds: seq<bool>, waitAll: bool, mode: Mode, hot: nat)

  predicate SceneOk(sc: Scene) {
    && (forall i :: 0 <= i < |sc.l| ==> sc.l[i] < |sc.kinds|)
    && (sc.hot < |sc.l| ==> sc.waitAll && sc.kinds[sc.l[sc.hot]] && forall i :: 0 <= i < sc.hot ==> sc.l[i] != sc.l[sc.hot])
  }

  /** Event `e` is raised until the scan passes index `hot`. */
  predicate RaisedAt(sc: Scene, e: nat, i: nat) {
    i <= sc.hot < |sc.l| && e == sc.l[sc.hot]
  }

  function Start(sc: Scene): State {
    State(seq(|sc.kinds|, e requires 0 <= e < |sc.kinds| =>
                Event(sc.kinds[e], RaisedAt(sc, e, 0), [], None, Look, RaisedAt(sc, e, 0), 0, 0, 0)),
          [], [Rest, Rest, Rest])
  }

  /** What the scan has taken by index `i`. */
  function Taken(sc: Scene, i: nat): seq<nat> {
    if sc.hot < i then [sc.hot] else []
  }

  function Rec(sc: Scene, i: nat, mutex: Option<nat>): Wfmo {
    Wfmo(sc.l, sc.waitAll, sc.mode, 0, mutex, 1 + |sc.l|, if sc.waitAll then |sc.l| - |Taken(sc, i)| else -1,
         true, true, false, Taken(sc, i), Unfinished)
  }

  predicate Calm(sc: Scene, ev: Event, e: nat, i: nat, holder: Option<nat>)
    requires e < |sc.kinds|
  {
    ev.auto == sc.kinds[e] && ev.signaled == RaisedAt(sc, e, i) && ev.phase.Look? && ev.holder == holder
  }

  /** The scan has come to index `i`; the call is registered at every earlier index but `hot`. */
  ghost predicate Scanned(sc: Scene, s: State, i: nat) {
    && SceneOk(sc) && Reachable(Start(sc), s, {sc.l}) && i <= |sc.l| && |s.events| == |sc.kinds|
    && (forall k :: 0 <= k < i && k != sc.hot ==> s.events[sc.l[k]].regs != [])
  }

  ghost predicate Scanning(sc: Scene, s: State, i: nat) {
    && Scanned(sc, s, i) && s.recs == [Rec(sc, i, Some(0))] && s.pcs == [Scan(0, i, |Taken(sc, i)|), Rest, Rest]
    && forall e :: 0 <= e < |sc.kinds| ==> Calm(sc, s.events[e], e, i, None)
  }

  ghost predicate Cleaning(sc: Scene, s: State, i: nat, x: nat) {
    && Scanned(sc, s, i) && i < |sc.l| && s.recs == [Rec(sc, i, Some(0))]
    && s.pcs == [Purge(0, i, |Taken(sc, i)|, x), Rest, Rest] && x <= |s.events[sc.l[i]].regs|
    && forall e :: 0 <= e < |sc.kinds| ==> Calm(sc, s.events[e], e, i, if e == sc.l[i] then Some(0) else None)
  }

  lemma StartFacts(sc: Scene)
    requires SceneOk(sc)
    ensures Init(Start(sc)) && Kinds(Start(sc), sc.kinds) && Reachable(Start(sc), Start(sc), {sc.l})
    ensures forall e :: 0 <= e < |sc.kinds| ==> Calm(sc, Start(sc).events[e], e, 0, None)
  {
    var none: seq<Action> := [];
    assert Runs(Start(sc), none) && Uses(none, {sc.l}) && Exec(Start(sc), none) == Start(sc);
  }

  lemma Begun(sc: Scene) returns (s: State)
    requires SceneOk(sc)
    ensures Scanning(sc, s, 0)
  {
    StartFacts(sc);
    ExtendBegin(Start(sc), Start(sc), {sc.l}, 0, sc.l, sc.waitAll, sc.mode);
    s := DoBeginWait(Start(sc), 0, sc.l, sc.waitAll, sc.mode);
  }

  lemma Locked(sc: Scene, s: State, i: nat) returns (s': State)
    requires Scanning(sc, s, i) && i < |sc.l|
    ensures Cleaning(sc, s', i, 0)
  {
    assert Calm(sc, s.events[sc.l[i]], sc.l[i], i, None);
    ExtendScanLock(Start(sc), s, {sc.l}, 0);
    s' := DoScanLock(s, 0);
    forall e | 0 <= e < |sc.kinds| ensures Calm(sc, s'.events[e], e, i, if e == sc.l[i] then Some(0) else None) {
      assert Calm(sc, s.events[e], e, i, None);
    }
  }

  lemma ReachesShape(sc: Scene, s: State)
    requires SceneOk(sc) && Reachable(Start(sc), s, {sc.l})
    ensures Shape(s)
  {
    StartFacts(sc);
    var run :| Runs(Start(sc), run) && Uses(run, {sc.l}) && Exec(Start(sc), run) == s;
    RunKeepsShape(Start(sc), run, {sc.l});
  }

  lemma Kept(sc: Scene, s: State, i: nat, x: nat) returns (s': State)
    requires Cleaning(sc, s, i, x) && x < |s.events[sc.l[i]].regs|
    ensures Cleaning(sc, s', i, x + 1) && s'.events == s.events
  {
    ReachesShape(sc, s);
    assert EventOk(s, sc.l[i]) && EntryOk(s, sc.l[i], s.events[sc.l[i]].regs[x]);
    ExtendPurgeStep(Start(sc), s, {sc.l}, 0);
    s' := DoPurgeStep(s, 0);
  }

  lemma RecAfter(sc: Scene, i: nat)
    requires SceneOk(sc) && i < |sc.l|
    ensures Rec(sc, i + 1, Some(0)) == if i == sc.hot then Credit(Rec(sc, i, Some(0)), i) else Rec(sc, i, Some(0))
    ensures |Taken(sc, i + 1)| == |Taken(sc, i)| + if i == sc.hot then 1 else 0
  {
    if i == sc.hot { assert [] + [i] == [i]; }
  }

  lemma TakesHot(sc: Scene, s: State, i: nat, x: nat) returns (s': State)
    requires Cleaning(sc, s, i, x) && x == |s.events[sc.l[i]].regs| && i == sc.hot
    ensures Scanning(sc, s', i + 1)
  {
    assert Calm(sc, s.events[sc.l[i]], sc.l[i], i, Some(0));
    RecAfter(sc, i);
    ExtendPurgeEnd(Start(sc), s, {sc.l}, 0);
    s' := DoTake(s, 0);
    forall e | 0 <= e < |sc.kinds| ensures Calm(sc, s'.events[e], e, i + 1, None) {
      assert Calm(sc, s.events[e], e, i, if e == sc.l[i] then Some(0) else None);
    }
  }

  lemma MoreEntries(sc: Scene, s: State, events: seq<Event>, i: nat)
    requires Scanned(sc, s, i) && i < |sc.l| && |events| == |s.events|
    requires events == s.events[sc.l[i] := events[sc.l[i]]] && events[sc.l[i]].regs != []
    ensures forall k :: 0 <= k < i + 1 && k != sc.hot ==> events[sc.l[k]].regs != []
  {
  }

  lemma CalmAfter(sc: Scene, s: State, i: nat, x: nat, events: seq<Event>)
    requires Cleaning(sc, s, i, x) && i != sc.hot
    requires |events| == |s.events| && events == s.events[sc.l[i] := events[sc.l[i]]]
    requires events[sc.l[i]] == s.events[sc.l[i]].(regs := events[sc.l[i]].regs, holder := None)
    ensures forall e :: 0 <= e < |sc.kinds| ==> Calm(sc, events[e], e, i + 1, None)
  {
    forall e | 0 <= e < |sc.kinds| ensures Calm(sc, events[e], e, i + 1, None) {
      assert Calm(sc, s.events[e], e, i, if e == sc.l[i] then Some(0) else None);
    }
  }

  lemma Registered(s: State, f: nat, i: nat, skipped: nat, x: nat)
    requires s.pcs == [Purge(0, i, skipped, x), Rest, Rest] && CanPurgeEnd(s, 0) && PurgeEvent(s, 0) == f
    ensures var s' := DoRegister(s, 0);
            && s'.recs == s.recs && s'.pcs == [Scan(0, i + 1, skipped), Rest, Rest]
            && |s'.events| == |s.events| && s'.events == s.events[f := s'.events[f]]
            && s'.events[f] == s.events[f].(regs := s'.events[f].regs, holder := None) && s'.events[f].regs != []
  {
  }

  lemma RegisterStep(sc: Scene, s: State, i: nat, x: nat)
    requires Cleaning(sc, s, i, x) && x == |s.events[sc.l[i]].regs| && i != sc.hot
    ensures CanPurgeEnd(s, 0) && PurgeEvent(s, 0) == sc.l[i] && Reachable(Start(sc), DoRegister(s, 0), {sc.l})
  {
    assert Calm(sc, s.events[sc.l[i]], sc.l[i], i, Some(0));
    ExtendPurgeEnd(Start(sc), s, {sc.l}, 0);
  }

  lemma Registers(sc: Scene, s: State, i: nat, x: nat) returns (s': State)
    requires Cleaning(sc, s, i, x) && x == |s.events[sc.l[i]].regs| && i != sc.hot
    ensures Scanning(sc, s', i + 1)
  {
    RegisterStep(sc, s, i, x);
    s' := DoRegister(s, 0);
    Registered(s, sc.l[i], i, |Taken(sc, i)|, x);
    RecAfter(sc, i);
    CalmAfter(sc, s, i, x, s'.events);
    MoreEntries(sc, s, s'.events, i);
  }

  lemma {:induction false} CleanedAll(sc: Scene, s: State, i: nat, x: nat) returns (s': State)
    requires Cleaning(sc, s, i, x)
    ensures Scanning(sc, s', i + 1)
    decreases |s.events[sc.l[i]].regs| - x
  {
    if x < |s.events[sc.l[i]].regs| {
      var s1 := Kept(sc, s, i, x);
      s' := CleanedAll(sc, s1, i, x + 1);
    } else {
      if i == sc.hot { s' := TakesHot(sc, s, i, x); } else { s' := Registers(sc, s, i, x); }
    }
  }

  lemma {:induction false} ScannedAll(sc: Scene, s: State, i: nat) returns (s': State)
    requires Scanning(sc, s, i)
    ensures Scanning(sc, s', |sc.l|)
    decreases |sc.l| - i
  {
    if i < |sc.l| {
      var s1 := Locked(sc, s, i);
      var s2 := CleanedAll(sc, s1, i, 0);
      s' := ScannedAll(sc, s2, i + 1);
    } else {
      s' := s;
    }
  }

  ghost predicate LosesFrom(s0: State, run: seq<Action>, sc: Scene) {
    LosesIn(s0, run, sc.l, sc.kinds, sc.waitAll, sc.mode)
  }

  lemma LostIn(sc: Scene, s: State, i: nat)
    requires SceneOk(sc) && Reachable(Start(sc), s, {sc.l}) && 0 < |s.recs| && LostAt(s, s.recs[0], i)
    requires s.recs[0].events == sc.l && s.recs[0].waitAll == sc.waitAll && s.recs[0].mode == sc.mode
    ensures exists s0, run :: LosesFrom(s0, run, sc)
  {
    StartFacts(sc);
    var run :| Runs(Start(sc), run) && Uses(run, {sc.l}) && Exec(Start(sc), run) == s;
    assert Loss(s, sc.l, sc.waitAll, sc.mode);
    assert LosesFrom(Start(sc), run, sc);
  }

  /** A wait-all that must not wait finds one event raised and takes it, but not the others. */
  lemma PollLoses(sc: Scene)
    requires SceneOk(sc) && sc.hot < |sc.l| && |sc.l| > 1 && sc.mode.Poll?
    ensures exists s0, run :: LosesFrom(s0, run, sc)
  {
    var s0 := Begun(sc);
    var s1 := ScannedAll(sc, s0, 0);
    Extend(Start(sc), s1, {sc.l}, ScanEnd(0));
    var s2 := DoScanEnd(s1, 0);
    ExtendGiveUp(Start(sc), s2, {sc.l}, 0);
    var s3 := DoGiveUp(s2, 0);
    assert Calm(sc, s1.events[sc.l[sc.hot]], sc.l[sc.hot], |sc.l|, None);
    LostIn(sc, s3, sc.hot);
  }

  /** The caller sleeps, registered everywhere; two threads are free. */
  ghost predicate Sleeping(sc: Scene, s: State) {
    && Scanned(sc, s, |sc.l|) && s.recs == [Rec(sc, |sc.l|, None)] && s.pcs == [Asleep(0, 0), Rest, Rest]
    && sc.hot == |sc.l| && forall e :: 0 <= e < |sc.kinds| ==> Calm(sc, s.events[e], e, |sc.l|, None)
  }

  lemma Slept(sc: Scene) returns (s: State)
    requires SceneOk(sc) && sc.hot == |sc.l| > 0 && !sc.mode.Poll?
    ensures Sleeping(sc, s)
  {
    var s0 := Begun(sc);
    var s1 := ScannedAll(sc, s0, 0);
    ExtendSleep(Start(sc), s1, {sc.l}, 0);
    s := DoSleep(DoScanEnd(s1, 0), 0);
  }

  /** A SetEvent on a listed event has seen the call waiting. */
  lemma Wants(sc: Scene, s: State, t: nat, e: nat, i: nat) returns (s': State)
    requires SceneOk(sc) && Reachable(Start(sc), s, {sc.l}) && |s.events| == |sc.kinds|
    requires i < |sc.l| && sc.l[i] == e && s.events[e].regs != [] && Calm(sc, s.events[e], e, |sc.l|, None)
    requires |s.recs| == 1 && s.recs[0].still && t < |s.pcs| && s.pcs[t].Rest?
    ensures Reachable(Start(sc), s', {sc.l})
    ensures s'.recs == s.recs && s'.pcs == s.pcs[t := Setting(e)]
    ensures s'.events == s.events[e := s.events[e].(holder := Some(t), phase := Want, signaled := !sc.kinds[e])]
  {
    ReachesShape(sc, s);
    assert EventOk(s, e) && EntryOk(s, e, s.events[e].regs[0]);
    ExtendSet(Start(sc), s, {sc.l}, t, e);
    s' := DoSetWant(DoSetBegin(s, t, e), t);
  }

  /** Thread `t` sets event `e` and wants the record of its front entry, which is free. */
  predicate Entering(s: State, t: nat, e: nat) {
    && t < |s.pcs| && s.pcs[t] == Setting(e) && e < |s.events| && s.events[e].phase.Want? && s.events[e].regs != []
    && |s.recs| == 1 && s.recs[0].mutex.None? && (s.events[e].auto ==> s.recs[0].still)
  }

  /** It enters the record and credits an index at which the event stands. */
  lemma Credits(sc: Scene, s: State, t: nat, e: nat) returns (s': State, i: nat)
    requires Entering(s, t, e) && SceneOk(sc) && Reachable(Start(sc), s, {sc.l}) && s.recs[0].events == sc.l
    ensures Reachable(Start(sc), s', {sc.l})
    ensures i < |sc.l| && sc.l[i] == e && s'.recs == [CreditBySet(s.recs[0], i)]
    ensures s'.pcs == s.pcs && |s'.events| == |s.events| && s'.events[e].auto == s.events[e].auto
    ensures forall f :: 0 <= f < |s.events| && f != e ==> s'.events[f] == s.events[f]
  {
    ReachesShape(sc, s);
    i := s.events[e].regs[0].idx;
    assert EventOk(s, e) && EntryOk(s, e, s.events[e].regs[0]);
    ExtendSetEnter(Start(sc), s, {sc.l}, t);
    s' := DoSetCredit(s, t);
    assert DoSetEnter(s, t) == s';
  }

  /** The time-out comes after the signal. */
  lemma TimedLoses(sc: Scene, i: nat)
    requires SceneOk(sc) && sc.hot == |sc.l| && sc.mode.Timed? && i < |sc.l| && sc.kinds[sc.l[i]]
    ensures exists s0, run :: LosesFrom(s0, run, sc)
  {
    var e := sc.l[i];
    var s := Slept(sc);
    var s1 := Wants(sc, s, 1, e, i);
    var s2, k := Credits(sc, s1, 1, e);
    ExtendGiveUp(Start(sc), s2, {sc.l}, 0);
    LostIn(sc, DoGiveUp(s2, 0), k);
  }

  /** A manual-reset SetEvent writes its index over the one just credited. */
  lemma OverwriteLoses(sc: Scene, i: nat, j: nat)
    requires SceneOk(sc) && sc.hot == |sc.l| && sc.mode.Infinite? && !sc.waitAll
    requires i < |sc.l| && sc.kinds[sc.l[i]] && j < |sc.l| && !sc.kinds[sc.l[j]]
    ensures exists s0, run :: LosesFrom(s0, run, sc)
  {
    var job, stop := sc.l[i], sc.l[j];
    var s := Slept(sc);
    var s1 := Wants(sc, s, 1, stop, j);
    assert s1.events[job] == s.events[job] && Calm(sc, s.events[job], job, |sc.l|, None);
    var s2 := Wants(sc, s1, 2, job, i);
    assert s2.events[stop].regs != [] && s2.events[stop].phase.Want?;
    var s3, a := Credits(sc, s2, 2, job);
    assert s3.events[stop] == s2.events[stop];
    var s4, b := Credits(sc, s3, 1, stop);
    ExtendSettle(Start(sc), s4, {sc.l}, 0);
    LostIn(sc, DoSettle(DoWake(s4, 0), 0), a);
  }

  lemma {:induction false} FirstAt(l: seq<nat>, i: nat) returns (h: nat)
    requires i < |l|
    ensures h <= i && l[h] == l[i] && forall k :: 0 <= k < h ==> l[k] != l[i]
    decreases i
  {
    if k :| 0 <= k < i && l[k] == l[i] {
      h := FirstAt(l, k);
    } else {
      h := i;
    }
  }

  lemma Loses(sc: Scene)
    requires SceneOk(sc.(hot := |sc.l|)) && MayLose(sc.l, sc.kinds, sc.waitAll, sc.mode)
    ensures exists s0, run :: LosesFrom(s0, run, sc)
  {
    var i :| 0 <= i < |sc.l| && sc.l[i] < |sc.kinds| && sc.kinds[sc.l[i]];
    var calm := sc.(hot := |sc.l|);
    if sc.mode.Timed? {
      TimedLoses(calm, i);
      var s0, run :| LosesFrom(s0, run, calm);
      assert LosesFrom(s0, run, sc);
    } else if sc.waitAll {
      var h := FirstAt(sc.l, i);
      PollLoses(sc.(hot := h));
      var s0, run :| LosesFrom(s0, run, sc.(hot := h));
      assert LosesFrom(s0, run, sc);
    } else {
      var j :| 0 <= j < |sc.l| && sc.l[j] < |sc.kinds| && !sc.kinds[sc.l[j]];
      OverwriteLoses(calm, i, j);
      var s0, run :| LosesFrom(s0, run, calm);
      assert LosesFrom(s0, run, sc);
    }
  }

  /**
   Some run ends with a multi-wait over this list that is over and was granted an auto-reset event
   it did not report, exactly if the list names an auto-reset event and

     - the call has a finite time-out, or
     - it waits for all of several events and must not wait, or
     - it waits for any one, without limit, and the list names a manual-reset event too.
   */
  lemma SignalLostIff(l: seq<nat>, kinds: seq<bool>, waitAll: bool, mode: Mode)
    requires forall i :: 0 <= i < |l| ==> l[i] < |kinds|
    ensures (exists s0, run :: LosesIn(s0, run, l, kinds, waitAll, mode)) <==> MayLose(l, kinds, waitAll, mode)
  {
    var sc := Scene(l, kinds, waitAll, mode, |l|);
    if MayLose(l, kinds, waitAll, mode) {
      Loses(sc);
      var s0, run :| LosesFrom(s0, run, sc);
    }
    forall s0, run | LosesIn(s0, run, l, kinds, waitAll, mode) ensures MayLose(l, kinds, waitAll, mode) {
      var s := Exec(s0, run);
      var r, i :| 0 <= r < |s.recs| && LostAt(s, s.recs[r], i)
                  && s.recs[r].events == l && s.recs[r].waitAll == waitAll && s.recs[r].mode == mode;
      LossNeeds(s0, run, kinds, r, i);
    }
  }
}
