/** When an event is signalled, and when it is granted: what every step does to the flag of every event. */
module EventFlags {
  import opened Wrappers
  import opened EventModel
  import opened EventShape
  import EventLaws

  /** SetEvent raises a manual-reset event as it begins, and an auto-reset one as it finds nobody to credit. */
  predicate Raises(s: State, a: Action, e: nat)
    requires e < |s.events|
  {
    if s.events[e].auto then a.SetDone? && a.t < |s.pcs| && s.pcs[a.t] == Setting(e)
    else a.SetBegin? && a.event == e
  }

  /** Thread `t` has cleaned up event `e` in its multi-wait and looks at its flag. */
  predicate Looks(s: State, t: nat, e: nat) {
    t < |s.pcs| && s.pcs[t].Purge? && s.pcs[t].rec < |s.recs|
    && s.pcs[t].i < |s.recs[s.pcs[t].rec].events| && s.recs[s.pcs[t].rec].events[s.pcs[t].i] == e
  }

  /** ResetEvent lowers any event, and a wait that takes it an auto-reset one. */
  predicate Lowers(s: State, a: Action, e: nat)
    requires e < |s.events|
  {
    || (a.Reset? && a.event == e)
    || (s.events[e].auto && a.TakeOne? && a.event == e)
    || (s.events[e].auto && a.PurgeEnd? && Looks(s, a.t, e))
  }

  /** The flag after any step, from the flag before. */
  lemma FlagIff(s: State, a: Action, e: nat)
    requires Enabled(s, a) && e < |s.events|
    ensures |Apply(s, a).events| == |s.events| && Apply(s, a).events[e].auto == s.events[e].auto
    ensures Apply(s, a).events[e].signaled <==> Raises(s, a, e) || (s.events[e].signaled && !Lowers(s, a, e))
  {
  }

  /** ResetEvent is always possible; afterwards the event is not signalled, and all else is as before. */
  lemma ResetClears(s0: State, run: seq<Action>, e: nat)
    requires Init(s0) && Runs(s0, run) && e < |Exec(s0, run).events|
    ensures Runs(s0, run + [Reset(e)])
    ensures var s, r := Exec(s0, run), Exec(s0, run + [Reset(e)]);
            && r.recs == s.recs && r.pcs == s.pcs && |r.events| == |s.events|
            && (forall f :: 0 <= f < |s.events| && f != e ==> r.events[f] == s.events[f])
            && !r.events[e].signaled
            && r.events[e].regs == s.events[e].regs && r.events[e].holder == s.events[e].holder
            && r.events[e].phase == s.events[e].phase && r.events[e].auto == s.events[e].auto
  {
    var more := run + [Reset(e)];
    assert more[..|more| - 1] == run && more[|more| - 1] == Reset(e);
  }

  /** The step adds index `i` to what record `r` has been granted. */
  predicate Grants(s: State, a: Action, r: nat, i: nat)
    requires Enabled(s, a)
  {
    r < |s.recs| && r < |Apply(s, a).recs| && Apply(s, a).recs[r].seen == s.recs[r].seen + [i]
  }

  /** Some SetEvent holds the event and is crediting its waits. */
  predicate BeingSet(s: State, e: nat) {
    e < |s.events| && s.events[e].holder.Some? && s.events[e].holder.value < |s.pcs|
    && s.pcs[s.events[e].holder.value] == Setting(e)
  }

  /** A multi-wait takes an event in its own scan only while it is signalled; else only SetEvent grants it. */
  lemma GrantNeeds(s0: State, run: seq<Action>, a: Action, r: nat, i: nat)
    requires Init(s0) && Runs(s0, run) && Enabled(Exec(s0, run), a) && Grants(Exec(s0, run), a, r, i)
    ensures var s := Exec(s0, run);
            && i < |s.recs[r].events| && s.recs[r].events[i] < |s.events|
            && var e := s.recs[r].events[i];
               if a.SetEnter? then BeingSet(s, e) && s.pcs[a.t] == Setting(e)
               else s.events[e].signaled && (a.ScanSkip? || a.PurgeEnd?) && s.recs[r].caller == a.t
  {
    var s := Exec(s0, run);
    EventLaws.RunKeepsInv(s0, run);
    SeenGrows(s, a, r, i);
    match a
    case ScanSkip(t) => assert PcOk(s, t) && RecOk(s, r);
    case PurgeEnd(t) => assert PcOk(s, t) && RecOk(s, r);
    case SetEnter(t) => assert PcOk(s, t) && EventOk(s, s.pcs[t].event) && EntryOk(s, s.pcs[t].event, s.events[s.pcs[t].event].regs[0]);
    case _ =>
  }

  /** The steps that grant, and what they grant. */
  lemma SeenGrows(s: State, a: Action, r: nat, i: nat)
    requires Enabled(s, a) && Grants(s, a, r, i)
    ensures a.ScanSkip? || a.PurgeEnd? || a.SetEnter?
    ensures !a.SetEnter? ==> s.pcs[a.t].rec == r && s.pcs[a.t].i == i && s.events[s.recs[r].events[i]].signaled
    ensures a.SetEnter? ==> Front(s, a.t) == r && s.events[s.pcs[a.t].event].regs[0].idx == i
  {
    assert (s.recs[r].seen + [i])[|s.recs[r].seen|] == i;
  }

  /**
   * A scan decides once it has been past every entry of the list: it takes a signalled event there
   * and then, and registers at any other.
   */
  lemma LookDecides(s: State, t: nat, e: nat)
    requires Enabled(s, PurgeEnd(t)) && Looks(s, t, e)
    ensures s.pcs[t].k == |s.events[e].regs|
    ensures var r, i := s.pcs[t].rec, s.pcs[t].i; var u := Apply(s, PurgeEnd(t));
            if s.events[e].signaled then Grants(s, PurgeEnd(t), r, i) && u.events[e].regs == s.events[e].regs
            else u.recs == s.recs && u.events[e].regs == s.events[e].regs + [Info(r, i)]
  {
  }

  // ---------------------------------------------------------------- after a reset

  /** No step of the run raises the event. */
  predicate Unraised(s: State, run: seq<Action>, e: nat)
    requires Runs(s, run) && e < |s.events|
    decreases |run|
  {
    run == []
    || (var front := run[..|run| - 1];
        && Unraised(s, front, e)
        && e < |Exec(s, front).events| && !Raises(Exec(s, front), run[|run| - 1], e))
  }

  lemma {:induction false} StaysDown(s: State, run: seq<Action>, e: nat)
    requires Runs(s, run) && e < |s.events| && !s.events[e].signaled && Unraised(s, run, e)
    ensures e < |Exec(s, run).events| && !Exec(s, run).events[e].signaled
    decreases |run|
  {
    if run != [] {
      StaysDown(s, run[..|run| - 1], e);
      FlagIff(Exec(s, run[..|run| - 1]), run[|run| - 1], e);
    }
  }

  lemma RunsMore(s: State, run: seq<Action>, a: Action)
    requires Runs(s, run) && Enabled(Exec(s, run), a)
    ensures Runs(s, run + [a]) && Exec(s, run + [a]) == Apply(Exec(s, run), a)
  {
    var more := run + [a];
    assert more[..|more| - 1] == run && more[|more| - 1] == a;
  }

  lemma ExecLast(s: State, run: seq<Action>, front: seq<Action>, last: Action)
    requires Runs(s, run) && run == front + [last]
    ensures Runs(s, front) && Enabled(Exec(s, front), last) && Exec(s, run) == Apply(Exec(s, front), last)
  {
    assert run[..|run| - 1] == front && run[|run| - 1] == last;
  }

  lemma {:induction false} RunsConcat(s: State, a: seq<Action>, b: seq<Action>)
    requires Runs(s, a) && Runs(Exec(s, a), b)
    ensures Runs(s, a + b) && Exec(s, a + b) == Exec(Exec(s, a), b)
    decreases |b|, 1
  {
    if b == [] {
      assert a + b == a;
    } else {
      ConcatMore(s, a, b, b[..|b| - 1], b[|b| - 1]);
    }
  }

  lemma {:induction false} ConcatMore(s: State, a: seq<Action>, b: seq<Action>, front: seq<Action>, last: Action)
    requires Runs(s, a) && Runs(Exec(s, a), b) && b == front + [last]
    ensures Runs(s, a + b) && Exec(s, a + b) == Exec(Exec(s, a), b)
    decreases |b|, 0
  {
    var m := Exec(s, a);
    ExecLast(m, b, front, last);
    RunsConcat(s, a, front);
    RunsMore(s, a + front, last);
    assert a + b == (a + front) + [last];
  }

  /**
   After ResetEvent the event stays down, whatever waits and sets of other events do, and no scan
   and no single wait takes it, until a SetEvent on it raises it.
   */
  lemma ResetHolds(s0: State, past: seq<Action>, e: nat, future: seq<Action>, a: Action)
    requires Init(s0) && Runs(s0, past) && e < |Exec(s0, past).events|
    requires Runs(s0, past + [Reset(e)]) && Runs(Exec(s0, past + [Reset(e)]), future)
    requires e < |Exec(s0, past + [Reset(e)]).events| && Unraised(Exec(s0, past + [Reset(e)]), future, e)
    requires Enabled(Exec(Exec(s0, past + [Reset(e)]), future), a)
    ensures var s := Exec(Exec(s0, past + [Reset(e)]), future);
            && e < |s.events| && !s.events[e].signaled
            && !(a.TakeOne? && a.event == e)
            && (forall r, i :: 0 <= r < |s.recs| && 0 <= i < |s.recs[r].events| && Grants(s, a, r, i) && s.recs[r].events[i] == e ==>
                  a.SetEnter? && s.pcs[a.t] == Setting(e))
  {
    ResetClears(s0, past, e);
    var after := past + [Reset(e)];
    var s := Exec(Exec(s0, after), future);
    StaysDown(Exec(s0, after), future, e);
    RunsConcat(s0, after, future);
    forall r, i | 0 <= r < |s.recs| && 0 <= i < |s.recs[r].events| && Grants(s, a, r, i) && s.recs[r].events[i] == e
      ensures a.SetEnter? && s.pcs[a.t] == Setting(e)
    {
      GrantNeeds(s0, after + future, a, r, i);
    }
  }

  // ---------------------------------------------------------------- cleaning up, and the end of SetEvent

  /** A scan removes the entry it looks at, with its reference, exactly if the wait of that entry is over. */
  lemma PurgeIff(s: State, t: nat, e: nat)
    requires Enabled(s, PurgeStep(t)) && Looks(s, t, e)
    ensures var u := Apply(s, PurgeStep(t));
            var x := s.events[e].regs[s.pcs[t].k];
            && (s.recs[x.rec].still ==> u.events == s.events && u.recs == s.recs && u.pcs[t] == s.pcs[t].(k := s.pcs[t].k + 1))
            && (!s.recs[x.rec].still ==>
                  && u.events[e].regs == s.events[e].regs[..s.pcs[t].k] + s.events[e].regs[s.pcs[t].k + 1..]
                  && u.recs[x.rec].refCount == s.recs[x.rec].refCount - 1 && u.pcs[t] == s.pcs[t])
  {
  }

  predicate OfSetter(a: Action) {
    a.SetSkip? || a.SetWant? || a.SetEnter? || a.SetRelease? || a.SetDone?
  }

  /** Steps left to a SetEvent that holds event `e`: a few for every entry, fewer once its wait is over. */
  function Left(s: State, e: nat): nat
    requires e < |s.events|
  {
    var ev := s.events[e];
    5 * |ev.regs| +
    if ev.regs == [] || ev.regs[0].rec >= |s.recs| then 1
    else if ev.phase.Credited? then 1
    else if ev.phase.Look? then (if s.recs[ev.regs[0].rec].still then 4 else 1)
    else if s.recs[ev.regs[0].rec].still then 3 else 2
  }

  lemma LeftDrops(s: State, a: Action, t: nat, e: nat)
    requires Shape(s) && Enabled(s, a) && t < |s.pcs| && s.pcs[t] == Setting(e) && OfSetter(a) && a.t == t
    ensures e < |s.events|
    ensures Apply(s, a).pcs[t] == Rest || (e < |Apply(s, a).events| && Left(Apply(s, a), e) < Left(s, e))
  {
    assert PcOk(s, t) && EventOk(s, e);
    var regs := s.events[e].regs;
    forall k | 0 <= k < |regs| ensures regs[k].rec < |s.recs| { assert EntryOk(s, e, regs[k]); }
  }

  lemma LeftLe(s: State, u: State, e: nat)
    requires e < |s.events| == |u.events| && |s.recs| <= |u.recs|
    requires u.events[e].regs == s.events[e].regs && u.events[e].phase == s.events[e].phase
    requires forall r :: 0 <= r < |s.recs| && u.recs[r].still ==> s.recs[r].still
    requires s.events[e].regs != [] ==> s.events[e].regs[0].rec < |s.recs|
    ensures Left(u, e) <= Left(s, e)
  {
  }

  lemma LeftKeeps(s: State, a: Action, t: nat, e: nat)
    requires Shape(s) && Enabled(s, a) && t < |s.pcs| && s.pcs[t] == Setting(e) && !(OfSetter(a) && a.t == t)
    ensures e < |s.events| && e < |Apply(s, a).events| && Left(Apply(s, a), e) <= Left(s, e)
  {
    HeldKeeps(s, a, t, e);
    assert EventOk(s, e);
    if s.events[e].regs != [] { assert EntryOk(s, e, s.events[e].regs[0]); }
    LeftLe(s, Apply(s, a), e);
  }

  /** While a SetEvent holds an event no other step touches its entries, and no wait starts again. */
  lemma HeldKeeps(s: State, a: Action, t: nat, e: nat)
    requires Shape(s) && Enabled(s, a) && t < |s.pcs| && s.pcs[t] == Setting(e) && !(OfSetter(a) && a.t == t)
    ensures e < |s.events| == |Apply(s, a).events| && |s.recs| <= |Apply(s, a).recs|
    ensures Apply(s, a).events[e].regs == s.events[e].regs && Apply(s, a).events[e].phase == s.events[e].phase
    ensures forall r :: 0 <= r < |s.recs| && Apply(s, a).recs[r].still ==> s.recs[r].still
  {
    assert PcOk(s, t);
    if !a.Reset? { assert a.t < |s.pcs| && PcOk(s, a.t); }
  }

  /** Thread `t` is setting event `e` in every state of the run. */
  predicate SettingAlong(s: State, run: seq<Action>, t: nat, e: nat)
    requires Runs(s, run)
    decreases |run|
  {
    && t < |Exec(s, run).pcs| && Exec(s, run).pcs[t] == Setting(e)
    && (run == [] || SettingAlong(s, run[..|run| - 1], t, e))
  }

  function OwnSteps(run: seq<Action>, t: nat): nat {
    if run == [] then 0
    else OwnSteps(run[..|run| - 1], t) + if OfSetter(run[|run| - 1]) && run[|run| - 1].t == t then 1 else 0
  }

  /**
   A SetEvent returns: whatever the other threads do meanwhile, it takes no more of its own steps
   than its event's entries allow when it starts.
   */
  lemma {:induction false} SetEventEnds(s0: State, past: seq<Action>, run: seq<Action>, t: nat, e: nat)
    requires Init(s0) && Runs(s0, past) && e < |Exec(s0, past).events|
    requires Runs(Exec(s0, past), run) && SettingAlong(Exec(s0, past), run, t, e)
    ensures var s := Exec(s0, past);
            e < |Exec(s, run).events| && OwnSteps(run, t) + Left(Exec(s, run), e) <= Left(s, e)
    decreases |run|
  {
    if run != [] {
      var s, front, a := Exec(s0, past), run[..|run| - 1], run[|run| - 1];
      SetEventEnds(s0, past, front, t, e);
      RunsConcat(s0, past, front);
      EventLaws.RunKeepsInv(s0, past + front);
      var m := Exec(s, front);
      StillSetting(s, front, t, e);
      if OfSetter(a) && a.t == t { LeftDrops(m, a, t, e); } else { LeftKeeps(m, a, t, e); }
    }
  }

  lemma StillSetting(s: State, run: seq<Action>, t: nat, e: nat)
    requires Runs(s, run) && SettingAlong(s, run, t, e)
    ensures t < |Exec(s, run).pcs| && Exec(s, run).pcs[t] == Setting(e)
  {
  }
}
