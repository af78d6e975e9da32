/**
 What a wait has been granted, and what its status says about it.

 The history `seen` lists the indices at which a wait found an event signalled, in the order it
 was credited with them.  Two laws tie it to the status word:

   - wait-all: the indices seen, those registered and not credited yet (`Due`), and those the scan
     has not reached are together each index of the list exactly once, and EventsLeft is what is
     missing from `seen`;
   - wait-any: FiredEvent is the last index seen, or -1, and when every event of the list is
     auto-reset and the wait has no time-out, there is never a second one.

 The lemmas follow the steps: most leave a record's account alone (`SeenFrame`), and the few that
 credit one (`SeenTake`, `SeenSetCredit`) or register it (`SeenRegister`) are treated one by one.
 */
module EventSeen {
  import opened Wrappers
  import opened EventModel
  import opened EventShape
  import opened EventTally

  /** Indices of record `r` that are registered and not credited yet. */
  function Due(s: State, r: nat): multiset<nat> {
    Tally(Pending(s.events), r)
  }

  /** Wait-all: seen, due and not yet scanned split the list while the wait lasts. */
  predicate AllOk(w: Wfmo, due: multiset<nat>, cursor: nat) {
    var n := |w.events|;
    w.waitAll ==>
      && cursor <= n
      && w.status == n - |w.seen|
      && multiset(w.seen) + due + Range(cursor, n) <= Range(0, n)
      && (w.outcome.Unfinished? ==> multiset(w.seen) + due + Range(cursor, n) == Range(0, n))
      && (w.outcome.Satisfied? ==> w.outcome.status == 0 && multiset(w.seen) == Range(0, n))
  }

  predicate AutoOnly(s: State, w: Wfmo) {
    forall i :: 0 <= i < |w.events| ==> w.events[i] < |s.events| && s.events[w.events[i]].auto
  }

  /** The caller is between its scan or sleep and the loop test. */
  predicate Checking(s: State, r: nat)
    requires r < |s.recs|
  {
    Active(s, r) && s.pcs[s.recs[r].caller].Check?
  }

  /** Wait-any: the status is the last index seen, -1 before the first. */
  predicate AnyOk(w: Wfmo, checking: bool, autoOnly: bool) {
    !w.waitAll ==>
      && w.status == (if w.seen == [] then -1 else w.seen[|w.seen|-1])
      && (w.still && w.seen != [] ==> checking)
      && (w.outcome.Satisfied? ==> w.seen != [] && w.outcome.status in w.seen)
      && (autoOnly ==> |w.seen| <= 1)
  }

  predicate SeenOk(s: State, r: nat)
    requires r < |s.recs|
  {
    && AllOk(s.recs[r], Due(s, r), Cursor(s, r))
    && AnyOk(s.recs[r], Checking(s, r), AutoOnly(s, s.recs[r]))
    && (forall j :: 0 <= j < |s.recs[r].seen| ==> s.recs[r].seen[j] < |s.recs[r].events|)
    && (s.recs[r].outcome.TimedOut? ==> !s.recs[r].mode.Infinite?)
  }

  ghost predicate Seen(s: State) {
    forall r :: 0 <= r < |s.recs| ==> SeenOk(s, r)
  }

  lemma SeenInit(s: State)
    requires Init(s)
    ensures Seen(s)
  {
  }

  predicate SameKinds(s: State, s': State) {
    |s'.events| == |s.events| && forall e :: 0 <= e < |s.events| ==> s'.events[e].auto == s.events[e].auto
  }

  predicate SameHistory(w: Wfmo, w': Wfmo) {
    && w'.events == w.events && w'.waitAll == w.waitAll && w'.status == w.status && w'.seen == w.seen
    && w'.outcome == w.outcome && w'.mode == w.mode && w'.still == w.still && w'.caller == w.caller
  }

  predicate SamePlace(s: State, s': State, r: nat) {
    r < |s.recs| && r < |s'.recs| && Cursor(s', r) == Cursor(s, r)
    && (Checking(s, r) && s.recs[r].seen != [] && !s.recs[r].waitAll ==> Checking(s', r))
  }

  lemma AutoOnlySame(s: State, s': State, w: Wfmo, w': Wfmo)
    requires SameKinds(s, s') && w'.events == w.events
    ensures AutoOnly(s', w') == AutoOnly(s, w)
  {
    if AutoOnly(s, w) {
      forall i | 0 <= i < |w'.events| ensures w'.events[i] < |s'.events| && s'.events[w'.events[i]].auto {
        assert s.events[w.events[i]].auto;
      }
    }
    if AutoOnly(s', w') {
      forall i | 0 <= i < |w.events| ensures w.events[i] < |s.events| && s.events[w.events[i]].auto {
        assert s'.events[w'.events[i]].auto;
      }
    }
  }

  lemma AllOkSame(w: Wfmo, w': Wfmo, due: multiset<nat>, cursor: nat)
    requires AllOk(w, due, cursor) && SameHistory(w, w')
    ensures AllOk(w', due, cursor)
  {
  }

  /** A step after which the same is due and nothing else SeenOk looks at has changed. */
  lemma SeenFrame(s: State, s': State, r: nat)
    requires SamePlace(s, s', r) && SeenOk(s, r)
    requires Due(s', r) == Due(s, r)
    requires SameKinds(s, s') && SameHistory(s.recs[r], s'.recs[r])
    ensures SeenOk(s', r)
  {
    AutoOnlySame(s, s', s.recs[r], s'.recs[r]);
    AllOkSame(s.recs[r], s'.recs[r], Due(s, r), Cursor(s, r));
  }

  /** Steps for which nothing SeenOk looks at changes, for any record. */
  lemma SeenAll(s: State, s': State)
    requires Seen(s) && |s'.recs| == |s.recs|
    requires Pending(s'.events) == Pending(s.events) && SameKinds(s, s')
    requires forall r :: 0 <= r < |s.recs| ==> SameHistory(s.recs[r], s'.recs[r])
    requires forall r :: 0 <= r < |s.recs| ==> SamePlace(s, s', r)
    ensures Seen(s')
  {
    forall r | 0 <= r < |s'.recs| ensures SeenOk(s', r) {
      assert SeenOk(s, r) && SameHistory(s.recs[r], s'.recs[r]) && SamePlace(s, s', r);
      SeenFrame(s, s', r);
    }
  }

  /** A step that changes what is due to record `q`, its history or its caller's place, and no other's. */
  lemma SeenOthers(s: State, s': State, q: nat)
    requires Seen(s) && q < |s.recs| == |s'.recs| && SameKinds(s, s')
    requires forall r :: 0 <= r < |s.recs| && r != q ==> Due(s', r) == Due(s, r)
    requires forall r :: 0 <= r < |s.recs| && r != q ==> SameHistory(s.recs[r], s'.recs[r])
    requires forall r :: 0 <= r < |s.recs| && r != q ==> SamePlace(s, s', r)
    requires SeenOk(s', q)
    ensures Seen(s')
  {
    forall r | 0 <= r < |s'.recs| ensures SeenOk(s', r) {
      if r != q {
        assert SeenOk(s, r) && SameHistory(s.recs[r], s'.recs[r]) && SamePlace(s, s', r) && Due(s', r) == Due(s, r);
        SeenFrame(s, s', r);
      }
    }
  }

  /** SeenOthers for a step that rewrites record `q` alone and moves only threads inside its call. */
  lemma SeenOneRec(s: State, s': State, q: nat)
    requires Seen(s) && q < |s.recs| == |s'.recs| && SameKinds(s, s')
    requires forall r :: 0 <= r < |s.recs| && r != q ==> Due(s', r) == Due(s, r)
    requires forall r :: 0 <= r < |s.recs| && r != q ==> s'.recs[r] == s.recs[r]
    requires |s'.pcs| == |s.pcs|
    requires forall u :: 0 <= u < |s.pcs| ==> s'.pcs[u] == s.pcs[u] || (InCall(s.pcs[u], q) && InCall(s'.pcs[u], q))
    requires SeenOk(s', q)
    ensures Seen(s')
  {
    forall r | 0 <= r < |s.recs| && r != q ensures SamePlace(s, s', r) {
      var u := s.recs[r].caller;
      assert u < |s.pcs| ==> s'.pcs[u] == s.pcs[u] || (InCall(s.pcs[u], q) && InCall(s'.pcs[u], q));
    }
    SeenOthers(s, s', q);
  }

  lemma SeenBeginWait(s: State, t: nat, es: seq<nat>, waitAll: bool, mode: Mode)
    requires Shape(s) && Seen(s) && CanBeginWait(s, t, es)
    ensures Seen(DoBeginWait(s, t, es, waitAll, mode))
  {
    var s' := DoBeginWait(s, t, es, waitAll, mode);
    forall r | 0 <= r < |s'.recs| ensures SeenOk(s', r) {
      if r < |s.recs| {
        assert SeenOk(s, r) && RecOk(s, r);
        SeenFrame(s, s', r);
      } else {
        var lists: seq<seq<Info>> := Pending(s.events);
        forall e: nat, j: nat | e < |lists| && j < |lists[e]| ensures lists[e][j].rec != r {
          assert EventOk(s, e);
          var ev := s.events[e];
          assert lists[e] == Uncredited(ev);
          assert EntryOk(s, e, ev.regs[if ev.phase.Credited? then j + 1 else j]);
        }
        TallyAbsent(lists, r);
      }
    }
  }

  // ---------------------------------------------------------------- credits by the scan

  /** Wait-all accounting when index `i`, the next to be scanned, is seen at once. */
  lemma SeenNow(seen: seq<nat>, due: multiset<nat>, i: nat, n: nat)
    requires i < n
    ensures multiset(seen + [i]) + due + Range(i + 1, n) == multiset(seen) + due + Range(i, n)
  {
    assert Range(i, n) == multiset{i} + Range(i + 1, n);
    assert multiset(seen + [i]) == multiset(seen) + multiset{i};
  }

  lemma SeenCreditOwnAll(s: State, s': State, t: nat, r: nat, i: nat)
    requires t < |s.pcs| && r < |s.recs| == |s'.recs| && SeenOk(s, r)
    requires (s.pcs[t].Scan? || s.pcs[t].Purge?) && s.pcs[t].rec == r && s.pcs[t].i == i && s.recs[r].caller == t
    requires i < |s.recs[r].events| && s.recs[r].still && s.recs[r].outcome.Unfinished?
    requires Due(s', r) == Due(s, r) && SameKinds(s, s')
    requires s'.recs[r] == Credit(s.recs[r], i)
    requires s.recs[r].waitAll && |s'.pcs| == |s.pcs| && s'.pcs[t].Scan? && s'.pcs[t].rec == r && s'.pcs[t].i == i + 1
    ensures SeenOk(s', r)
  {
    var w := s.recs[r];
    assert Cursor(s, r) == i && Cursor(s', r) == i + 1;
    AllOkSeen(w, Due(s, r), i);
    assert AnyOk(s'.recs[r], Checking(s', r), AutoOnly(s', s'.recs[r]));
  }

  lemma SeenCreditOwnAny(s: State, s': State, t: nat, r: nat, i: nat)
    requires t < |s.pcs| && r < |s.recs| == |s'.recs| && SeenOk(s, r)
    requires (s.pcs[t].Scan? || s.pcs[t].Purge?) && s.pcs[t].rec == r && s.pcs[t].i == i && s.recs[r].caller == t
    requires i < |s.recs[r].events| && s.recs[r].still && s.recs[r].outcome.Unfinished?
    requires Due(s', r) == Due(s, r) && SameKinds(s, s')
    requires s'.recs[r] == Credit(s.recs[r], i)
    requires !s.recs[r].waitAll && |s'.pcs| == |s.pcs| && s'.pcs[t].Check? && s'.pcs[t].rec == r
    ensures SeenOk(s', r)
  {
    assert s.recs[r].seen == [];
    assert Checking(s', r);
  }

  lemma SeenCreditOwn(s: State, s': State, t: nat, r: nat, i: nat, skipped: nat)
    requires t < |s.pcs| && r < |s.recs| == |s'.recs| && SeenOk(s, r)
    requires (s.pcs[t].Scan? || s.pcs[t].Purge?) && s.pcs[t].rec == r && s.pcs[t].i == i && s.recs[r].caller == t
    requires i < |s.recs[r].events| && s.recs[r].still && s.recs[r].outcome.Unfinished?
    requires Pending(s'.events) == Pending(s.events) && SameKinds(s, s')
    requires s'.recs[r] == Credit(s.recs[r], i) && s'.pcs == s.pcs[t := AfterSeen(s.recs[r], r, i, skipped)]
    ensures SeenOk(s', r)
  {
    if s.recs[r].waitAll { SeenCreditOwnAll(s, s', t, r, i); } else { SeenCreditOwnAny(s, s', t, r, i); }
  }

  lemma AllOkSeen(w: Wfmo, due: multiset<nat>, i: nat)
    requires AllOk(w, due, i) && w.waitAll && w.outcome.Unfinished? && i < |w.events|
    ensures AllOk(Credit(w, i), due, i + 1)
  {
    SeenNow(w.seen, due, i, |w.events|);
  }

  lemma SeenScanSkip(s: State, t: nat)
    requires Shape(s) && Seen(s) && CanScanSkip(s, t)
    ensures Seen(DoScanSkip(s, t))
  {
    var s' := DoScanSkip(s, t);
    var r := s.pcs[t].rec;
    assert PcOk(s, t) && RecOk(s, r) && SeenOk(s, r);
    SeenCreditOwn(s, s', t, r, s.pcs[t].i, s.pcs[t].skipped);
    SeenOneRec(s, s', r);
  }

  lemma SeenTake(s: State, t: nat)
    requires Shape(s) && Seen(s) && CanPurgeEnd(s, t)
    ensures Seen(DoTake(s, t))
  {
    var s' := DoTake(s, t);
    var r := s.pcs[t].rec;
    assert PcOk(s, t) && RecOk(s, r) && SeenOk(s, r) && EventOk(s, PurgeEvent(s, t));
    assert Pending(s'.events) == Pending(s.events);
    SeenCreditOwn(s, s', t, r, s.pcs[t].i, s.pcs[t].skipped);
    SeenOneRec(s, s', r);
  }

  // ---------------------------------------------------------------- lists that change

  lemma DueMore(s: State, s': State, e: nat, x: Info, r: nat)
    requires e < |s.events| == |s'.events| && s'.events == s.events[e := s'.events[e]]
    requires Uncredited(s'.events[e]) == Uncredited(s.events[e]) + [x]
    ensures Due(s', r) == Due(s, r) + if x.rec == r then multiset{x.idx} else multiset{}
  {
    var l := Uncredited(s.events[e]);
    PendingUpdate(s.events, e, s'.events[e], r);
    IdxAppend(l, x, r);
    var more := if x.rec == r then multiset{x.idx} else multiset{};
    assert Due(s, r) + (Idx(l, r) + more) == Due(s, r) + more + Idx(l, r);
    Cancel(Due(s', r), Due(s, r) + more, Idx(l, r));
  }

  lemma DueLess(s: State, s': State, e: nat, k: nat, r: nat)
    requires e < |s.events| == |s'.events| && s'.events == s.events[e := s'.events[e]]
    requires k < |Uncredited(s.events[e])|
    requires Uncredited(s'.events[e]) == RemoveAt(Uncredited(s.events[e]), k)
    ensures Due(s, r) == Due(s', r) + var x := Uncredited(s.events[e])[k]; if x.rec == r then multiset{x.idx} else multiset{}
  {
    var l := Uncredited(s.events[e]);
    var l' := Uncredited(s'.events[e]);
    PendingUpdate(s.events, e, s'.events[e], r);
    IdxRemove(l, k, r);
    var gone := if l[k].rec == r then multiset{l[k].idx} else multiset{};
    assert Due(s', r) + (Idx(l', r) + gone) == Due(s', r) + gone + Idx(l', r);
    Cancel(Due(s', r) + gone, Due(s, r), Idx(l', r));
  }

  lemma DueRegister(s: State, t: nat, s': State)
    requires Shape(s) && CanPurgeEnd(s, t) && s' == DoRegister(s, t)
    ensures forall r :: 0 <= r < |s.recs| ==>
              Due(s', r) == Due(s, r) + if r == s.pcs[t].rec then multiset{s.pcs[t].i} else multiset{}
  {
    var e := PurgeEvent(s, t);
    var x := Info(s.pcs[t].rec, s.pcs[t].i);
    assert PcOk(s, t) && EventOk(s, e);
    assert Uncredited(s'.events[e]) == Uncredited(s.events[e]) + [x];
    forall r | 0 <= r < |s.recs| ensures Due(s', r) == Due(s, r) + if r == x.rec then multiset{x.idx} else multiset{} {
      DueMore(s, s', e, x, r);
    }
  }

  lemma SeenRegister(s: State, t: nat)
    requires Shape(s) && Seen(s) && CanPurgeEnd(s, t)
    ensures Seen(DoRegister(s, t))
  {
    var s' := DoRegister(s, t);
    assert PcOk(s, t);
    DueRegister(s, t, s');
    SeenRegisterOwn(s, s', t);
    SeenOneRec(s, s', s.pcs[t].rec);
  }

  lemma SeenRegisterOwn(s: State, s': State, t: nat)
    requires Shape(s) && Seen(s) && CanPurgeEnd(s, t) && s' == DoRegister(s, t)
    requires Due(s', s.pcs[t].rec) == Due(s, s.pcs[t].rec) + multiset{s.pcs[t].i}
    ensures SeenOk(s', s.pcs[t].rec)
  {
    var q := s.pcs[t].rec;
    var w := s.recs[q];
    assert PcOk(s, t) && SeenOk(s, q);
    assert Cursor(s, q) == s.pcs[t].i && Cursor(s', q) == s.pcs[t].i + 1;
    AllOkRegister(w, Due(s, q), s.pcs[t].i);
    AutoOnlySame(s, s', w, w);
    assert !Checking(s, q);
  }

  lemma AllOkRegister(w: Wfmo, due: multiset<nat>, i: nat)
    requires AllOk(w, due, i) && i < |w.events|
    ensures AllOk(w, due + multiset{i}, i + 1)
  {
    var n := |w.events|;
    assert Range(i, n) == multiset{i} + Range(i + 1, n);
    assert multiset(w.seen) + (due + multiset{i}) + Range(i + 1, n)
        == multiset(w.seen) + due + (multiset{i} + Range(i + 1, n));
  }

  lemma AllOkLess(w: Wfmo, w': Wfmo, due: multiset<nat>, gone: multiset<nat>, cursor: nat)
    requires AllOk(w, due + gone, cursor) && (w.waitAll ==> !w.outcome.Unfinished?) && SameHistory(w, w')
    ensures AllOk(w', due, cursor)
  {
    var n := |w.events|;
    assert multiset(w.seen) + due + Range(cursor, n) <= multiset(w.seen) + (due + gone) + Range(cursor, n);
  }

  /** Dropping an uncredited entry of a wait that has ended. */
  lemma SeenLose(s: State, s': State, e: nat, k: nat)
    requires Shape(s) && Seen(s) && |s'.recs| == |s.recs|
    requires e < |s.events| == |s'.events| && s'.events == s.events[e := s'.events[e]]
    requires k < |Uncredited(s.events[e])|
    requires Uncredited(s'.events[e]) == RemoveAt(Uncredited(s.events[e]), k)
    requires var q := Uncredited(s.events[e])[k].rec; q < |s.recs| && !s.recs[q].still
    requires SameKinds(s, s')
    requires forall r :: 0 <= r < |s.recs| ==> SameHistory(s.recs[r], s'.recs[r])
    requires forall r :: 0 <= r < |s.recs| ==> SamePlace(s, s', r)
    ensures Seen(s')
  {
    forall r | 0 <= r < |s'.recs| ensures SeenOk(s', r) {
      assert SeenOk(s, r) && RecOk(s, r) && SameHistory(s.recs[r], s'.recs[r]) && SamePlace(s, s', r);
      DueLess(s, s', e, k, r);
      if r != Uncredited(s.events[e])[k].rec {
        SeenFrame(s, s', r);
      } else {
        AllOkLess(s.recs[r], s'.recs[r], Due(s', r), multiset{Uncredited(s.events[e])[k].idx}, Cursor(s, r));
        AutoOnlySame(s, s', s.recs[r], s'.recs[r]);
      }
    }
  }

  lemma SeenPurgeStep(s: State, t: nat)
    requires Shape(s) && Seen(s) && CanPurgeStep(s, t)
    ensures Seen(DoPurgeStep(s, t))
  {
    var s' := DoPurgeStep(s, t);
    var e := PurgeEvent(s, t);
    assert PcOk(s, t) && EventOk(s, e);
    if s.recs[s.events[e].regs[s.pcs[t].k].rec].still {
      SeenAll(s, s');
    } else {
      SeenLose(s, s', e, s.pcs[t].k);
    }
  }

  lemma SeenSetSkip(s: State, t: nat)
    requires Shape(s) && Seen(s) && CanSetSkip(s, t)
    ensures Seen(DoSetSkip(s, t))
  {
    var s' := DoSetSkip(s, t);
    var e := s.pcs[t].event;
    assert Uncredited(s'.events[e]) == RemoveAt(s.events[e].regs, 0);
    SeenLose(s, s', e, 0);
  }

  // ---------------------------------------------------------------- credits by SetEvent

  /** A wait-all that has succeeded has nothing due. */
  lemma NothingDue(seen: multiset<nat>, due: multiset<nat>, all: multiset<nat>)
    requires seen == all && seen + due <= all
    ensures due == multiset{}
  {
    forall x: nat ensures due[x] == 0 {
      assert (seen + due)[x] <= all[x];
    }
  }

  lemma AllOkCredit(w: Wfmo, due: multiset<nat>, i: nat, cursor: nat)
    requires AllOk(w, due + multiset{i}, cursor) && w.waitAll
    ensures AllOk(CreditBySet(w, i), due, cursor)
  {
    var n := |w.events|;
    assert multiset(w.seen + [i]) + due + Range(cursor, n) == multiset(w.seen) + (due + multiset{i}) + Range(cursor, n) by {
      assert multiset(w.seen + [i]) == multiset(w.seen) + multiset{i};
    }
    if w.outcome.Satisfied? {
      assert multiset(w.seen) + (due + multiset{i}) <= multiset(w.seen) + (due + multiset{i}) + Range(cursor, n);
      NothingDue(multiset(w.seen), due + multiset{i}, Range(0, n));
      assert false;
    }
  }

  lemma SeenCreditAny(s: State, s': State, q: nat, e: nat, i: nat)
    requires q < |s.recs| == |s'.recs| && SeenOk(s, q) && !s.recs[q].waitAll
    requires i < |s.recs[q].events| && s.recs[q].events[i] == e < |s.events|
    requires !Checking(s, q) && (s.events[e].auto ==> s.recs[q].still)
    requires SameKinds(s, s') && s'.recs[q] == CreditBySet(s.recs[q], i) && s'.pcs == s.pcs
    ensures SeenOk(s', q)
  {
    var w := s.recs[q];
    AutoOnlySame(s, s', w, s'.recs[q]);
    if AutoOnly(s, w) {
      assert s.events[w.events[i]].auto;
      assert w.seen == [];
    }
  }

  lemma DueSetCredit(s: State, t: nat, s': State, x: Info)
    requires CanSetEnter(s, t) && s' == DoSetCredit(s, t) && x == s.events[s.pcs[t].event].regs[0]
    ensures forall r :: 0 <= r < |s.recs| ==>
              Due(s, r) == Due(s', r) + if r == x.rec then multiset{x.idx} else multiset{}
  {
    var e := s.pcs[t].event;
    assert Uncredited(s'.events[e]) == RemoveAt(s.events[e].regs, 0);
    forall r | 0 <= r < |s.recs| ensures Due(s, r) == Due(s', r) + if r == x.rec then multiset{x.idx} else multiset{} {
      DueLess(s, s', e, 0, r);
    }
  }

  lemma SeenSetCredit(s: State, t: nat)
    requires Shape(s) && Seen(s) && CanSetEnter(s, t)
    requires s.events[s.pcs[t].event].auto ==> s.recs[Front(s, t)].still
    ensures Seen(DoSetCredit(s, t))
  {
    var s' := DoSetCredit(s, t);
    var x := s.events[s.pcs[t].event].regs[0];
    assert EventOk(s, s.pcs[t].event) && EntryOk(s, s.pcs[t].event, x);
    DueSetCredit(s, t, s', x);
    if s.recs[x.rec].waitAll { SeenSetCreditAll(s, t, s', x); } else { SeenSetCreditAny(s, t, s', x); }
    SeenOneRec(s, s', x.rec);
  }

  lemma SeenSetCreditAll(s: State, t: nat, s': State, x: Info)
    requires Shape(s) && Seen(s) && CanSetEnter(s, t) && s' == DoSetCredit(s, t)
    requires x == s.events[s.pcs[t].event].regs[0] && EntryOk(s, s.pcs[t].event, x)
    requires s.events[s.pcs[t].event].auto ==> s.recs[x.rec].still
    requires Due(s, x.rec) == Due(s', x.rec) + multiset{x.idx}
    requires s.recs[x.rec].waitAll
    ensures SeenOk(s', x.rec)
  {
    assert SeenOk(s, x.rec);
    assert Cursor(s', x.rec) == Cursor(s, x.rec);
    AllOkCredit(s.recs[x.rec], Due(s', x.rec), x.idx, Cursor(s, x.rec));
  }

  lemma SeenSetCreditAny(s: State, t: nat, s': State, x: Info)
    requires Shape(s) && Seen(s) && CanSetEnter(s, t) && s' == DoSetCredit(s, t)
    requires x == s.events[s.pcs[t].event].regs[0] && EntryOk(s, s.pcs[t].event, x)
    requires s.events[s.pcs[t].event].auto ==> s.recs[x.rec].still
    requires Due(s, x.rec) == Due(s', x.rec) + multiset{x.idx}
    requires !s.recs[x.rec].waitAll
    ensures SeenOk(s', x.rec)
  {
    var q := x.rec;
    assert SeenOk(s, q) && RecOk(s, q);
    assert Active(s, q) ==> PcOk(s, s.recs[q].caller);
    SeenCreditAny(s, s', q, s.pcs[t].event, x.idx);
  }

  // ---------------------------------------------------------------- the end of a wait

  lemma AllOkDone(w: Wfmo, due: multiset<nat>)
    requires AllOk(w, due, |w.events|) && w.outcome.Unfinished? && IsDone(w)
    ensures AllOk(Finish(w, Satisfied(w.status)), due, |w.events|)
  {
    if w.waitAll {
      var n := |w.events|;
      RangeSize(0, n);
      assert |multiset(w.seen)| == n;
      assert |multiset(w.seen) + due + Range(n, n)| == n + |due|;
      assert due == multiset{};
    }
  }

  lemma SeenSettleOwn(s: State, s': State, t: nat, r: nat)
    requires r < |s.recs| == |s'.recs| && SeenOk(s, r) && t < |s.pcs| && s.pcs[t].Check? && s.pcs[t].rec == r
    requires s.recs[r].caller == t && s.recs[r].outcome.Unfinished? && IsDone(s.recs[r])
    requires s'.events == s.events
    requires s'.recs[r] == Finish(s.recs[r], Satisfied(s.recs[r].status)) && s'.pcs == s.pcs[t := Leave(r, s.pcs[t].skipped)]
    ensures SeenOk(s', r)
  {
    AllOkDone(s.recs[r], Due(s, r));
    AutoOnlySame(s, s', s.recs[r], s'.recs[r]);
  }

  lemma SeenSettle(s: State, t: nat)
    requires Shape(s) && Seen(s) && CanSettle(s, t)
    ensures Seen(DoSettle(s, t))
  {
    var s' := DoSettle(s, t);
    var r := s.pcs[t].rec;
    assert PcOk(s, t) && RecOk(s, r) && SeenOk(s, r);
    SeenSettleOwn(s, s', t, r);
    SeenOneRec(s, s', r);
  }

  lemma SeenGiveUpOwn(s: State, s': State, t: nat, r: nat)
    requires t < |s.pcs| && r < |s.recs| == |s'.recs| && SeenOk(s, r) && s.recs[r].caller == t
    requires (s.pcs[t].Check? || s.pcs[t].Asleep?) && s.pcs[t].rec == r && s.recs[r].outcome.Unfinished?
    requires !s.recs[r].mode.Infinite? && s'.events == s.events
    requires s'.recs[r] == Finish(s.recs[r], TimedOut) && s'.pcs == s.pcs[t := Leave(r, s.pcs[t].skipped)]
    ensures SeenOk(s', r)
  {
    AutoOnlySame(s, s', s.recs[r], s'.recs[r]);
    assert Cursor(s, r) == Cursor(s', r);
  }

  lemma SeenGiveUp(s: State, t: nat)
    requires Shape(s) && Seen(s) && CanGiveUp(s, t)
    ensures Seen(DoGiveUp(s, t))
  {
    var s' := DoGiveUp(s, t);
    var r := s.pcs[t].rec;
    assert PcOk(s, t) && RecOk(s, r) && SeenOk(s, r);
    SeenGiveUpOwn(s, s', t, r);
    SeenOneRec(s, s', r);
  }

  lemma SeenScanEnd(s: State, t: nat)
    requires Shape(s) && Seen(s) && CanScanEnd(s, t)
    ensures Seen(DoScanEnd(s, t))
  {
    var s' := DoScanEnd(s, t);
    assert PcOk(s, t) && RecOk(s, s.pcs[t].rec) && SeenOk(s, s.pcs[t].rec);
    forall r | 0 <= r < |s.recs| ensures SamePlace(s, s', r) {
      assert RecOk(s, r);
    }
    SeenAll(s, s');
  }

  lemma SeenSleep(s: State, t: nat)
    requires Shape(s) && Seen(s) && CanSleep(s, t)
    ensures Seen(DoSleep(s, t))
  {
    var s' := DoSleep(s, t);
    assert PcOk(s, t) && RecOk(s, s.pcs[t].rec) && SeenOk(s, s.pcs[t].rec);
    forall r | 0 <= r < |s.recs| ensures SamePlace(s, s', r) {
      assert RecOk(s, r);
    }
    SeenAll(s, s');
  }

  lemma SeenWake(s: State, t: nat)
    requires Shape(s) && Seen(s) && CanWake(s, t)
    ensures Seen(DoWake(s, t))
  {
    var s' := DoWake(s, t);
    assert PcOk(s, t) && RecOk(s, s.pcs[t].rec) && SeenOk(s, s.pcs[t].rec);
    forall r | 0 <= r < |s.recs| ensures SamePlace(s, s', r) {
      assert RecOk(s, r);
    }
    SeenAll(s, s');
  }

  lemma SeenDrop(s: State, t: nat)
    requires Shape(s) && Seen(s) && CanDrop(s, t)
    ensures Seen(DoDrop(s, t))
  {
    var s' := DoDrop(s, t);
    assert PcOk(s, t) && RecOk(s, s.pcs[t].rec) && SeenOk(s, s.pcs[t].rec);
    forall r | 0 <= r < |s.recs| ensures SamePlace(s, s', r) {
      assert RecOk(s, r);
    }
    SeenAll(s, s');
  }

  /** Steps on one event that leave its uncredited entries alone. */
  lemma SeenOneEvent(s: State, s': State, e: nat)
    requires Seen(s) && e < |s.events| == |s'.events| && s'.events == s.events[e := s'.events[e]]
    requires s'.events[e].auto == s.events[e].auto && Uncredited(s'.events[e]) == Uncredited(s.events[e])
    requires |s'.recs| == |s.recs|
    requires forall r :: 0 <= r < |s.recs| ==> SameHistory(s.recs[r], s'.recs[r])
    requires forall r :: 0 <= r < |s.recs| ==> SamePlace(s, s', r)
    ensures Seen(s')
  {
    assert Pending(s'.events) == Pending(s.events);
    SeenAll(s, s');
  }

  lemma SeenScanLock(s: State, t: nat)
    requires Shape(s) && Seen(s) && CanScanLock(s, t)
    ensures Seen(DoScanLock(s, t))
  {
    assert PcOk(s, t) && EventOk(s, ScanEvent(s, t));
    SeenOneEvent(s, DoScanLock(s, t), ScanEvent(s, t));
  }

  lemma SeenSetBegin(s: State, t: nat, e: nat)
    requires Shape(s) && Seen(s) && CanSetBegin(s, t, e)
    ensures Seen(DoSetBegin(s, t, e))
  {
    assert EventOk(s, e);
    SeenOneEvent(s, DoSetBegin(s, t, e), e);
  }

  lemma SeenSetBack(s: State, t: nat)
    requires Shape(s) && Seen(s) && CanSetEnter(s, t)
    ensures Seen(DoSetBack(s, t))
  {
    SeenOneEvent(s, DoSetBack(s, t), s.pcs[t].event);
  }

  lemma SeenSetWant(s: State, t: nat)
    requires Shape(s) && Seen(s) && CanSetWant(s, t)
    ensures Seen(DoSetWant(s, t))
  {
    SeenOneEvent(s, DoSetWant(s, t), s.pcs[t].event);
  }

  lemma SeenSetRelease(s: State, t: nat)
    requires Shape(s) && Seen(s) && CanSetRelease(s, t)
    ensures Seen(DoSetRelease(s, t))
  {
    var s' := DoSetRelease(s, t);
    forall r | 0 <= r < |s.recs| ensures SamePlace(s, s', r) {
    }
    SeenOneEvent(s, s', s.pcs[t].event);
  }

  lemma SeenSetDone(s: State, t: nat)
    requires Shape(s) && Seen(s) && CanSetDone(s, t)
    ensures Seen(DoSetDone(s, t))
  {
    SeenOneEvent(s, DoSetDone(s, t), s.pcs[t].event);
  }

  lemma SeenStep(s: State, a: Action)
    requires Shape(s) && Seen(s) && Enabled(s, a)
    ensures Seen(Apply(s, a))
  {
    match a
    case BeginWait(t, es, waitAll, mode) => SeenBeginWait(s, t, es, waitAll, mode);
    case ScanSkip(t) => SeenScanSkip(s, t);
    case ScanLock(t) => SeenScanLock(s, t);
    case ScanEnd(t) => SeenScanEnd(s, t);
    case PurgeStep(t) => SeenPurgeStep(s, t);
    case PurgeEnd(t) => SeenTake(s, t); SeenRegister(s, t);
    case Settle(t) => SeenSettle(s, t);
    case GiveUp(t) => SeenGiveUp(s, t);
    case Sleep(t) => SeenSleep(s, t);
    case Wake(t) => SeenWake(s, t);
    case Drop(t) => SeenDrop(s, t);
    case SetBegin(t, e) => SeenSetBegin(s, t, e);
    case SetSkip(t) => SeenSetSkip(s, t);
    case SetWant(t) => SeenSetWant(s, t);
    case SetEnter(t) =>
      if s.events[s.pcs[t].event].auto && !s.recs[Front(s, t)].still { SeenSetBack(s, t); } else { SeenSetCredit(s, t); }
    case SetRelease(t) => SeenSetRelease(s, t);
    case SetDone(t) => SeenSetDone(s, t);
    case TakeOne(_, e) => SeenOneEvent(s, Apply(s, a), e);
    case Reset(e) => SeenOneEvent(s, Apply(s, a), e);
  }
}
