/**
 Counting registrations and grants over all events and records.

 `Pending` lists, event by event, the registered entries that no SetEvent has credited yet; `Tally`
 collects the indices of one record from it, and `Granted` counts how often an event was taken.
 The lemmas say what appending, removing and replacing an entry does to these counts.
 */
module EventTally {
  import opened EventModel

  /** The indices at which record `r` is registered in one list. */
  function Idx(regs: seq<Info>, r: nat): multiset<nat> {
    if regs == [] then multiset{}
    else (if regs[0].rec == r then multiset{regs[0].idx} else multiset{}) + Idx(regs[1..], r)
  }

  /** The same over all lists. */
  function Tally(lists: seq<seq<Info>>, r: nat): multiset<nat> {
    if lists == [] then multiset{} else Idx(lists[0], r) + Tally(lists[1..], r)
  }

  function Regs(events: seq<Event>): seq<seq<Info>> {
    seq(|events|, i requires 0 <= i < |events| => events[i].regs)
  }

  /** Entries nobody has credited yet. */
  function Uncredited(ev: Event): seq<Info> {
    if ev.phase.Credited? && ev.regs != [] then ev.regs[1..] else ev.regs
  }

  function Pending(events: seq<Event>): seq<seq<Info>> {
    seq(|events|, i requires 0 <= i < |events| => Uncredited(events[i]))
  }

  /** The indices a .. n - 1, each once. */
  function Range(a: nat, n: nat): multiset<nat>
    decreases n - a
  {
    if a >= n then multiset{} else multiset{a} + Range(a + 1, n)
  }

  lemma {:induction false} RangeSize(a: nat, n: nat)
    requires a <= n
    ensures |Range(a, n)| == n - a
    decreases n - a
  {
    if a < n { RangeSize(a + 1, n); }
  }

  lemma {:induction false} RangeElems(a: nat, n: nat, x: nat)
    ensures Range(a, n)[x] == if a <= x < n then 1 else 0
    decreases n - a
  {
    if a < n { RangeElems(a + 1, n, x); }
  }

  lemma Cancel(a: multiset<nat>, b: multiset<nat>, c: multiset<nat>)
    requires a + c == b + c
    ensures a == b
  {
    assert a == (a + c) - c;
    assert b == (b + c) - c;
  }

  lemma {:induction false} IdxConcat(a: seq<Info>, b: seq<Info>, r: nat)
    ensures Idx(a + b, r) == Idx(a, r) + Idx(b, r)
  {
    if a == [] {
      assert a + b == b;
    } else {
      assert (a + b)[1..] == a[1..] + b;
      IdxConcat(a[1..], b, r);
    }
  }

  lemma IdxSingle(x: Info, r: nat)
    ensures Idx([x], r) == if x.rec == r then multiset{x.idx} else multiset{}
  {
    assert [x][1..] == [];
  }

  lemma IdxAppend(regs: seq<Info>, x: Info, r: nat)
    ensures Idx(regs + [x], r) == Idx(regs, r) + (if x.rec == r then multiset{x.idx} else multiset{})
  {
    IdxConcat(regs, [x], r);
    IdxSingle(x, r);
  }

  lemma IdxRemove(regs: seq<Info>, k: nat, r: nat)
    requires k < |regs|
    ensures Idx(regs, r) == Idx(RemoveAt(regs, k), r) + (if regs[k].rec == r then multiset{regs[k].idx} else multiset{})
  {
    assert regs == regs[..k] + ([regs[k]] + regs[k+1..]);
    IdxConcat(regs[..k], [regs[k]] + regs[k+1..], r);
    IdxConcat([regs[k]], regs[k+1..], r);
    IdxConcat(regs[..k], regs[k+1..], r);
    IdxSingle(regs[k], r);
  }

  lemma {:induction false} TallyUpdate(lists: seq<seq<Info>>, e: nat, l: seq<Info>, r: nat)
    requires e < |lists|
    ensures Tally(lists[e := l], r) + Idx(lists[e], r) == Tally(lists, r) + Idx(l, r)
  {
    if e == 0 {
      assert lists[e := l][1..] == lists[1..];
    } else {
      var tail := lists[1..][e - 1 := l];
      assert lists[e := l][1..] == tail;
      TallyUpdate(lists[1..], e - 1, l, r);
      var h := Idx(lists[0], r);
      assert (h + Tally(tail, r)) + Idx(lists[e], r) == h + (Tally(tail, r) + Idx(lists[e], r));
    }
  }

  lemma RegsUpdate(events: seq<Event>, e: nat, ev: Event, r: nat)
    requires e < |events|
    ensures Tally(Regs(events[e := ev]), r) + Idx(events[e].regs, r) == Tally(Regs(events), r) + Idx(ev.regs, r)
  {
    assert Regs(events[e := ev]) == Regs(events)[e := ev.regs];
    TallyUpdate(Regs(events), e, ev.regs, r);
  }

  lemma PendingUpdate(events: seq<Event>, e: nat, ev: Event, r: nat)
    requires e < |events|
    ensures Tally(Pending(events[e := ev]), r) + Idx(Uncredited(events[e]), r)
            == Tally(Pending(events), r) + Idx(Uncredited(ev), r)
  {
    assert Pending(events[e := ev]) == Pending(events)[e := Uncredited(ev)];
    TallyUpdate(Pending(events), e, Uncredited(ev), r);
  }

  lemma {:induction false} IdxAbsent(regs: seq<Info>, r: nat)
    requires forall j :: 0 <= j < |regs| ==> regs[j].rec != r
    ensures Idx(regs, r) == multiset{}
  {
    if regs != [] { IdxAbsent(regs[1..], r); }
  }

  lemma {:induction false} TallyAbsent(lists: seq<seq<Info>>, r: nat)
    requires forall e, j :: 0 <= e < |lists| && 0 <= j < |lists[e]| ==> lists[e][j].rec != r
    ensures Tally(lists, r) == multiset{}
  {
    if lists != [] {
      IdxAbsent(lists[0], r);
      TallyAbsent(lists[1..], r);
    }
  }

  lemma {:induction false} TallyHas(lists: seq<seq<Info>>, e: nat, j: nat)
    requires e < |lists| && j < |lists[e]|
    ensures lists[e][j].idx in Tally(lists, lists[e][j].rec)
  {
    var r := lists[e][j].rec;
    if e == 0 {
      IdxRemove(lists[0], j, r);
    } else {
      TallyHas(lists[1..], e - 1, j);
    }
  }

  // ---------------------------------------------------------------- grants

  /** How often one wait was granted event `e`. */
  function GrantsOf(w: Wfmo, seen: seq<nat>, e: nat): nat {
    if seen == [] then 0
    else
      var i := seen[|seen|-1];
      GrantsOf(w, seen[..|seen|-1], e) + if i < |w.events| && w.events[i] == e then 1 else 0
  }

  function Granted(recs: seq<Wfmo>, e: nat): nat {
    if recs == [] then 0 else GrantsOf(recs[0], recs[0].seen, e) + Granted(recs[1..], e)
  }

  lemma {:induction false} GrantedUpdate(recs: seq<Wfmo>, q: nat, w: Wfmo, e: nat)
    requires q < |recs|
    ensures Granted(recs[q := w], e) + GrantsOf(recs[q], recs[q].seen, e) == Granted(recs, e) + GrantsOf(w, w.seen, e)
  {
    if q == 0 {
      assert recs[q := w][1..] == recs[1..];
    } else {
      assert recs[q := w][1..] == recs[1..][q - 1 := w];
      GrantedUpdate(recs[1..], q - 1, w, e);
    }
  }

  lemma {:induction false} GrantsSame(w: Wfmo, w': Wfmo, seen: seq<nat>, e: nat)
    requires w.events == w'.events
    ensures GrantsOf(w, seen, e) == GrantsOf(w', seen, e)
  {
    if seen != [] { GrantsSame(w, w', seen[..|seen|-1], e); }
  }

  /** A step that leaves a record's list and history alone grants nothing. */
  lemma GrantedSame(recs: seq<Wfmo>, q: nat, w: Wfmo, e: nat)
    requires q < |recs| && w.events == recs[q].events && w.seen == recs[q].seen
    ensures Granted(recs[q := w], e) == Granted(recs, e)
  {
    GrantedUpdate(recs, q, w, e);
    GrantsSame(recs[q], w, w.seen, e);
  }

  /** Seeing index `i` grants exactly the event listed there. */
  lemma GrantedMore(recs: seq<Wfmo>, q: nat, w: Wfmo, i: nat, e: nat)
    requires q < |recs| && w.events == recs[q].events && w.seen == recs[q].seen + [i] && i < |w.events|
    ensures Granted(recs[q := w], e) == Granted(recs, e) + if w.events[i] == e then 1 else 0
  {
    GrantedUpdate(recs, q, w, e);
    GrantsSame(recs[q], w, recs[q].seen, e);
    assert w.seen[..|w.seen|-1] == recs[q].seen;
  }

  lemma {:induction false} GrantedAppend(recs: seq<Wfmo>, w: Wfmo, e: nat)
    requires w.seen == []
    ensures Granted(recs + [w], e) == Granted(recs, e)
  {
    if recs == [] {
      assert (recs + [w])[1..] == [];
    } else {
      assert (recs + [w])[1..] == recs[1..] + [w];
      GrantedAppend(recs[1..], w, e);
    }
  }
}
