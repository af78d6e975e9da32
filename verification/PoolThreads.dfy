/** The worker threads: running, handed to the clear thread, joined. */
module PoolThreads {
  import opened PoolModel

  function InSeq(s: seq<nat>, w: nat): nat {
    if s == [] then 0 else (if s[0] == w then 1 else 0) + InSeq(s[1..], w)
  }

  lemma {:induction false} InSeqAppend(s: seq<nat>, x: nat, w: nat)
    ensures InSeq(s + [x], w) == InSeq(s, w) + (if x == w then 1 else 0)
  {
    if s == [] {
      assert [x][1..] == [];
    } else {
      assert (s + [x])[1..] == s[1..] + [x];
      InSeqAppend(s[1..], x, w);
    }
  }

  lemma {:induction false} InSeqMember(s: seq<nat>, w: nat)
    ensures InSeq(s, w) > 0 <==> w in s
  {
    if s != [] {
      InSeqMember(s[1..], w);
      assert w in s <==> w == s[0] || w in s[1..];
    }
  }

  lemma {:induction false} InSeqWithout(s: seq<nat>, x: nat, w: nat)
    ensures x in s ==> |Without(s, x)| == |s| - 1
    ensures InSeq(Without(s, x), w) == InSeq(s, w) - (if x == w && x in s then 1 else 0)
  {
    if s != [] {
      InSeqWithout(s[1..], x, w);
      assert x in s <==> x == s[0] || x in s[1..];
      if s[0] != x {
        assert ([s[0]] + Without(s[1..], x))[1..] == Without(s[1..], x);
      }
    }
  }

  /** A thread that has handed itself to the clear thread. */
  predicate Departing(pc: Pc) {
    pc.Left? || pc.Gone?
  }

  /** Thread `w` is in exactly one list: the running one until it leaves, and joined only when gone. */
  predicate PlacedAt(t: Threads, w: nat) {
    && InSeq(t.running, w) + InSeq(t.removing, w) + InSeq(t.joined, w) == (if w < |t.pcs| then 1 else 0)
    && (w < |t.pcs| ==> (InSeq(t.running, w) == 0 <==> Departing(t.pcs[w])))
    && (w < |t.pcs| && InSeq(t.joined, w) > 0 ==> t.pcs[w].Gone?)
  }

  ghost predicate Placed(t: Threads) {
    forall w: nat :: PlacedAt(t, w)
  }

  predicate Counted(t: Threads) {
    && t.last == |t.running| <= t.max
    && |t.removing| == t.semRemoving + (if t.joiner.JoinBusy? then 1 else 0)
  }

  ghost predicate Inv(t: Threads) {
    Placed(t) && Counted(t)
  }

  lemma AddOne(t: Threads)
    requires Inv(t) && t.last < t.max
    ensures Inv(t.(running := t.running + [|t.pcs|], pcs := t.pcs + [Starting], last := t.last + 1))
  {
    var u := t.(running := t.running + [|t.pcs|], pcs := t.pcs + [Starting], last := t.last + 1);
    forall w: nat ensures PlacedAt(u, w) {
      assert PlacedAt(t, w);
      InSeqAppend(t.running, |t.pcs|, w);
    }
  }

  lemma {:induction false} AddMany(t: Threads, n: nat)
    requires Inv(t) && t.last + n <= t.max
    ensures Inv(AddThreads(t, n))
    decreases n
  {
    if n > 0 {
      AddOne(t);
      AddMany(t.(running := t.running + [|t.pcs|], pcs := t.pcs + [Starting], last := t.last + 1), n - 1);
    }
  }

  lemma MoveKeeps(t: Threads, w: nat, pc: Pc)
    requires Inv(t) && w < |t.pcs| && !t.pcs[w].Gone?
    requires Departing(pc) <==> Departing(t.pcs[w])
    ensures Inv(To(t, w, pc))
  {
    forall v: nat ensures PlacedAt(To(t, w, pc), v) { assert PlacedAt(t, v); }
  }

  lemma DepartKeeps(t: Threads, w: nat)
    requires Inv(t) && At(t, w, Leaving)
    ensures Inv(Departed(t, w))
  {
    assert PlacedAt(t, w);
    InSeqMember(t.running, w);
    InSeqWithout(t.running, w, w);
    var u := Departed(t, w);
    forall v: nat ensures PlacedAt(u, v) {
      assert PlacedAt(t, v);
      InSeqWithout(t.running, w, v);
      InSeqAppend(t.removing, w, v);
    }
  }

  lemma JoinKeeps(t: Threads)
    requires Inv(t) && CanJoin(t)
    ensures Inv(Joined(t))
  {
    var u := Joined(t);
    forall v: nat ensures PlacedAt(u, v) {
      assert PlacedAt(t, v);
      InSeqAppend(t.joined, t.removing[0], v);
    }
  }

  lemma InvStep(p: Pool, a: Action)
    requires Enabled(p, a) && Inv(p.threads)
    ensures Inv(Apply(p, a).threads)
  {
    var t := p.threads;
    ThreadsAfter(p, a);
    if a.Leave? {
      DepartKeeps(t, a.w);
    } else if Moves(a) {
      MoveKeeps(t, a.w, NextPc(p, a));
    } else if a.AddThread? {
      if t.last < t.max { AddMany(t, 1); }
    } else if a.JoinTake? {
      JoinTakeKeeps(t);
    } else if a.Join? {
      JoinKeeps(t);
    }
  }

  lemma JoinTakeKeeps(t: Threads)
    requires Inv(t) && t.joiner.JoinIdle? && t.semRemoving > 0
    ensures Inv(t.(joiner := JoinBusy, semRemoving := t.semRemoving - 1))
  {
    var u := t.(joiner := JoinBusy, semRemoving := t.semRemoving - 1);
    forall v: nat ensures PlacedAt(u, v) { assert PlacedAt(t, v); }
  }

  lemma {:induction false} RunKeepsInv(p: Pool, actions: seq<Action>)
    requires Inv(p.threads) && Runs(p, actions)
    ensures Inv(Exec(p, actions).threads)
    decreases |actions|
  {
    if actions != [] {
      InvStep(p, actions[0]);
      RunKeepsInv(Apply(p, actions[0]), actions[1..]);
    }
  }

  lemma InitInv(min: nat, max: nat)
    ensures Inv(Init(min, max).threads)
  {
    var none := Threads(min, max, [], [], 0, [], 0, JoinIdle, []);
    forall w: nat ensures PlacedAt(none, w) { }
    AddMany(none, AddCount(max, 0, min));
  }

  /**
   Every thread ever created is in exactly one of the running list, the removing queue and the
   joined ones, and is joined only after it has returned; the pool's counter is the length of the
   running list and never exceeds the maximum.
   */
  lemma ThreadsConserved(min: nat, max: nat, actions: seq<Action>, w: nat)
    requires Runs(Init(min, max), actions)
    ensures var t := Exec(Init(min, max), actions).threads;
            && InSeq(t.running, w) + InSeq(t.removing, w) + InSeq(t.joined, w) == (if w < |t.pcs| then 1 else 0)
            && (w < |t.pcs| && w in t.joined ==> t.pcs[w] == Gone)
            && t.last == |t.running| <= t.max
  {
    InitInv(min, max);
    RunKeepsInv(Init(min, max), actions);
    var t := Exec(Init(min, max), actions).threads;
    assert PlacedAt(t, w);
    InSeqMember(t.joined, w);
  }

  /** The clear thread never finds its queue empty, and waits only for a thread about to return. */
  lemma JoinNeverBlocksForLong(min: nat, max: nat, actions: seq<Action>)
    requires Runs(Init(min, max), actions)
    ensures var p := Exec(Init(min, max), actions);
            var t := p.threads;
            t.joiner.JoinBusy? ==>
              && t.removing != []
              && (Enabled(p, Join) || (t.removing[0] < |t.pcs| && Enabled(p, Return(t.removing[0]))))
  {
    InitInv(min, max);
    RunKeepsInv(Init(min, max), actions);
    var t := Exec(Init(min, max), actions).threads;
    if t.joiner.JoinBusy? {
      assert PlacedAt(t, t.removing[0]);
    }
  }

  /** A finished worker asks for a worker to go and is itself the one that answers. */
  lemma AsksAndLeaves(p: Pool, w: nat)
    requires At(p.threads, w, Finished) && !p.stopped && !p.cancelling && p.jobs.waiting == []
    requires p.threads.last > p.threads.min
    ensures var actions := [CheckSubtract(w), WakeSubtract(w)];
            && Runs(p, actions)
            && Exec(p, actions) == p.(threads := To(p.threads, w, Leaving), subtract := false)
  {
    TwoSteps(p, CheckSubtract(w), WakeSubtract(w));
    assert p.threads.pcs[w := Idle][w := Leaving] == p.threads.pcs[w := Leaving];
  }

  lemma BothLeave(p: Pool, w: nat, v: nat)
    requires w != v && At(p.threads, w, Leaving) && At(p.threads, v, Leaving)
    ensures Runs(p, [Leave(w), Leave(v)]) && Exec(p, [Leave(w), Leave(v)]).threads.last == p.threads.last - 2
  {
    TwoSteps(p, Leave(w), Leave(v));
  }

  /**
   The minimum is not kept.  Whenever two workers have finished, one thread more than the minimum
   runs and no job waits, both can ask for a worker to go before either has gone.
   */
  lemma TwoMayLeave(p: Pool, w: nat, v: nat)
    requires w != v && At(p.threads, w, Finished) && At(p.threads, v, Finished)
    requires !p.stopped && !p.cancelling && p.jobs.waiting == [] && p.threads.last == p.threads.min + 1
    ensures var actions := [CheckSubtract(w), WakeSubtract(w)] + [CheckSubtract(v), WakeSubtract(v)] + [Leave(w), Leave(v)];
            Runs(p, actions) && Exec(p, actions).threads.last == p.threads.min - 1
  {
    var first, second, third := [CheckSubtract(w), WakeSubtract(w)], [CheckSubtract(v), WakeSubtract(v)], [Leave(w), Leave(v)];
    AsksAndLeaves(p, w);
    AsksAndLeaves(Exec(p, first), v);
    RunsConcat(p, first, second);
    BothLeave(Exec(p, first + second), w, v);
    RunsConcat(p, first + second, third);
  }
}
