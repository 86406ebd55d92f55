/**
 With equal priorities, and waiters pushed in the order of their arrival stamps, the ageing heap is
 indistinguishable from the plain list: the same steps are possible in both, and lead every request
 through the same stages, so the same waiters are granted in the same order.
 */
module FifoRefinement {
  import opened BinaryHeap
  import opened QueueDiscipline
  import opened Admission
  import opened AdmissionSafety
  import opened AdmissionTheorems
  import opened Saturation

  ghost predicate EqualPriorities(reqs: seq<Request>) {
    forall i, j :: 0 <= i < |reqs| && 0 <= j < |reqs| ==> reqs[i].priority == reqs[j].priority
  }

  /** The list is in strictly increasing order of arrival stamps. */
  ghost predicate InArrivalOrder(q: seq<nat>, reqs: seq<Request>) {
    && (forall i :: 0 <= i < |q| ==> q[i] < |reqs|)
    && forall i, j :: 0 <= i < j < |q| ==> reqs[q[i]].enqueuedAt < reqs[q[j]].enqueuedAt
  }

  /** The waiter is stamped later than everything it joins. */
  ghost predicate JoinsLast(s: State, r: nat)
    requires r < |s.reqs|
  {
    forall v :: v in s.queue ==> v < |s.reqs| && s.reqs[v].enqueuedAt < s.reqs[r].enqueuedAt
  }

  ghost predicate OrderedPushes(s: State, run: seq<Step>)
    decreases |run|
  {
    run == [] || (Enabled(s, run[0]) ==>
      (run[0].PushWaiter? ==> JoinsLast(s, run[0].r)) && OrderedPushes(Apply(Hrn, s, run[0]), run[1..]))
  }

  /** `s` with a heap and `f` with a list hold the same waiters; all else is equal. */
  ghost predicate Similar(s: State, f: State) {
    && HeapInv(s) && EqualPriorities(s.reqs)
    && f == s.(queue := f.queue)
    && multiset(s.queue) == multiset(f.queue)
    && InArrivalOrder(f.queue, f.reqs)
  }

  lemma SameMembers(q: seq<nat>, p: seq<nat>)
    requires multiset(q) == multiset(p)
    ensures |q| == |p|
    ensures forall x :: x in q <==> x in p
  {
    assert |q| == |multiset(q)| == |multiset(p)| == |p|;
    assert forall x :: x in q <==> x in multiset(q);
    assert forall x :: x in p <==> x in multiset(p);
  }

  /** The heap's next waiter is the head of the list. */
  lemma SameNext(s: State, f: State)
    requires Similar(s, f) && s.queue != []
    ensures f.queue != [] && s.queue[0] == f.queue[0]
  {
    SameMembers(s.queue, f.queue);
    var key := RankAt(s.reqs);
    PopTakesGreatest(s.queue, key);
    DeqTakes(Hrn, s.queue, key);
    var w, h := s.queue[0], f.queue[0];
    assert w in f.queue && h in s.queue;
    assert key(h) <= key(w);
    assert s.reqs[w].priority == s.reqs[h].priority;
    var i :| 0 <= i < |f.queue| && f.queue[i] == w;
    assert f.queue[0] == h;
  }

  lemma SameAfterPush(q: seq<nat>, p: seq<nat>, k1: nat -> real, k2: nat -> real, r: nat)
    requires multiset(q) == multiset(p)
    ensures multiset(Enq(Hrn, q, k1, r)) == multiset(Enq(Fifo, p, k2, r))
  {
    EnqAdds(Hrn, q, k1, r);
    EnqAdds(Fifo, p, k2, r);
  }

  lemma SameAfterRemoval(q: seq<nat>, p: seq<nat>, k1: nat -> real, k2: nat -> real, r: nat)
    requires multiset(q) == multiset(p)
    ensures multiset(Del(Hrn, q, k1, r)) == multiset(Del(Fifo, p, k2, r))
  {
    SameMembers(q, p);
    if r in q {
      DelTakes(Hrn, q, k1, r);
      DelTakes(Fifo, p, k2, r);
      OneFewer(q, Del(Hrn, q, k1, r), p, Del(Fifo, p, k2, r), r);
    }
  }

  lemma SameAfterPop(q: seq<nat>, p: seq<nat>, k1: nat -> real, k2: nat -> real)
    requires multiset(q) == multiset(p) && q != [] && p != [] && q[0] == p[0]
    ensures Deq(Hrn, q, k1).0 == Deq(Fifo, p, k2).0
    ensures multiset(Deq(Hrn, q, k1).1) == multiset(Deq(Fifo, p, k2).1)
  {
    DeqTakes(Hrn, q, k1);
    DeqTakes(Fifo, p, k2);
    OneFewer(q, Deq(Hrn, q, k1).1, p, Deq(Fifo, p, k2).1, q[0]);
  }

  /** Both queues hold the same waiters after the same step. */
  lemma SameWaiters(s: State, f: State, l: Step)
    requires Enabled(s, l) && f == s.(queue := f.queue) && multiset(s.queue) == multiset(f.queue)
    requires l.LockAndPop? && s.queue != [] ==> f.queue != [] && s.queue[0] == f.queue[0]
    ensures multiset(Apply(Hrn, s, l).queue) == multiset(Apply(Fifo, f, l).queue)
  {
    SameMembers(s.queue, f.queue);
    match l
    case PushWaiter(r) => SameAfterPush(s.queue, f.queue, RankAt(s.reqs), RankAt(f.reqs), r);
    case RemoveExpired(r) => SameAfterRemoval(s.queue, f.queue, RankAt(s.reqs), RankAt(f.reqs), r);
    case LockAndPop(_) =>
      if s.queue != [] {
        SameAfterPop(s.queue, f.queue, RankAt(s.reqs), RankAt(f.reqs));
      }
    case _ =>
  }

  /** All else is the same after the same step. */
  lemma SameOtherwise(s: State, f: State, l: Step)
    requires Enabled(s, l) && f == s.(queue := f.queue) && multiset(s.queue) == multiset(f.queue)
    requires l.LockAndPop? && s.queue != [] ==> f.queue != [] && s.queue[0] == f.queue[0]
    ensures Apply(Fifo, f, l) == Apply(Hrn, s, l).(queue := Apply(Fifo, f, l).queue)
  {
    SameMembers(s.queue, f.queue);
    if l.LockAndPop? && s.queue != [] {
      SameAfterPop(s.queue, f.queue, RankAt(s.reqs), RankAt(f.reqs));
    }
  }

  /** The list stays in arrival order. */
  lemma ListStaysInOrder(s: State, f: State, l: Step)
    requires Enabled(f, l) && f == s.(queue := f.queue) && multiset(s.queue) == multiset(f.queue)
    requires InArrivalOrder(f.queue, f.reqs)
    requires l.PushWaiter? ==> JoinsLast(s, l.r)
    ensures InArrivalOrder(Apply(Fifo, f, l).queue, f.reqs)
  {
    match l
    case PushWaiter(r) =>
      SameMembers(s.queue, f.queue);
      WithOneMore(f.queue, f.reqs, r);
    case RemoveExpired(r) =>
      RemovedInOrder(f.queue, f.reqs, RankAt(f.reqs), r);
    case LockAndPop(_) =>
      if f.queue != [] {
        PoppedInOrder(f.queue, f.reqs, RankAt(f.reqs));
      }
    case _ =>
  }

  lemma RemovedInOrder(q: seq<nat>, reqs: seq<Request>, key: nat -> real, r: nat)
    requires InArrivalOrder(q, reqs)
    ensures InArrivalOrder(Del(Fifo, q, key, r), reqs)
  {
    if r in q {
      WithoutOne(q, reqs, IndexOf(q, r));
    }
  }

  lemma PoppedInOrder(q: seq<nat>, reqs: seq<Request>, key: nat -> real)
    requires q != [] && InArrivalOrder(q, reqs)
    ensures InArrivalOrder(Deq(Fifo, q, key).1, reqs)
  {
    WithoutOne(q, reqs, 0);
    assert q[1..] == q[..0] + q[1..];
  }

  lemma WithOneMore(q: seq<nat>, reqs: seq<Request>, r: nat)
    requires InArrivalOrder(q, reqs) && r < |reqs|
    requires forall v :: v in q ==> v < |reqs| && reqs[v].enqueuedAt < reqs[r].enqueuedAt
    ensures InArrivalOrder(q + [r], reqs)
  {
    assert forall i :: 0 <= i < |q| ==> q[i] in q;
  }

  lemma WithoutOne(q: seq<nat>, reqs: seq<Request>, i: nat)
    requires i < |q| && InArrivalOrder(q, reqs)
    ensures InArrivalOrder(q[..i] + q[i + 1..], reqs)
  {
    var p := q[..i] + q[i + 1..];
    assert forall k :: 0 <= k < |p| ==> p[k] == if k < i then q[k] else q[k + 1];
  }

  lemma OneFewer(q: seq<nat>, q': seq<nat>, p: seq<nat>, p': seq<nat>, w: nat)
    requires multiset(q) == multiset(p)
    requires multiset(q) == multiset(q') + multiset{w} && multiset(p) == multiset(p') + multiset{w}
    ensures multiset(q') == multiset(p')
  {
    assert multiset(q') == multiset(q) - multiset{w};
  }

  /** No step changes the stamp of a listed waiter or anybody's priority. */
  lemma StampsStay(f: State, l: Step)
    requires Enabled(f, l) && (l.TryMiss? ==> l.r !in f.queue)
    ensures var u := Apply(Fifo, f, l);
            && |u.reqs| == |f.reqs|
            && (forall i :: 0 <= i < |f.reqs| ==> u.reqs[i].priority == f.reqs[i].priority)
            && (forall i :: 0 <= i < |f.reqs| && i in u.queue ==> u.reqs[i].enqueuedAt == f.reqs[i].enqueuedAt)
  {
  }

  lemma OrderStep(s: State, f: State, l: Step)
    requires Similar(s, f) && Enabled(s, l)
    requires l.PushWaiter? ==> JoinsLast(s, l.r)
    ensures var u := Apply(Fifo, f, l); InArrivalOrder(u.queue, u.reqs) && EqualPriorities(u.reqs)
  {
    ListStaysInOrder(s, f, l);
    assert l.TryMiss? ==> l.r !in f.queue by {
      SameMembers(s.queue, f.queue);
      assert Local(s.reqs[l.r]);
    }
    StampsStay(f, l);
    var u := Apply(Fifo, f, l);
    SameStamps(u.queue, f.reqs, u.reqs);
    SamePriorities(f.reqs, u.reqs);
  }

  lemma SimilarStep(s: State, f: State, l: Step)
    requires Similar(s, f) && Enabled(s, l)
    requires l.PushWaiter? ==> JoinsLast(s, l.r)
    ensures Similar(Apply(Hrn, s, l), Apply(Fifo, f, l))
  {
    if s.queue != [] {
      SameNext(s, f);
    }
    HeapStep(s, l);
    SameWaiters(s, f, l);
    SameOtherwise(s, f, l);
    OrderStep(s, f, l);
  }

  lemma SameStamps(q: seq<nat>, before: seq<Request>, after: seq<Request>)
    requires InArrivalOrder(q, before) && |after| == |before|
    requires forall i :: 0 <= i < |before| && i in q ==> after[i].enqueuedAt == before[i].enqueuedAt
    ensures InArrivalOrder(q, after)
  {
    assert forall i :: 0 <= i < |q| ==> q[i] in q;
  }

  lemma SamePriorities(before: seq<Request>, after: seq<Request>)
    requires EqualPriorities(before) && |after| == |before|
    requires forall i :: 0 <= i < |before| ==> after[i].priority == before[i].priority
    ensures EqualPriorities(after)
  {
  }

  lemma {:induction false} SimilarRun(s: State, f: State, run: seq<Step>)
    requires Similar(s, f) && OrderedPushes(s, run)
    ensures CanRun(Hrn, s, run) <==> CanRun(Fifo, f, run)
    ensures CanRun(Hrn, s, run) ==> Similar(Run(Hrn, s, run), Run(Fifo, f, run))
    decreases |run|
  {
    if run == [] {
    } else if Enabled(s, run[0]) {
      SimilarStep(s, f, run[0]);
      SimilarRun(Apply(Hrn, s, run[0]), Apply(Fifo, f, run[0]), run[1..]);
    }
  }

  /**
   From the same start, the two queues allow exactly the same runs, and after any of them agree on
   every request, on the permits and on who is waiting; only the arrangement of the waiters differs.
   */
  lemma HeapRefinesFifo(s: State, run: seq<Step>)
    requires Init(s) && EqualPriorities(s.reqs) && OrderedPushes(s, run)
    ensures CanRun(Hrn, s, run) <==> CanRun(Fifo, s, run)
    ensures CanRun(Hrn, s, run) ==>
              var h, f := Run(Hrn, s, run), Run(Fifo, s, run);
              h.reqs == f.reqs && h.sem == f.sem && multiset(h.queue) == multiset(f.queue)
  {
    InvInit(s);
    SimilarRun(s, s, run);
  }

  // ---------- For which loads the queues agree ----------

  /** The queues allow this run alike and agree on every request after it. */
  ghost predicate Alike(s: State, run: seq<Step>) {
    && (CanRun(Hrn, s, run) <==> CanRun(Fifo, s, run))
    && (CanRun(Hrn, s, run) ==> Run(Hrn, s, run).reqs == Run(Fifo, s, run).reqs)
  }

  /** With at most one request more in progress than permits, every push finds the queue empty. */
  lemma {:induction false} PushesAreOrdered(s: State, run: seq<Step>, k: nat)
    requires Balanced(s) && AtMostOneWaits(s) && k <= s.max + 1 && AtMostBusy(Hrn, s, run, k)
    ensures OrderedPushes(s, run)
    decreases |run|
  {
    if run == [] {
    } else if Enabled(s, run[0]) {
      var l := run[0];
      if l.PushWaiter? {
        assert Local(s.reqs[l.r]) && QueueLinked(s) && Waits(s, l.r);
        assert forall v :: v in s.queue ==> v < |s.reqs| && v != l.r && Waits(s, v);
      }
      BalancedStep(Hrn, s, l);
      AtMostOneWaitsStep(Hrn, s, l);
      PushesAreOrdered(Apply(Hrn, s, l), run[1..], k);
    }
  }

  /** Without permits there are no Releases, and nobody is ever popped. */
  lemma {:induction false} NoPermitsNoPops(s: State, f: State, run: seq<Step>)
    requires Balanced(s) && s.max == 0
    requires f == s.(queue := f.queue) && multiset(s.queue) == multiset(f.queue)
    ensures CanRun(Hrn, s, run) <==> CanRun(Fifo, f, run)
    ensures CanRun(Hrn, s, run) ==> Run(Hrn, s, run).reqs == Run(Fifo, f, run).reqs
    decreases |run|
  {
    if run == [] {
    } else if Enabled(s, run[0]) {
      var l := run[0];
      if l.LockAndPop? {
        PermitsUpdate(s.reqs, l.r, s.reqs[l.r]);
      }
      BalancedStep(Hrn, s, l);
      SameWaiters(s, f, l);
      SameOtherwise(s, f, l);
      NoPermitsNoPops(Apply(Hrn, s, l), Apply(Fifo, f, l), run[1..]);
    }
  }

  lemma FewRequestsAreAlike(s: State, run: seq<Step>, k: nat)
    requires Init(s) && EqualPriorities(s.reqs) && AtMostBusy(Hrn, s, run, k)
    requires s.max == 0 || k <= s.max + 1 || |s.reqs| <= s.max + 1
    ensures Alike(s, run)
  {
    BalancedInit(s);
    if s.max == 0 {
      NoPermitsNoPops(s, s, run);
    } else {
      NoMoreThanAll(Hrn, s, run);
      PushesAreOrdered(s, run, if k <= s.max + 1 then k else |s.reqs|);
      HeapRefinesFifo(s, run);
    }
  }

  // ---------- Pushes out of stamp order ----------

  /** Two callers miss at instants 1.0 and 2.0, the later one gets the mutex first, then a Release begins. */
  function Crossing(a: nat, b: nat): seq<Step> {
    [TryMiss(a, 1.0)] + ([TryMiss(b, 2.0)] + ([PushWaiter(b)] + ([PushWaiter(a)]
      + ([BeginRelease(0)] + [LockAndPop(0)]))))
  }

  function Crossed(max: nat): seq<Step> {
    Hits(0, max) + Crossing(max, max + 1)
  }

  /** The heap puts the one that missed first in front, the list the one that was pushed first. */
  lemma CrossedPush(d: Discipline, key: nat -> real, a: nat, b: nat)
    requires key(a) > key(b)
    ensures Enq(d, [b], key, a) == if d == Hrn then [a, b] else [b, a]
  {
    assert [b] + [a] == [b, a];
    assert Swap([b, a], 0, 1) == [a, b];
    assert Up([a, b], key, 0) == [a, b];
  }

  /** Both callers are queued, in an order that differs. */
  lemma PushBoth(d: Discipline, s: State, a: nat, b: nat)
    requires s.queue == [] && a < |s.reqs| && b < |s.reqs| && a != b
    requires s.reqs[a].stage == s.reqs[b].stage == Missed && s.reqs[a].priority == s.reqs[b].priority
    requires s.reqs[a].enqueuedAt < s.reqs[b].enqueuedAt
    ensures var t := Apply(d, s, PushWaiter(b));
            Enabled(t, PushWaiter(a)) && Apply(d, t, PushWaiter(a)).queue == if d == Hrn then [a, b] else [b, a]
  {
    var t := Apply(d, s, PushWaiter(b));
    assert t.queue == [b] by {
      assert [] + [b] == [b];
      assert Up([b], RankAt(s.reqs), 0) == [b];
    }
    CrossedPush(d, RankAt(t.reqs), a, b);
  }

  lemma ReleaseNext(d: Discipline, s: State, r: nat)
    requires r < |s.reqs| && s.reqs[r].stage == Holding && s.queue != []
    ensures CanRun(d, s, [BeginRelease(r)] + [LockAndPop(r)])
    ensures var t := Run(d, s, [BeginRelease(r)] + [LockAndPop(r)]);
            |t.reqs| == |s.reqs| && t.reqs[r].stage == Popped(s.queue[0])
  {
    var t := Apply(d, s, BeginRelease(r));
    DeqTakes(d, t.queue, RankAt(t.reqs));
    SingleStep(d, t, LockAndPop(r));
    StepFirst(d, s, BeginRelease(r), [LockAndPop(r)]);
  }

  lemma CrossingParts(d: Discipline, s: State, a: nat, b: nat)
    requires AllTaken(s) && a == s.max && b == s.max + 1 < |s.reqs| && s.reqs[a].priority == s.reqs[b].priority
    ensures CanRun(d, s, Crossing(a, b))
    ensures |Run(d, s, Crossing(a, b)).reqs| == |s.reqs|
    ensures Run(d, s, Crossing(a, b)).reqs[0].stage == Popped(if d == Hrn then a else b)
  {
    var s1 := Apply(d, s, TryMiss(a, 1.0));
    var s2 := Apply(d, s1, TryMiss(b, 2.0));
    var s3 := Apply(d, s2, PushWaiter(b));
    PushBoth(d, s2, a, b);
    var s4 := Apply(d, s3, PushWaiter(a));
    ReleaseNext(d, s4, 0);
    var tail := [BeginRelease(0)] + [LockAndPop(0)];
    StepFirst(d, s3, PushWaiter(a), tail);
    StepFirst(d, s2, PushWaiter(b), [PushWaiter(a)] + tail);
    StepFirst(d, s1, TryMiss(b, 2.0), [PushWaiter(b)] + ([PushWaiter(a)] + tail));
    StepFirst(d, s, TryMiss(a, 1.0), [TryMiss(b, 2.0)] + ([PushWaiter(b)] + ([PushWaiter(a)] + tail)));
  }

  /**
   The stamp is taken before the mutex, so pushes can come in the other order. With two requests more
   than permits the queues then part: the heap pops the caller that missed first, the list the caller
   that was pushed first.
   */
  lemma CrossedPushesPart(d: Discipline, s: State)
    requires Init(s) && EqualPriorities(s.reqs) && 0 < s.max && s.max + 1 < |s.reqs|
    ensures CanRun(d, s, Crossed(s.max))
    ensures var t := Run(d, s, Crossed(s.max));
            |t.reqs| == |s.reqs| && t.reqs[0].stage == Popped(if d == Hrn then s.max else s.max + 1)
  {
    AllTakenAtFirst(d, s);
    var full := Run(d, s, Hits(0, s.max));
    CrossingParts(d, full, s.max, s.max + 1);
    RunInParts(d, s, Hits(0, s.max), Crossing(s.max, s.max + 1));
  }

  lemma CrossedByFew(s: State, k: nat)
    requires Init(s) && s.max + 1 < k
    ensures AtMostBusy(Hrn, s, Crossed(s.max), k)
  {
    OnlyHits(0, s.max);
    FewTakePart(Hrn, s, Crossed(s.max), s.max + 2, k);
  }

  /**
   The exact condition. Among equal priorities, the heap serves every run with at most `k` requests in
   progress at once as the list does if and only if there are no permits, or at most one request more
   than permits in progress, or in all.
   */
  lemma RefinesFifoIff(s: State, k: nat)
    requires Init(s) && EqualPriorities(s.reqs)
    ensures (forall run :: AtMostBusy(Hrn, s, run, k) ==> Alike(s, run))
       <==> s.max == 0 || k <= s.max + 1 || |s.reqs| <= s.max + 1
  {
    if s.max == 0 || k <= s.max + 1 || |s.reqs| <= s.max + 1 {
      forall run | AtMostBusy(Hrn, s, run, k)
        ensures Alike(s, run)
      {
        FewRequestsAreAlike(s, run, k);
      }
    } else {
      CrossedPushesPart(Hrn, s);
      CrossedPushesPart(Fifo, s);
      CrossedByFew(s, k);
      assert !Alike(s, Crossed(s.max));
    }
  }
}
