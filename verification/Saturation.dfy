/**
 How many requests there are against how many permits. A miss means that all permits are with other
 requests; the run in which the first requests take all permits makes a miss possible.
 */
module Saturation {
  import opened QueueDiscipline
  import opened Admission
  import opened AdmissionSafety
  import opened AdmissionTheorems

  // ---------- Counting ----------

  /** The call, the Release it owes, or the timeout goroutine in its own last steps. */
  predicate IsBusy(q: Request) {
    q.stage !in {Idle, Refused, Finished} || q.timer in {Failing, Removing}
  }

  /** How many requests are in progress. */
  function Busy(reqs: seq<Request>): nat {
    if reqs == [] then 0 else One(IsBusy(reqs[0])) + Busy(reqs[1..])
  }

  lemma {:induction false} PermitsAreBusy(reqs: seq<Request>)
    ensures Permits(reqs) <= Busy(reqs) <= |reqs|
  {
    if reqs == [] {
    } else {
      PermitsAreBusy(reqs[1..]);
    }
  }

  lemma {:induction false} OneMoreBusy(reqs: seq<Request>, a: nat)
    requires a < |reqs| && IsBusy(reqs[a]) && !HasPermit(reqs[a])
    ensures Permits(reqs) + 1 <= Busy(reqs)
  {
    if a == 0 {
      PermitsAreBusy(reqs[1..]);
    } else {
      OneMoreBusy(reqs[1..], a - 1);
    }
  }

  lemma {:induction false} TwoMoreBusy(reqs: seq<Request>, a: nat, b: nat)
    requires a < b < |reqs| && IsBusy(reqs[a]) && IsBusy(reqs[b]) && !HasPermit(reqs[a]) && !HasPermit(reqs[b])
    ensures Permits(reqs) + 2 <= Busy(reqs)
  {
    if a == 0 {
      OneMoreBusy(reqs[1..], b - 1);
    } else {
      TwoMoreBusy(reqs[1..], a - 1, b - 1);
    }
  }

  /** Never more than `k` requests in progress at once. */
  ghost predicate AtMostBusy(d: Discipline, s: State, run: seq<Step>, k: nat)
    decreases |run|
  {
    && Busy(s.reqs) <= k
    && (run == [] || (Enabled(s, run[0]) ==> AtMostBusy(d, Apply(d, s, run[0]), run[1..], k)))
  }

  /** There are never more in progress than there are requests at all. */
  lemma {:induction false} NoMoreThanAll(d: Discipline, s: State, run: seq<Step>)
    ensures AtMostBusy(d, s, run, |s.reqs|)
    decreases |run|
  {
    PermitsAreBusy(s.reqs);
    if run == [] {
    } else if Enabled(s, run[0]) {
      NoMoreThanAll(d, Apply(d, s, run[0]), run[1..]);
    }
  }

  lemma {:induction false} OnlyFirstBusy(reqs: seq<Request>, n: nat)
    requires forall r :: n <= r < |reqs| ==> !IsBusy(reqs[r])
    ensures Busy(reqs) <= n
  {
    if reqs == [] {
    } else {
      OnlyFirstBusy(reqs[1..], if n == 0 then 0 else n - 1);
    }
  }

  lemma OthersStay(d: Discipline, s: State, l: Step, r: nat)
    requires Enabled(s, l) && r < |s.reqs| && r != l.r
    ensures IsBusy(Apply(d, s, l).reqs[r]) == IsBusy(s.reqs[r])
  {
  }

  /** A run in which only the first `n` requests take part. */
  lemma {:induction false} FewTakePart(d: Discipline, s: State, run: seq<Step>, n: nat, k: nat)
    requires n <= k && forall l :: l in run ==> l.r < n
    requires forall r :: n <= r < |s.reqs| ==> !IsBusy(s.reqs[r])
    ensures AtMostBusy(d, s, run, k)
    decreases |run|
  {
    OnlyFirstBusy(s.reqs, n);
    if run == [] {
    } else if Enabled(s, run[0]) {
      var t := Apply(d, s, run[0]);
      assert run[0] in run;
      forall r | n <= r < |t.reqs|
        ensures !IsBusy(t.reqs[r])
      {
        OthersStay(d, s, run[0], r);
      }
      FewTakePart(d, t, run[1..], n, k);
    }
  }

  /** All permits are somewhere. */
  ghost predicate Balanced(s: State) {
    Inv(s) && |s.sem| + Permits(s.reqs) == s.max
  }

  lemma BalancedInit(s: State)
    requires Init(s)
    ensures Balanced(s)
  {
    InvInit(s);
    NobodyStartsWithAPermit(s.reqs);
  }

  lemma BalancedStep(d: Discipline, s: State, l: Step)
    requires Balanced(s) && Enabled(s, l)
    ensures Balanced(Apply(d, s, l)) && Apply(d, s, l).max == s.max && |Apply(d, s, l).reqs| == |s.reqs|
  {
    InvStep(d, s, l);
    ConservedStep(d, s, l);
  }

  /** Requests that hold up, or are about to join, the queue. */
  ghost predicate Waits(s: State, r: nat)
    requires r < |s.reqs|
  {
    s.reqs[r].stage == Missed || r in s.queue
  }

  lemma WaitersLackPermits(s: State, r: nat)
    requires Inv(s) && r < |s.reqs| && Waits(s, r)
    ensures IsBusy(s.reqs[r]) && !HasPermit(s.reqs[r])
  {
    assert QueueLinked(s) && Local(s.reqs[r]);
  }

  // ---------- No more requests in progress than permits ----------

  ghost predicate NobodyMissed(s: State) {
    forall r: nat :: r < |s.reqs| ==> s.reqs[r].timer == Unborn && s.reqs[r].stage != Missed
  }

  lemma SomeMember(q: seq<nat>)
    requires q != []
    ensures exists w :: w in q
  {
    assert q[0] in q;
  }

  lemma {:induction false} EnoughPermits(d: Discipline, s: State, run: seq<Step>, k: nat)
    requires Balanced(s) && k <= s.max && NobodyMissed(s) && CanRun(d, s, run) && AtMostBusy(d, s, run, k)
    ensures Run(d, s, run).queue == []
    decreases |run|
  {
    if run == [] {
      assert QueueLinked(s);
      if s.queue != [] {
        SomeMember(s.queue);
      }
    } else {
      var l := run[0];
      var t := Apply(d, s, l);
      BalancedStep(d, s, l);
      if l.TryMiss? {
        OneMoreBusy(t.reqs, l.r);
      }
      assert NobodyMissed(t);
      EnoughPermits(d, t, run[1..], k);
    }
  }

  // ---------- At most one more in progress ----------

  ghost predicate AtMostOneWaits(s: State) {
    forall a: nat, b: nat :: a < b < |s.reqs| ==> !(Waits(s, a) && Waits(s, b))
  }

  lemma AtMostOneWaitsStep(d: Discipline, s: State, l: Step)
    requires Balanced(s) && AtMostOneWaits(s) && Enabled(s, l) && Busy(Apply(d, s, l).reqs) <= s.max + 1
    ensures AtMostOneWaits(Apply(d, s, l))
  {
    var t := Apply(d, s, l);
    forall a: nat, b: nat | a < b < |t.reqs| && Waits(t, a) && Waits(t, b)
      ensures false
    {
      BalancedStep(d, s, l);
      if l.TryMiss? {
        WaitersLackPermits(t, a);
        WaitersLackPermits(t, b);
        TwoMoreBusy(t.reqs, a, b);
      } else {
        WaitedBefore(d, s, l, a);
        WaitedBefore(d, s, l, b);
      }
    }
  }

  lemma WaitedBefore(d: Discipline, s: State, l: Step, r: nat)
    requires Enabled(s, l) && !l.TryMiss? && r < |s.reqs| && Waits(Apply(d, s, l), r)
    ensures Waits(s, r)
  {
    if r in Apply(d, s, l).queue {
      QueueShrinks(d, s, l, r);
    }
  }

  // ---------- Taking every permit ----------

  /** The requests from `i` on take `k` permits. */
  function Hits(i: nat, k: nat): seq<Step>
    decreases k
  {
    if k == 0 then [] else [TryHit(i)] + Hits(i + 1, k - 1)
  }

  lemma {:induction false} TakeAll(d: Discipline, s: State, i: nat, k: nat)
    requires |s.sem| == k && i + k <= |s.reqs| && forall r :: i <= r < i + k ==> s.reqs[r].stage == Idle
    ensures CanRun(d, s, Hits(i, k))
    ensures var t := Run(d, s, Hits(i, k));
            && t.sem == [] && t.queue == s.queue && t.max == s.max && |t.reqs| == |s.reqs|
            && forall r :: 0 <= r < |s.reqs| ==>
                 t.reqs[r] == if i <= r < i + k then s.reqs[r].(stage := Holding) else s.reqs[r]
    decreases k
  {
    if k == 0 {
    } else {
      TakeAll(d, Apply(d, s, TryHit(i)), i + 1, k - 1);
      StepFirst(d, s, TryHit(i), Hits(i + 1, k - 1));
    }
  }

  lemma {:induction false} OnlyHits(i: nat, k: nat)
    ensures forall l :: l in Hits(i, k) ==> l.TryHit? && l.r < i + k
    decreases k
  {
    if k == 0 {
    } else {
      OnlyHits(i + 1, k - 1);
    }
  }

  /** The first requests have all permits; the others have not called. */
  ghost predicate AllTaken(s: State) {
    && s.sem == [] && s.queue == [] && 0 < s.max < |s.reqs|
    && forall r :: 0 <= r < |s.reqs| ==>
         && s.reqs[r].timer == Unborn && !s.reqs[r].done && s.reqs[r].ch == []
         && s.reqs[r].stage == if r < s.max then Holding else Idle
  }

  lemma AllTakenAtFirst(d: Discipline, s: State)
    requires Init(s) && 0 < s.max < |s.reqs|
    ensures CanRun(d, s, Hits(0, s.max))
    ensures var t := Run(d, s, Hits(0, s.max));
            && AllTaken(t) && t.max == s.max && |t.reqs| == |s.reqs|
            && forall r :: 0 <= r < |s.reqs| ==> t.reqs[r].priority == s.reqs[r].priority
  {
    TakeAll(d, s, 0, s.max);
  }
}
