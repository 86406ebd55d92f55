/**
 A permit can lie in the channel while a waiter is queued. This module says in which window of
 `Acquire` against `Release` that happens, and for which numbers of permits and requests. The window
 consists of two gaps, between a failed try and its push and between an empty check and its deposit;
 closing both rules it out, closing either alone does not.
 */
module LostWakeup {
  import opened QueueDiscipline
  import opened Admission
  import opened AdmissionSafety
  import opened AdmissionTheorems
  import opened Saturation

  // ---------- The window ----------

  /** Stamps lie in the past, and every waiter tried before it was pushed. */
  ghost predicate Stamped(s: State, w: nat)
    requires w < |s.reqs|
  {
    var q := s.reqs[w];
    && q.tryAt < s.now && q.pushAt < s.now && 0 < s.now
    && (q.stage.Depositing? ==> q.stage.checkAt < s.now)
    && (q.stage == Missed || q.timer != Unborn ==> 0 < q.tryAt)
    && (q.timer != Unborn ==> q.tryAt < q.pushAt)
  }

  /** A permit now in the channel was deposited after every failed try so far. */
  ghost predicate DepositedSince(s: State, p: Permit) {
    && (p.Deposited? ==> p.checkAt < p.depositAt < s.now)
    && forall w :: 0 <= w < |s.reqs| && s.reqs[w].tryAt > 0 ==> p.Deposited? && s.reqs[w].tryAt < p.depositAt
  }

  /** A waiter now in the queue was pushed after every empty-queue check that is behind a permit. */
  ghost predicate PushedSince(s: State, w: nat)
    requires w < |s.reqs|
  {
    && (forall p :: p in s.sem && p.Deposited? ==> p.checkAt < s.reqs[w].pushAt)
    && (forall r :: 0 <= r < |s.reqs| && s.reqs[r].stage.Depositing? ==> s.reqs[r].stage.checkAt < s.reqs[w].pushAt)
  }

  ghost predicate WindowInv(s: State) {
    && Inv(s)
    && (forall w: nat :: w < |s.reqs| ==> Stamped(s, w))
    && (forall p :: p in s.sem ==> DepositedSince(s, p))
    && (forall w :: w in s.queue ==> PushedSince(s, w))
  }

  lemma StampedStep(d: Discipline, s: State, l: Step, w: nat)
    requires Enabled(s, l) && w < |s.reqs| && Stamped(s, w) && Local(s.reqs[l.r])
    ensures Stamped(Apply(d, s, l), w)
  {
  }

  lemma DepositedStep(d: Discipline, s: State, l: Step, p: Permit)
    requires WindowInv(s) && Enabled(s, l) && p in Apply(d, s, l).sem
    ensures DepositedSince(Apply(d, s, l), p)
  {
    assert Stamped(s, l.r);
    if p in s.sem {
      assert DepositedSince(s, p);
    } else {
      forall w: nat | w < |s.reqs|
        ensures Apply(d, s, l).reqs[w].tryAt < s.now
      {
        assert Stamped(s, w);
      }
    }
  }

  lemma PushedStep(d: Discipline, s: State, l: Step, w: nat)
    requires WindowInv(s) && Enabled(s, l) && w in Apply(d, s, l).queue && w < |s.reqs|
    ensures PushedSince(Apply(d, s, l), w)
  {
    QueueShrinks(d, s, l, w);
    assert Stamped(s, l.r);
    if l == PushWaiter(w) {
      forall r: nat | r < |s.reqs|
        ensures s.reqs[r].stage.Depositing? ==> s.reqs[r].stage.checkAt < s.now
      {
        assert Stamped(s, r);
      }
      assert forall p :: p in s.sem ==> DepositedSince(s, p);
    } else {
      assert PushedSince(s, w);
    }
  }

  lemma {:induction false} WindowRun(d: Discipline, s: State, run: seq<Step>)
    requires WindowInv(s) && CanRun(d, s, run)
    ensures WindowInv(Run(d, s, run))
    decreases |run|
  {
    if run == [] {
    } else {
      var l := run[0];
      var t := Apply(d, s, l);
      InvStep(d, s, l);
      forall w: nat | w < |t.reqs|
        ensures Stamped(t, w)
      {
        assert Stamped(s, w) && Local(s.reqs[l.r]);
        StampedStep(d, s, l, w);
      }
      forall p | p in t.sem
        ensures DepositedSince(t, p)
      {
        DepositedStep(d, s, l, p);
      }
      forall w | w in t.queue
        ensures PushedSince(t, w)
      {
        PushedStep(d, s, l, w);
      }
      WindowRun(d, t, run[1..]);
    }
  }

  /**
   If a permit `p` is free while a waiter `w` is queued, then `p` was put there by a Release; `w`
   failed its try before that deposit, and was pushed after that Release had found the queue empty.
   */
  lemma FreePermitBesideWaiter(d: Discipline, s: State, run: seq<Step>, p: Permit, w: nat)
    requires Init(s) && CanRun(d, s, run)
    requires p in Run(d, s, run).sem && w in Run(d, s, run).queue
    ensures var t := Run(d, s, run);
            && w < |t.reqs| && p.Deposited?
            && 0 < t.reqs[w].tryAt < p.depositAt < t.now
            && p.checkAt < t.reqs[w].pushAt < t.now
            && t.reqs[w].tryAt < t.reqs[w].pushAt && p.checkAt < p.depositAt
  {
    InvInit(s);
    assert forall p :: p in s.sem ==> p == Initial;
    WindowRun(d, s, run);
    var t := Run(d, s, run);
    assert QueueLinked(t) && DepositedSince(t, p) && PushedSince(t, w) && Stamped(t, w);
  }

  // ---------- Closing the gaps ----------

  /** Which pairs of steps are one: a failed try and its push, an empty check and its deposit. */
  datatype Fusion = Fusion(tryPush: bool, checkDeposit: bool)

  /** A step that begins a fused pair is followed at once by the other. */
  predicate Adjacent(f: Fusion, s: State, l: Step, rest: seq<Step>) {
    && (f.tryPush && l.TryMiss? ==> rest != [] && rest[0] == PushWaiter(l.r))
    && (f.checkDeposit && l.LockAndPop? && s.queue == [] ==> rest != [] && rest[0] == Deposit(l.r))
  }

  /** The runs of a queue in which these pairs are fused. */
  predicate CanFused(d: Discipline, f: Fusion, s: State, run: seq<Step>)
    decreases |run|
  {
    run == [] || (
      && Enabled(s, run[0]) && Adjacent(f, s, run[0], run[1..])
      && CanFused(d, f, Apply(d, s, run[0]), run[1..]))
  }

  lemma {:induction false} FusedIsRun(d: Discipline, f: Fusion, s: State, run: seq<Step>)
    requires CanFused(d, f, s, run)
    ensures CanRun(d, s, run)
    decreases |run|
  {
    if run == [] {
    } else {
      FusedIsRun(d, f, Apply(d, s, run[0]), run[1..]);
    }
  }

  /** Without fusion these are all runs; and steps that begin no pair are never restricted. */
  lemma {:induction false} RunIsFused(d: Discipline, f: Fusion, s: State, run: seq<Step>)
    requires CanRun(d, s, run)
    requires f == Fusion(false, false) || forall l :: l in run ==> !l.TryMiss? && !l.LockAndPop?
    ensures CanFused(d, f, s, run)
    decreases |run|
  {
    if run == [] {
    } else {
      assert run[0] in run;
      RunIsFused(d, f, Apply(d, s, run[0]), run[1..]);
    }
  }

  lemma FusedFirst(d: Discipline, f: Fusion, s: State, l: Step, rest: seq<Step>)
    requires Enabled(s, l) && Adjacent(f, s, l, rest) && CanFused(d, f, Apply(d, s, l), rest)
    ensures CanFused(d, f, s, [l] + rest) && CanRun(d, s, [l] + rest) && CanRun(d, Apply(d, s, l), rest)
    ensures Run(d, s, [l] + rest) == Run(d, Apply(d, s, l), rest)
  {
    FusedIsRun(d, f, Apply(d, s, l), rest);
    StepFirst(d, s, l, rest);
    assert ([l] + rest)[1..] == rest;
  }

  lemma AdjacentStill(f: Fusion, s: State, a: seq<Step>, b: seq<Step>)
    requires a != [] && Adjacent(f, s, a[0], a[1..])
    ensures Adjacent(f, s, a[0], a[1..] + b)
  {
    assert a[1..] != [] ==> (a[1..] + b)[0] == a[1..][0];
  }

  lemma {:induction false} FusedTogether(d: Discipline, f: Fusion, s: State, a: seq<Step>, b: seq<Step>)
    requires CanFused(d, f, s, a) && CanRun(d, s, a) && CanFused(d, f, Run(d, s, a), b)
    ensures CanFused(d, f, s, a + b)
    decreases |a|
  {
    if a == [] {
      assert a + b == b;
    } else {
      HeadFirst(a, b);
      AdjacentStill(f, s, a, b);
      FusedTogether(d, f, Apply(d, s, a[0]), a[1..], b);
      FusedFirst(d, f, s, a[0], a[1..] + b);
    }
  }

  lemma FusedInParts(d: Discipline, f: Fusion, s: State, a: seq<Step>, b: seq<Step>)
    requires CanFused(d, f, s, a) && CanRun(d, s, a) && CanFused(d, f, Run(d, s, a), b)
    ensures CanFused(d, f, s, a + b) && CanRun(d, s, a + b)
    ensures CanRun(d, Run(d, s, a), b) && Run(d, s, a + b) == Run(d, Run(d, s, a), b)
  {
    FusedTogether(d, f, s, a, b);
    FusedIsRun(d, f, Run(d, s, a), b);
    RunInParts(d, s, a, b);
  }

  /** No permit lies free while somebody is queued. */
  predicate NoIdlePermit(s: State) {
    s.sem == [] || s.queue == []
  }

  /** Nobody is between the two steps of a pair. */
  ghost predicate BetweenPairs(s: State) {
    NoIdlePermit(s) && forall r: nat :: r < |s.reqs| ==> s.reqs[r].stage != Missed && !s.reqs[r].stage.Depositing?
  }

  lemma PairStep(d: Discipline, s: State, l: Step)
    requires BetweenPairs(s) && Enabled(s, l) && !l.TryMiss? && (l.LockAndPop? ==> s.queue != [])
    ensures BetweenPairs(Apply(d, s, l))
  {
    var t := Apply(d, s, l);
    if t.queue != [] {
      QueueShrinks(d, s, l, t.queue[0]);
    }
  }

  /** With both gaps closed, a free permit means that nobody is queued. */
  lemma {:induction false} AtomicQueueWastesNothing(d: Discipline, s: State, run: seq<Step>)
    requires BetweenPairs(s) && CanFused(d, Fusion(true, true), s, run)
    ensures CanRun(d, s, run) && BetweenPairs(Run(d, s, run))
    decreases |run|
  {
    if run == [] {
    } else {
      var l := run[0];
      var t := Apply(d, s, l);
      if l.TryMiss? || (l.LockAndPop? && s.queue == []) {
        assert run[1..][0] == run[1];
        AtomicQueueWastesNothing(d, Apply(d, t, run[1]), run[1..][1..]);
      } else {
        PairStep(d, s, l);
        AtomicQueueWastesNothing(d, t, run[1..]);
      }
    }
  }

  // ---------- When the window is real ----------

  /** The requests from `i` on give `k` permits back, finding nobody queued. */
  function GiveBack(i: nat, k: nat): seq<Step>
    decreases k
  {
    if k == 0 then [] else [BeginRelease(i)] + ([LockAndPop(i)] + ([Deposit(i)] + GiveBack(i + 1, k - 1)))
  }

  /** The three steps, in front of any others. */
  function OneBack(i: nat, rest: seq<Step>): seq<Step> {
    [BeginRelease(i)] + ([LockAndPop(i)] + ([Deposit(i)] + rest))
  }

  lemma OneBackFirst(d: Discipline, f: Fusion, s: State, i: nat, t: State, rest: seq<Step>)
    requires s.queue == [] && |s.sem| < s.max && i < |s.reqs| && s.reqs[i].stage == Holding
    requires t == Apply(d, Apply(d, Apply(d, s, BeginRelease(i)), LockAndPop(i)), Deposit(i))
    requires CanFused(d, f, t, rest)
    ensures CanFused(d, f, s, OneBack(i, rest)) && CanRun(d, s, OneBack(i, rest)) && CanRun(d, t, rest)
    ensures Run(d, s, OneBack(i, rest)) == Run(d, t, rest)
  {
    var s1 := Apply(d, s, BeginRelease(i));
    var s2 := Apply(d, s1, LockAndPop(i));
    FusedFirst(d, f, s2, Deposit(i), rest);
    FusedFirst(d, f, s1, LockAndPop(i), [Deposit(i)] + rest);
    FusedFirst(d, f, s, BeginRelease(i), [LockAndPop(i)] + ([Deposit(i)] + rest));
  }

  /** One request with a permit gives it back, finding nobody queued. */
  lemma GiveOneBack(d: Discipline, f: Fusion, s: State, i: nat) returns (t: State)
    requires s.queue == [] && |s.sem| < s.max && i < |s.reqs| && s.reqs[i].stage == Holding
    ensures t.queue == [] && |t.sem| == |s.sem| + 1 && t.max == s.max
    ensures t.reqs == s.reqs[i := s.reqs[i].(stage := Finished)]
    ensures forall rest :: CanFused(d, f, t, rest) ==>
              && CanFused(d, f, s, OneBack(i, rest)) && CanRun(d, s, OneBack(i, rest)) && CanRun(d, t, rest)
              && Run(d, s, OneBack(i, rest)) == Run(d, t, rest)
  {
    t := Apply(d, Apply(d, Apply(d, s, BeginRelease(i)), LockAndPop(i)), Deposit(i));
    forall rest | CanFused(d, f, t, rest)
      ensures CanFused(d, f, s, OneBack(i, rest)) && CanRun(d, s, OneBack(i, rest)) && CanRun(d, t, rest)
      ensures Run(d, s, OneBack(i, rest)) == Run(d, t, rest)
    {
      OneBackFirst(d, f, s, i, t, rest);
    }
  }

  lemma {:induction false} GiveAllBack(d: Discipline, f: Fusion, s: State, i: nat, k: nat)
    requires s.queue == [] && |s.sem| + k == s.max && i + k <= |s.reqs|
    requires forall r :: i <= r < i + k ==> s.reqs[r].stage == Holding
    ensures CanFused(d, f, s, GiveBack(i, k)) && CanRun(d, s, GiveBack(i, k))
    ensures var t := Run(d, s, GiveBack(i, k));
            && |t.sem| == s.max == t.max && t.queue == [] && |t.reqs| == |s.reqs|
            && forall r :: 0 <= r < |s.reqs| ==>
                 t.reqs[r] == if i <= r < i + k then s.reqs[r].(stage := Finished) else s.reqs[r]
    decreases k
  {
    if k == 0 {
    } else {
      var t := GiveOneBack(d, f, s, i);
      GiveAllBack(d, f, t, i + 1, k - 1);
      assert GiveBack(i, k) == OneBack(i, GiveBack(i + 1, k - 1));
    }
  }

  lemma TakenByFirst(d: Discipline, f: Fusion, s: State)
    requires Init(s) && 0 < s.max < |s.reqs|
    ensures CanFused(d, f, s, Hits(0, s.max)) && CanRun(d, s, Hits(0, s.max))
    ensures AllTaken(Run(d, s, Hits(0, s.max))) && Run(d, s, Hits(0, s.max)).max == s.max
  {
    AllTakenAtFirst(d, s);
    OnlyHits(0, s.max);
    RunIsFused(d, f, s, Hits(0, s.max));
  }

  /** What the race leaves: every permit free, and request `w` waiting. */
  ghost predicate Wasted(s: State, w: nat) {
    && |s.sem| == s.max > 0 && s.queue == [w] && w < |s.reqs|
    && s.reqs[w].stage == Queued && s.reqs[w].timer == Armed && !s.reqs[w].done && s.reqs[w].ch == []
    && forall r :: 0 <= r < |s.reqs| && r != w ==>
         s.reqs[r].timer == Unborn && s.reqs[r].stage == if r < w then Finished else Idle
  }

  lemma OnlyOne(q: seq<nat>, w: nat)
    requires multiset(q) == multiset{w}
    ensures q == [w]
  {
    assert |multiset(q)| == |q| == 1;
    assert q[0] in multiset(q);
  }

  lemma FirstPush(d: Discipline, s: State, w: nat)
    requires Enabled(s, PushWaiter(w)) && s.queue == []
    ensures Apply(d, s, PushWaiter(w)).queue == [w]
  {
    EnqAdds(d, s.queue, RankAt(s.reqs), w);
    OnlyOne(Enq(d, s.queue, RankAt(s.reqs), w), w);
  }

  /** All requests with permits release between the failed try of the next one and its push. */
  function Slow(max: nat): seq<Step> {
    [TryMiss(max, 0.0)] + (GiveBack(0, max) + [PushWaiter(max)])
  }

  function Race(max: nat): seq<Step> {
    Hits(0, max) + Slow(max)
  }

  lemma FreedBeforePush(d: Discipline, f: Fusion, s: State)
    requires AllTaken(s)
    ensures var missed := Apply(d, s, TryMiss(s.max, 0.0));
            && CanFused(d, f, missed, GiveBack(0, s.max)) && CanRun(d, missed, GiveBack(0, s.max))
            && var t := Run(d, missed, GiveBack(0, s.max));
            && t.max == s.max && Enabled(t, PushWaiter(s.max)) && Wasted(Apply(d, t, PushWaiter(s.max)), s.max)
  {
    var missed := Apply(d, s, TryMiss(s.max, 0.0));
    GiveAllBack(d, f, missed, 0, s.max);
    FirstPush(d, Run(d, missed, GiveBack(0, s.max)), s.max);
  }

  lemma SlowWastes(d: Discipline, f: Fusion, s: State)
    requires AllTaken(s) && !f.tryPush
    ensures CanFused(d, f, s, Slow(s.max)) && CanRun(d, s, Slow(s.max)) && Wasted(Run(d, s, Slow(s.max)), s.max)
  {
    var w := s.max;
    var missed := Apply(d, s, TryMiss(w, 0.0));
    FreedBeforePush(d, f, s);
    LastStep(d, f, missed, GiveBack(0, w), PushWaiter(w));
    FusedFirst(d, f, s, TryMiss(w, 0.0), GiveBack(0, w) + [PushWaiter(w)]);
  }

  /** One more step that begins no pair. */
  lemma LastStep(d: Discipline, f: Fusion, s: State, run: seq<Step>, l: Step)
    requires CanFused(d, f, s, run) && CanRun(d, s, run) && Enabled(Run(d, s, run), l)
    requires !l.TryMiss? && !l.LockAndPop?
    ensures CanFused(d, f, s, run + [l]) && CanRun(d, s, run + [l])
    ensures Run(d, s, run + [l]) == Apply(d, Run(d, s, run), l)
  {
    FusedFirst(d, f, Run(d, s, run), l, []);
    assert [l] + [] == [l];
    FusedInParts(d, f, s, run, [l]);
  }

  /** The race is a run of any queue in which try and push are two steps. */
  lemma RaceWastes(d: Discipline, s: State, f: Fusion)
    requires Init(s) && 0 < s.max < |s.reqs| && !f.tryPush
    ensures CanFused(d, f, s, Race(s.max)) && CanRun(d, s, Race(s.max))
    ensures Wasted(Run(d, s, Race(s.max)), s.max)
  {
    TakenByFirst(d, f, s);
    SlowWastes(d, f, Run(d, s, Hits(0, s.max)));
    FusedInParts(d, f, s, Hits(0, s.max), Slow(s.max));
  }

  /**
   As soon as there are more requests than permits, some run ends with every permit free, every
   request before the waiting one finished, and no step left but the waiting one's timeout and the
   calls of requests that have yet to arrive.
   */
  lemma WakeupCanBeLost(d: Discipline, s: State)
    requires Init(s) && 0 < s.max < |s.reqs|
    ensures CanRun(d, s, Race(s.max))
    ensures var t := Run(d, s, Race(s.max));
            && |t.sem| == t.max == s.max && t.queue == [s.max] && |t.reqs| == |s.reqs|
            && t.reqs[s.max].stage == Queued && !t.reqs[s.max].done
            && (forall r :: 0 <= r < s.max ==> t.reqs[r].stage == Finished)
            && forall l :: Enabled(t, l) ==> l == TimeoutSwap(s.max) || (l.TryHit? && l.r > s.max)
  {
    RaceWastes(d, s, Fusion(false, false));
    BalancedInit(s);
    ConservedRun(d, s, Race(s.max));
    var t := Run(d, s, Race(s.max));
    forall l | Enabled(t, l)
      ensures l == TimeoutSwap(s.max) || (l.TryHit? && l.r > s.max)
    {
      assert l.r == s.max || t.reqs[l.r].timer == Unborn;
    }
  }

  /** With try and push fused, a Release that has found the queue empty deposits too late. */
  function Late(max: nat): seq<Step> {
    [BeginRelease(0)] + ([LockAndPop(0)] + ([TryMiss(max, 0.0)] + ([PushWaiter(max)] + [Deposit(0)])))
  }

  lemma MissedBeforeDeposit(d: Discipline, f: Fusion, s: State)
    requires s.sem == [] && s.queue == [] && 0 < s.max < |s.reqs|
    requires s.reqs[0].stage.Depositing? && s.reqs[s.max].stage == Idle
    ensures var tail := [TryMiss(s.max, 0.0)] + ([PushWaiter(s.max)] + [Deposit(0)]);
            CanFused(d, f, s, tail) && CanRun(d, s, tail) && !NoIdlePermit(Run(d, s, tail))
  {
    var w := s.max;
    var missed := Apply(d, s, TryMiss(w, 0.0));
    var pushed := Apply(d, missed, PushWaiter(w));
    FirstPush(d, missed, w);
    assert [Deposit(0)] + [] == [Deposit(0)];
    FusedFirst(d, f, pushed, Deposit(0), []);
    FusedFirst(d, f, missed, PushWaiter(w), [Deposit(0)]);
    FusedFirst(d, f, s, TryMiss(w, 0.0), [PushWaiter(w)] + [Deposit(0)]);
  }

  lemma LateWastes(d: Discipline, f: Fusion, s: State)
    requires AllTaken(s) && !f.checkDeposit
    ensures CanFused(d, f, s, Late(s.max)) && CanRun(d, s, Late(s.max)) && !NoIdlePermit(Run(d, s, Late(s.max)))
  {
    var s1 := Apply(d, s, BeginRelease(0));
    var s2 := Apply(d, s1, LockAndPop(0));
    var tail := [TryMiss(s.max, 0.0)] + ([PushWaiter(s.max)] + [Deposit(0)]);
    MissedBeforeDeposit(d, f, s2);
    FusedFirst(d, f, s1, LockAndPop(0), tail);
    FusedFirst(d, f, s, BeginRelease(0), [LockAndPop(0)] + tail);
  }

  lemma LateDepositWastes(d: Discipline, s: State, f: Fusion)
    requires Init(s) && 0 < s.max < |s.reqs| && !f.checkDeposit
    ensures var run := Hits(0, s.max) + Late(s.max);
            CanFused(d, f, s, run) && CanRun(d, s, run) && !NoIdlePermit(Run(d, s, run))
  {
    TakenByFirst(d, f, s);
    LateWastes(d, f, Run(d, s, Hits(0, s.max)));
    FusedInParts(d, f, s, Hits(0, s.max), Late(s.max));
  }

  lemma {:induction false} GiveBackBelow(i: nat, k: nat)
    ensures forall l :: l in GiveBack(i, k) ==> l.r < i + k
    decreases k
  {
    if k == 0 {
    } else {
      GiveBackBelow(i + 1, k - 1);
    }
  }

  /** Both runs are those of one request more than permits. */
  lemma OneTooMany(d: Discipline, s: State, k: nat)
    requires Init(s) && s.max < k
    ensures AtMostBusy(d, s, Race(s.max), k) && AtMostBusy(d, s, Hits(0, s.max) + Late(s.max), k)
  {
    OnlyHits(0, s.max);
    GiveBackBelow(0, s.max);
    FewTakePart(d, s, Race(s.max), s.max + 1, k);
    FewTakePart(d, s, Hits(0, s.max) + Late(s.max), s.max + 1, k);
  }

  /** Few enough requests, or no permits at all. */
  lemma NothingToWaste(d: Discipline, s: State, run: seq<Step>, k: nat)
    requires Init(s) && CanRun(d, s, run) && AtMostBusy(d, s, run, k)
    requires s.max == 0 || k <= s.max || |s.reqs| <= s.max
    ensures NoIdlePermit(Run(d, s, run))
  {
    BalancedInit(s);
    if s.max == 0 {
      PermitsConserved(d, s, run);
    } else if k <= s.max {
      EnoughPermits(d, s, run, k);
    } else {
      NoMoreThanAll(d, s, run);
      EnoughPermits(d, s, run, |s.reqs|);
    }
  }

  /** Runs with at most `k` requests in progress at once do not leave a permit free beside a queued one. */
  ghost predicate NothingWasted(d: Discipline, f: Fusion, s: State, k: nat) {
    forall run :: CanFused(d, f, s, run) && AtMostBusy(d, s, run, k) ==>
      CanRun(d, s, run) && NoIdlePermit(Run(d, s, run))
  }

  /**
   The exact condition. Whichever of the two gaps is closed, no run with at most `k` requests in progress
   at once leaves a permit free beside a queued request if and only if both gaps are closed, or there are
   no permits at all, or there are as many permits as requests in progress, or as requests in all. So
   closing either gap alone gains nothing.
   */
  lemma NoIdlePermitIff(d: Discipline, f: Fusion, s: State, k: nat)
    requires Init(s)
    ensures NothingWasted(d, f, s, k)
       <==> f == Fusion(true, true) || s.max == 0 || k <= s.max || |s.reqs| <= s.max
  {
    forall run | CanFused(d, f, s, run) && AtMostBusy(d, s, run, k)
      ensures CanRun(d, s, run)
      ensures f == Fusion(true, true) || s.max == 0 || k <= s.max || |s.reqs| <= s.max ==>
                NoIdlePermit(Run(d, s, run))
    {
      FusedIsRun(d, f, s, run);
      if f == Fusion(true, true) {
        AtomicQueueWastesNothing(d, s, run);
      } else if s.max == 0 || k <= s.max || |s.reqs| <= s.max {
        NothingToWaste(d, s, run, k);
      }
    }
    if f != Fusion(true, true) && 0 < s.max && s.max < k && s.max < |s.reqs| {
      OneTooMany(d, s, k);
      if f.tryPush {
        LateDepositWastes(d, s, f);
        assert !NoIdlePermit(Run(d, s, Hits(0, s.max) + Late(s.max)));
      } else {
        RaceWastes(d, s, f);
        assert !NoIdlePermit(Run(d, s, Race(s.max)));
      }
    }
  }

  /** The queues as they are, with both gaps open. */
  lemma WakeupLostIff(d: Discipline, s: State, k: nat)
    requires Init(s)
    ensures (forall run :: CanRun(d, s, run) && AtMostBusy(d, s, run, k) ==> NoIdlePermit(Run(d, s, run)))
       <==> s.max == 0 || k <= s.max || |s.reqs| <= s.max
  {
    if s.max == 0 || k <= s.max || |s.reqs| <= s.max {
      forall run | CanRun(d, s, run) && AtMostBusy(d, s, run, k)
        ensures NoIdlePermit(Run(d, s, run))
      {
        NothingToWaste(d, s, run, k);
      }
    } else {
      OneTooMany(d, s, k);
      RaceWastes(d, s, Fusion(false, false));
      assert !NoIdlePermit(Run(d, s, Race(s.max)));
    }
  }
}
