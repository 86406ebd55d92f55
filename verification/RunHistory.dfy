/**
 What the stamps in a state of the admission machine mean, in terms of the steps that led to it: a
 waiter carries the clock of its own failed try, and step numbers are positions in the run.
 */
module RunHistory {
  import opened BinaryHeap
  import opened Ageing
  import opened QueueDiscipline
  import opened Admission
  import opened AdmissionSafety
  import opened AdmissionTheorems
  import opened LostWakeup

  /** The `k`-th step is the failed try of `r`. */
  predicate MissAt(run: seq<Step>, k: int, r: nat) {
    0 <= k < |run| && run[k].TryMiss? && run[k].r == r
  }

  /** The state before the `k`-th step. */
  function StateAt(d: Discipline, s: State, run: seq<Step>, k: nat): State
    requires CanRun(d, s, run) && k <= |run|
    decreases |run|
  {
    if k == 0 then s else StateAt(d, Apply(d, s, run[0]), run[1..], k - 1)
  }

  // ---------- One step ----------

  /** Nobody's priority changes; a stamp changes only by the failed try or the push of its own request. */
  lemma StampsMove(d: Discipline, s: State, l: Step, r: nat)
    requires Enabled(s, l) && r < |s.reqs|
    ensures var q, p := Apply(d, s, l).reqs[r], s.reqs[r];
            && Apply(d, s, l).now == s.now + 1 && |Apply(d, s, l).reqs| == |s.reqs| && q.priority == p.priority
            && (l.TryMiss? && l.r == r ==> q.enqueuedAt == l.clock && q.tryAt == s.now)
            && (!(l.TryMiss? && l.r == r) ==> q.enqueuedAt == p.enqueuedAt && q.tryAt == p.tryAt)
            && q.pushAt == if l == PushWaiter(r) then s.now else p.pushAt
  {
  }

  /** How far a request has come: it tries once, and pushes once. */
  lemma StageMoves(d: Discipline, s: State, l: Step, r: nat)
    requires Enabled(s, l) && r < |s.reqs|
    ensures var q, p := Apply(d, s, l).reqs[r], s.reqs[r];
            && (p.stage != Idle ==> q.stage != Idle)
            && (p.stage !in {Idle, Missed} ==> q.stage !in {Idle, Missed})
            && (l.TryMiss? && l.r == r ==> q.stage == Missed)
            && (l == PushWaiter(r) ==> p.stage == Missed && q.stage == Queued)
            && (q.stage == Missed && p.stage != Missed ==> l.TryMiss? && l.r == r)
            && (q.timer != Unborn && p.timer == Unborn ==> l == PushWaiter(r))
  {
  }

  // ---------- Whole runs ----------

  lemma {:induction false} StepsAreCounted(d: Discipline, s: State, run: seq<Step>, r: nat)
    requires CanRun(d, s, run) && r < |s.reqs|
    ensures var t := Run(d, s, run);
            t.now == s.now + |run| && |t.reqs| == |s.reqs| && t.reqs[r].priority == s.reqs[r].priority
    decreases |run|
  {
    if run == [] {
    } else {
      StampsMove(d, s, run[0], r);
      StepsAreCounted(d, Apply(d, s, run[0]), run[1..], r);
    }
  }

  /** A request that is past its try keeps its stamp. */
  lemma {:induction false} NoSecondMiss(d: Discipline, s: State, run: seq<Step>, r: nat)
    requires CanRun(d, s, run) && r < |s.reqs| && s.reqs[r].stage != Idle
    ensures var t := Run(d, s, run);
            |t.reqs| == |s.reqs| && t.reqs[r].enqueuedAt == s.reqs[r].enqueuedAt && t.reqs[r].tryAt == s.reqs[r].tryAt
    decreases |run|
  {
    if run == [] {
    } else {
      StampsMove(d, s, run[0], r);
      StageMoves(d, s, run[0], r);
      NoSecondMiss(d, Apply(d, s, run[0]), run[1..], r);
    }
  }

  lemma {:induction false} NoSecondPush(d: Discipline, s: State, run: seq<Step>, r: nat)
    requires CanRun(d, s, run) && r < |s.reqs| && s.reqs[r].stage !in {Idle, Missed}
    ensures var t := Run(d, s, run); |t.reqs| == |s.reqs| && t.reqs[r].pushAt == s.reqs[r].pushAt
    decreases |run|
  {
    if run == [] {
    } else {
      StampsMove(d, s, run[0], r);
      StageMoves(d, s, run[0], r);
      NoSecondPush(d, Apply(d, s, run[0]), run[1..], r);
    }
  }

  /** From the step of the failed try on, a request carries that step's clock and number. */
  lemma {:induction false} StampOfMiss(d: Discipline, s: State, run: seq<Step>, k: nat, r: nat)
    requires CanRun(d, s, run) && r < |s.reqs| && MissAt(run, k, r)
    ensures var t := Run(d, s, run);
            |t.reqs| == |s.reqs| && t.reqs[r].enqueuedAt == run[k].clock && t.reqs[r].tryAt == s.now + k
    decreases |run|
  {
    var u := Apply(d, s, run[0]);
    StampsMove(d, s, run[0], r);
    if k == 0 {
      StageMoves(d, s, run[0], r);
      NoSecondMiss(d, u, run[1..], r);
    } else {
      assert run[1..][k - 1] == run[k];
      StampOfMiss(d, u, run[1..], k - 1, r);
    }
  }

  lemma {:induction false} NumberOfPush(d: Discipline, s: State, run: seq<Step>, k: nat, r: nat)
    requires CanRun(d, s, run) && r < |s.reqs| && k < |run| && run[k] == PushWaiter(r)
    ensures var t := Run(d, s, run); |t.reqs| == |s.reqs| && t.reqs[r].pushAt == s.now + k
    decreases |run|
  {
    var u := Apply(d, s, run[0]);
    StampsMove(d, s, run[0], r);
    if k == 0 {
      StageMoves(d, s, run[0], r);
      NoSecondPush(d, u, run[1..], r);
    } else {
      assert run[1..][k - 1] == run[k];
      NumberOfPush(d, u, run[1..], k - 1, r);
    }
  }

  /** Who has a waiter has pushed it. */
  lemma {:induction false} PushedInRun(d: Discipline, s: State, run: seq<Step>, r: nat)
    requires CanRun(d, s, run) && r < |s.reqs| && s.reqs[r].timer == Unborn
    requires r < |Run(d, s, run).reqs| && Run(d, s, run).reqs[r].timer != Unborn
    ensures exists k :: 0 <= k < |run| && run[k] == PushWaiter(r)
    decreases |run|
  {
    StampsMove(d, s, run[0], r);
    StageMoves(d, s, run[0], r);
    if run[0] == PushWaiter(r) {
      assert run[0] == PushWaiter(r);
    } else {
      PushedInRun(d, Apply(d, s, run[0]), run[1..], r);
      var k :| 0 <= k < |run[1..]| && run[1..][k] == PushWaiter(r);
      assert run[k + 1] == PushWaiter(r);
    }
  }

  /** Who has pushed, or is about to, has failed its try before. */
  lemma {:induction false} MissedInRun(d: Discipline, s: State, run: seq<Step>, r: nat)
    requires CanRun(d, s, run) && r < |s.reqs| && s.reqs[r].timer == Unborn && s.reqs[r].stage != Missed
    requires r < |Run(d, s, run).reqs|
    requires Run(d, s, run).reqs[r].timer != Unborn || Run(d, s, run).reqs[r].stage == Missed
    ensures exists k :: MissAt(run, k, r)
    decreases |run|
  {
    StampsMove(d, s, run[0], r);
    StageMoves(d, s, run[0], r);
    if MissAt(run, 0, r) {
      assert MissAt(run, 0, r);
    } else {
      MissedInRun(d, Apply(d, s, run[0]), run[1..], r);
      var k :| MissAt(run[1..], k, r);
      assert MissAt(run, k + 1, r);
    }
  }

  /**
   In every run, a request that missed did so in exactly one step, and carries that step's clock ever
   after; its priority is the one it came with.
   */
  lemma StampIsClockOfMiss(d: Discipline, s: State, run: seq<Step>, r: nat)
    requires Init(s) && CanRun(d, s, run) && r < |s.reqs|
    ensures var t := Run(d, s, run);
            && |t.reqs| == |s.reqs| && t.reqs[r].priority == s.reqs[r].priority
            && (forall k :: MissAt(run, k, r) ==> t.reqs[r].enqueuedAt == run[k].clock)
            && (forall i, j :: MissAt(run, i, r) && MissAt(run, j, r) ==> i == j)
            && (t.reqs[r].timer != Unborn || t.reqs[r].stage == Missed ==> exists k :: MissAt(run, k, r))
  {
    StepsAreCounted(d, s, run, r);
    forall k | MissAt(run, k, r)
      ensures Run(d, s, run).reqs[r].enqueuedAt == run[k].clock && Run(d, s, run).reqs[r].tryAt == s.now + k
    {
      StampOfMiss(d, s, run, k, r);
    }
    var t := Run(d, s, run);
    if t.reqs[r].timer != Unborn || t.reqs[r].stage == Missed {
      MissedInRun(d, s, run, r);
    }
  }

  /**
   On a heap, the popped waiter has the greatest priority plus a tenth of the seconds since its own
   failed try, at every instant.
   */
  lemma PopsGreatestByArrival(s: State, run: seq<Step>, r: nat, v: nat, now: real)
    requires Init(s) && CanRun(Hrn, s, run)
    requires var t := Run(Hrn, s, run); Enabled(t, LockAndPop(r)) && v in t.queue
    ensures var t := Run(Hrn, s, run);
            var g := Apply(Hrn, t, LockAndPop(r)).reqs[r].stage;
            && g.Popped? && g.target in t.queue && g.target < |s.reqs| && v < |s.reqs|
            && (exists i :: MissAt(run, i, g.target)) && (exists j :: MissAt(run, j, v))
            && forall i, j :: MissAt(run, i, g.target) && MissAt(run, j, v) ==>
                 s.reqs[v].priority + (now - run[j].clock) / 10.0
                   <= s.reqs[g.target].priority + (now - run[i].clock) / 10.0
  {
    var t := Run(Hrn, s, run);
    PopsGreatestPriority(s, run, r, v, now);
    var w := Apply(Hrn, t, LockAndPop(r)).reqs[r].stage.target;
    InvInit(s);
    InvRun(Hrn, s, run);
    ConservedRun(Hrn, s, run);
    assert QueueLinked(t);
    StampIsClockOfMiss(Hrn, s, run, v);
    StampIsClockOfMiss(Hrn, s, run, w);
  }

  // ---------- Deposits ----------

  /** The Release of `r` found the queue empty in the `a`-th step, and this is the number it remembers. */
  ghost predicate CheckedAt(d: Discipline, s: State, run: seq<Step>, p: Permit, a: int, r: nat)
    requires CanRun(d, s, run)
  {
    && 0 <= a < |run| && run[a] == LockAndPop(r) && StateAt(d, s, run, a).queue == []
    && p.Deposited? && p.checkAt == s.now + a
  }

  /** The permit was put there by `r` in the `b`-th step, after an empty check in or before this run. */
  ghost predicate PutBy(d: Discipline, s: State, run: seq<Step>, p: Permit, b: int, r: nat)
    requires CanRun(d, s, run)
  {
    && 0 <= b < |run| && run[b] == Deposit(r) && r < |s.reqs| && p.Deposited? && p.depositAt == s.now + b
    && (s.reqs[r].stage == Depositing(p.checkAt) || exists a :: a < b && CheckedAt(d, s, run, p, a, r))
  }

  lemma PutLater(d: Discipline, s: State, run: seq<Step>, p: Permit, b: int, r: nat)
    requires CanRun(d, s, run) && run != [] && PutBy(d, Apply(d, s, run[0]), run[1..], p, b, r)
    ensures PutBy(d, s, run, p, b + 1, r)
  {
    var u := Apply(d, s, run[0]);
    assert run[1..][b] == run[b + 1] && u.now == s.now + 1 && |u.reqs| == |s.reqs|;
    if u.reqs[r].stage == Depositing(p.checkAt) {
      if s.reqs[r].stage != Depositing(p.checkAt) {
        CheckIsThisStep(d, s, run[0], r, p.checkAt);
        assert CheckedAt(d, s, run, p, 0, r);
      }
    } else {
      var a :| a < b && CheckedAt(d, u, run[1..], p, a, r);
      assert run[1..][a] == run[a + 1];
      assert StateAt(d, s, run, a + 1) == StateAt(d, u, run[1..], a);
      assert CheckedAt(d, s, run, p, a + 1, r);
    }
  }

  lemma CheckIsThisStep(d: Discipline, s: State, l: Step, r: nat, checkAt: nat)
    requires Enabled(s, l) && r < |s.reqs| && s.reqs[r].stage != Depositing(checkAt)
    requires Apply(d, s, l).reqs[r].stage == Depositing(checkAt)
    ensures l == LockAndPop(r) && s.queue == [] && checkAt == s.now
  {
  }

  lemma NewPermit(d: Discipline, s: State, l: Step, p: Permit)
    requires Enabled(s, l) && p in Apply(d, s, l).sem && p !in s.sem
    ensures l.Deposit? && s.reqs[l.r].stage.Depositing? && p == Deposited(s.reqs[l.r].stage.checkAt, s.now)
  {
  }

  lemma {:induction false} PermitWasPut(d: Discipline, s: State, run: seq<Step>, p: Permit)
    requires CanRun(d, s, run) && p in Run(d, s, run).sem && p !in s.sem
    ensures exists b, r: nat :: PutBy(d, s, run, p, b, r)
    decreases |run|
  {
    var u := Apply(d, s, run[0]);
    if p in u.sem {
      NewPermit(d, s, run[0], p);
      assert PutBy(d, s, run, p, 0, run[0].r);
    } else {
      PermitWasPut(d, u, run[1..], p);
      var b, r: nat :| PutBy(d, u, run[1..], p, b, r);
      PutLater(d, s, run, p, b, r);
    }
  }

  /**
   The window, in the steps of the run: if a permit is free while `w` is queued, then `w` failed its try
   in a step `i` and was pushed in a later step `j`; and a Release found the queue empty in a step `a`
   before that push, and deposited the permit in a step `b` after that try.
   */
  lemma WindowInRun(d: Discipline, s: State, run: seq<Step>, p: Permit, w: nat)
    requires Init(s) && CanRun(d, s, run)
    requires p in Run(d, s, run).sem && w in Run(d, s, run).queue
    ensures exists i, j, a, b, r: nat ::
              && MissAt(run, i, w) && 0 <= j < |run| && run[j] == PushWaiter(w)
              && CheckedAt(d, s, run, p, a, r) && 0 <= b < |run| && run[b] == Deposit(r)
              && i < j && a < b && a < j && i < b
  {
    FreePermitBesideWaiter(d, s, run, p, w);
    var t := Run(d, s, run);
    assert QueueLinked(t) && |t.reqs| == |s.reqs| by {
      InvInit(s);
      InvRun(d, s, run);
      ConservedRun(d, s, run);
    }
    MissedInRun(d, s, run, w);
    PushedInRun(d, s, run, w);
    var i :| MissAt(run, i, w);
    var j :| 0 <= j < |run| && run[j] == PushWaiter(w);
    StampOfMiss(d, s, run, i, w);
    NumberOfPush(d, s, run, j, w);
    PermitWasPut(d, s, run, p);
    var b, r: nat :| PutBy(d, s, run, p, b, r);
    assert IsNew(s.reqs[r]);
    var a :| a < b && CheckedAt(d, s, run, p, a, r);
  }
}
