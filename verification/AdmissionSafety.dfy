/** What holds in every state that any interleaving can reach, whichever queue is used. */
module AdmissionSafety {
  import opened QueueDiscipline
  import opened Admission

  /** One request on its own: its value is sent at most once, after completion, and read at most once. */
  ghost predicate Local(q: Request) {
    && (q.stage in {Idle, Missed} ==> q.timer == Unborn)
    && (q.timer == Unborn ==> !q.done && q.stage !in {Queued, Refused})
    && (!q.done ==> q.sent == [] && q.timer in {Unborn, Armed})
    && (!q.done && q.timer == Armed ==> q.stage == Queued)
    && (q.stage == Queued ==> q.ch == q.sent)
    && (q.stage != Queued ==> q.ch == [])
    && (q.stage == Refused ==> q.sent == [false])
    && (q.timer != Unborn && q.stage !in {Queued, Refused} ==> q.sent == [true])
    && |q.sent| <= 1
    && (q.timer == Failing ==> q.done && q.sent == [])
    && (q.timer == Removing ==> q.sent == [false])
  }

  /** A Release has taken waiter `w` and not yet settled it. */
  ghost predicate Carries(g: Stage, w: nat) {
    g == Popped(w) || g == Handing(w)
  }

  /** A completed waiter is in the queue only while its timeout goroutine is about to remove it. */
  ghost predicate QueueLinked(s: State) {
    && NoDup(s.queue)
    && forall w :: w in s.queue ==>
         && w < |s.reqs| && s.reqs[w].timer != Unborn
         && (s.reqs[w].done ==> s.reqs[w].timer in {Failing, Removing})
  }

  /** A Release between pop and settlement. */
  ghost predicate CarrierLinked(s: State, r: nat)
    requires r < |s.reqs|
  {
    && (s.reqs[r].stage.Popped? ==>
          var w := s.reqs[r].stage.target;
          && w < |s.reqs| && w !in s.queue && s.reqs[w].timer != Unborn
          && (s.reqs[w].done ==> s.reqs[w].timer == Failing || s.reqs[w].sent == [false]))
    && (s.reqs[r].stage.Handing? ==>
          var w := s.reqs[r].stage.target;
          && w < |s.reqs| && w !in s.queue && s.reqs[w].timer in {Armed, Over}
          && s.reqs[w].done && s.reqs[w].sent == [])
  }

  /** No two Releases carry the same waiter. */
  ghost predicate Exclusive(s: State) {
    forall r1, r2, w ::
      (0 <= r1 < |s.reqs| && 0 <= r2 < |s.reqs|
        && Carries(s.reqs[r1].stage, w) && Carries(s.reqs[r2].stage, w)) ==> r1 == r2
  }

  ghost predicate SomePopped(s: State, w: nat) {
    exists r :: 0 <= r < |s.reqs| && s.reqs[r].stage == Popped(w)
  }

  ghost predicate SomeHanding(s: State, w: nat) {
    exists r :: 0 <= r < |s.reqs| && s.reqs[r].stage == Handing(w)
  }

  /** A live waiter is queued or popped; a completed one without its value is being sent it. */
  ghost predicate NotLost(s: State, w: nat)
    requires w < |s.reqs|
  {
    && (s.reqs[w].timer == Armed && !s.reqs[w].done ==> w in s.queue || SomePopped(s, w))
    && (s.reqs[w].done && s.reqs[w].sent == [] ==> s.reqs[w].timer == Failing || SomeHanding(s, w))
  }

  ghost predicate Inv(s: State) {
    && (forall r: nat :: r < |s.reqs| ==> Local(s.reqs[r]))
    && QueueLinked(s)
    && (forall r: nat :: r < |s.reqs| ==> CarrierLinked(s, r))
    && Exclusive(s)
    && (forall w: nat :: w < |s.reqs| ==> NotLost(s, w))
  }

  // ---------- Every step keeps the invariant ----------

  /** The request whose step it is. */
  lemma OwnStep(d: Discipline, s: State, l: Step)
    requires Enabled(s, l) && Local(s.reqs[l.r]) && CarrierLinked(s, l.r)
    ensures Local(Apply(d, s, l).reqs[l.r])
  {
  }

  lemma LocalStep(d: Discipline, s: State, l: Step, r: nat)
    requires Enabled(s, l) && r < |s.reqs|
    requires Local(s.reqs[r]) && Local(s.reqs[l.r]) && CarrierLinked(s, l.r)
    ensures Local(Apply(d, s, l).reqs[r])
  {
    if r == l.r {
      OwnStep(d, s, l);
    }
  }

  lemma QueueStaysDistinct(d: Discipline, s: State, l: Step)
    requires Inv(s) && Enabled(s, l)
    ensures NoDup(Apply(d, s, l).queue)
  {
    match l
    case PushWaiter(r) =>
      assert Local(s.reqs[r]);
      EnqAdds(d, s.queue, RankAt(s.reqs), r);
    case RemoveExpired(r) =>
      if r in s.queue {
        DelTakes(d, s.queue, RankAt(s.reqs), r);
      }
    case LockAndPop(_) =>
      if s.queue != [] {
        DeqTakes(d, s.queue, RankAt(s.reqs));
      }
    case _ =>
  }

  lemma QueueMemberStep(d: Discipline, s: State, l: Step, w: nat)
    requires Inv(s) && Enabled(s, l) && w in Apply(d, s, l).queue
    ensures w < |s.reqs|
    ensures var q := Apply(d, s, l).reqs[w]; q.timer != Unborn && (q.done ==> q.timer in {Failing, Removing})
  {
    QueueShrinks(d, s, l, w);
    assert Local(s.reqs[l.r]) && CarrierLinked(s, l.r);
    if l == RemoveExpired(w) {
      DelTakes(d, s.queue, RankAt(s.reqs), w);
    }
  }

  /** The queue only loses members, except by a push. */
  lemma QueueShrinks(d: Discipline, s: State, l: Step, w: nat)
    requires Enabled(s, l) && w in Apply(d, s, l).queue
    ensures w in s.queue || l == PushWaiter(w)
  {
    match l
    case PushWaiter(r) => EnqAdds(d, s.queue, RankAt(s.reqs), r);
    case RemoveExpired(r) =>
      if r in s.queue {
        DelTakes(d, s.queue, RankAt(s.reqs), r);
      }
    case LockAndPop(_) =>
      if s.queue != [] {
        DeqTakes(d, s.queue, RankAt(s.reqs));
      }
    case _ =>
  }

  /** A waiter newly popped was queued, and leaves the queue. */
  lemma NewlyPopped(d: Discipline, s: State, r: nat)
    requires Inv(s) && Enabled(s, LockAndPop(r)) && s.queue != []
    ensures var t := Apply(d, s, LockAndPop(r));
            t.reqs[r].stage == Popped(s.queue[0]) && s.queue[0] in s.queue && s.queue[0] !in t.queue
  {
    DeqTakes(d, s.queue, RankAt(s.reqs));
  }

  /** Whoever carries a waiter after a step carried it before, or has just popped it. */
  lemma CarriedBefore(d: Discipline, s: State, l: Step, r: nat, w: nat)
    requires Enabled(s, l) && r < |s.reqs| && Carries(Apply(d, s, l).reqs[r].stage, w)
    ensures Carries(s.reqs[r].stage, w) || (l == LockAndPop(r) && s.queue != [] && s.queue[0] == w)
  {
    if l == LockAndPop(r) && s.queue != [] {
      DeqTakes(d, s.queue, RankAt(s.reqs));
    }
  }

  /** A waiter being carried stays out of the queue. */
  lemma CarriedStaysOut(d: Discipline, s: State, l: Step, r: nat, w: nat)
    requires Inv(s) && Enabled(s, l) && r < |s.reqs| && Carries(Apply(d, s, l).reqs[r].stage, w)
    ensures w < |s.reqs| && w !in Apply(d, s, l).queue
  {
    assert CarrierLinked(s, r);
    CarriedBefore(d, s, l, r, w);
    if Carries(s.reqs[r].stage, w) {
      assert Local(s.reqs[w]);
      if w in Apply(d, s, l).queue {
        QueueShrinks(d, s, l, w);
      }
    } else {
      NewlyPopped(d, s, r);
    }
  }

  lemma CarrierStep(d: Discipline, s: State, l: Step, r: nat)
    requires Inv(s) && Enabled(s, l) && r < |s.reqs|
    ensures CarrierLinked(Apply(d, s, l), r)
  {
    var t := Apply(d, s, l);
    if t.reqs[r].stage.Popped? || t.reqs[r].stage.Handing? {
      var w := t.reqs[r].stage.target;
      CarriedStaysOut(d, s, l, r, w);
      if l == LockAndPop(r) {
        assert s.queue != [];
        NewlyPopped(d, s, r);
      } else {
        assert CarrierLinked(s, r) && CarrierLinked(s, l.r) && Local(s.reqs[w]);
        KeptCarrier(d, s, l, r, w);
      }
    }
  }

  /** A carrier from before the step still finds its waiter as it should. */
  lemma KeptCarrier(d: Discipline, s: State, l: Step, r: nat, w: nat)
    requires Enabled(s, l) && l != LockAndPop(r) && r < |s.reqs| && w < |s.reqs|
    requires CarrierLinked(s, r) && CarrierLinked(s, l.r) && Local(s.reqs[w])
    requires Carries(s.reqs[l.r].stage, w) && Carries(s.reqs[r].stage, w) ==> r == l.r
    requires Carries(Apply(d, s, l).reqs[r].stage, w)
    ensures var q := Apply(d, s, l).reqs[w];
            && (Apply(d, s, l).reqs[r].stage == Popped(w) ==>
                  q.timer != Unborn && (q.done ==> q.timer == Failing || q.sent == [false]))
            && (Apply(d, s, l).reqs[r].stage == Handing(w) ==> q.timer in {Armed, Over} && q.done && q.sent == [])
  {
    CarriedBefore(d, s, l, r, w);
  }

  lemma ExclusiveStep(d: Discipline, s: State, l: Step, r1: nat, r2: nat, w: nat)
    requires Exclusive(s) && Enabled(s, l) && r1 < |s.reqs| && r2 < |s.reqs|
    requires CarrierLinked(s, r1) && CarrierLinked(s, r2)
    requires var t := Apply(d, s, l); Carries(t.reqs[r1].stage, w) && Carries(t.reqs[r2].stage, w)
    ensures r1 == r2
  {
    CarriedBefore(d, s, l, r1, w);
    CarriedBefore(d, s, l, r2, w);
    assert s.queue != [] ==> s.queue[0] in s.queue;
  }

  /** A Release that carries a waiter goes on carrying it in the same way unless it is its own step. */
  lemma CarrierStays(d: Discipline, s: State, l: Step, r: nat, w: nat)
    requires Enabled(s, l) && r < |s.reqs| && w < |s.reqs| && Carries(s.reqs[r].stage, w)
    ensures Apply(d, s, l).reqs[r].stage == s.reqs[r].stage || l == GrantSwap(r)
         || (l == SendGrant(r) && Apply(d, s, l).reqs[w].sent != [])
  {
  }

  /** A live waiter stays queued or popped. */
  lemma LiveStep(d: Discipline, s: State, l: Step, w: nat)
    requires Enabled(s, l) && w < |s.reqs|
    requires NotLost(s, w) && Local(s.reqs[w]) && CarrierLinked(s, l.r) && Local(s.reqs[l.r])
    requires var q := Apply(d, s, l).reqs[w]; q.timer == Armed && !q.done
    ensures w in Apply(d, s, l).queue || SomePopped(Apply(d, s, l), w)
  {
    var t := Apply(d, s, l);
    if l == PushWaiter(w) {
      EnqAdds(d, s.queue, RankAt(s.reqs), w);
    } else if w in s.queue {
      StaysQueuedOrPopped(d, s, l, w);
    } else {
      assert s.reqs[w].timer == Armed && !s.reqs[w].done;
      var r :| 0 <= r < |s.reqs| && s.reqs[r].stage == Popped(w);
      CarrierStays(d, s, l, r, w);
      assert t.reqs[r].stage == Popped(w);
    }
  }

  /** A completed waiter's value is still on its way. */
  lemma OwedStep(d: Discipline, s: State, l: Step, w: nat)
    requires Enabled(s, l) && w < |s.reqs| && NotLost(s, w) && Local(s.reqs[w]) && Local(s.reqs[l.r])
    requires var q := Apply(d, s, l).reqs[w]; q.done && q.sent == [] && q.timer != Failing
    ensures SomeHanding(Apply(d, s, l), w)
  {
    var t := Apply(d, s, l);
    if s.reqs[w].done {
      assert SomeHanding(s, w);
      var r :| 0 <= r < |s.reqs| && s.reqs[r].stage == Handing(w);
      CarrierStays(d, s, l, r, w);
      assert t.reqs[r].stage == Handing(w);
    } else {
      assert l.GrantSwap? && t.reqs[l.r].stage == Handing(w);
    }
  }

  lemma StaysQueuedOrPopped(d: Discipline, s: State, l: Step, w: nat)
    requires Enabled(s, l) && w in s.queue && w < |s.reqs| && l != RemoveExpired(w)
    ensures w in Apply(d, s, l).queue || SomePopped(Apply(d, s, l), w)
  {
    var t := Apply(d, s, l);
    match l
    case PushWaiter(r) => EnqAdds(d, s.queue, RankAt(s.reqs), r);
    case RemoveExpired(r) =>
      if r in s.queue {
        DelTakes(d, s.queue, RankAt(s.reqs), r);
      }
    case LockAndPop(r) =>
      DeqTakes(d, s.queue, RankAt(s.reqs));
      assert w != s.queue[0] || t.reqs[r].stage == Popped(w);
    case _ =>
  }

  lemma InvStep(d: Discipline, s: State, l: Step)
    requires Inv(s) && Enabled(s, l)
    ensures Inv(Apply(d, s, l))
  {
    var t := Apply(d, s, l);
    forall r: nat | r < |t.reqs|
      ensures Local(t.reqs[r]) && CarrierLinked(t, r) && NotLost(t, r)
    {
      assert Local(s.reqs[r]) && Local(s.reqs[l.r]) && CarrierLinked(s, l.r) && NotLost(s, r);
      LocalStep(d, s, l, r);
      CarrierStep(d, s, l, r);
      if t.reqs[r].timer == Armed && !t.reqs[r].done {
        LiveStep(d, s, l, r);
      }
      if t.reqs[r].done && t.reqs[r].sent == [] && t.reqs[r].timer != Failing {
        OwedStep(d, s, l, r);
      }
    }
    QueueStaysDistinct(d, s, l);
    forall w | w in t.queue
      ensures w < |t.reqs| && t.reqs[w].timer != Unborn && (t.reqs[w].done ==> t.reqs[w].timer in {Failing, Removing})
    {
      QueueMemberStep(d, s, l, w);
    }
    forall r1, r2, w | 0 <= r1 < |t.reqs| && 0 <= r2 < |t.reqs|
      && Carries(t.reqs[r1].stage, w) && Carries(t.reqs[r2].stage, w)
      ensures r1 == r2
    {
      assert CarrierLinked(s, r1) && CarrierLinked(s, r2);
      ExclusiveStep(d, s, l, r1, r2, w);
    }
  }

  lemma InvInit(s: State)
    requires Init(s)
    ensures Inv(s)
  {
  }

  /** Every state of every run. */
  lemma {:induction false} InvRun(d: Discipline, s: State, run: seq<Step>)
    requires Inv(s) && CanRun(d, s, run)
    ensures Inv(Run(d, s, run))
    decreases |run|
  {
    if run == [] {
    } else {
      InvStep(d, s, run[0]);
      InvRun(d, Apply(d, s, run[0]), run[1..]);
    }
  }
}
