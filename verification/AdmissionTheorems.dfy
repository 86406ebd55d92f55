/**
 Consequences of the admission invariant for every run: permits are conserved, nobody blocks on a
 send, each waiter gets exactly one outcome, and every run ends.
 */
module AdmissionTheorems {
  import opened BinaryHeap
  import opened Ageing
  import opened QueueDiscipline
  import opened Admission
  import opened AdmissionSafety

  // ---------- Permits ----------

  /** The request has, or is in the middle of giving away, a permit. */
  predicate HasPermit(q: Request) {
    q.stage in {Holding, Looping} || q.stage.Popped? || q.stage.Handing? || q.stage.Depositing?
    || (q.stage == Queued && q.ch == [true])
  }

  function One(b: bool): nat {
    if b then 1 else 0
  }

  function Permits(reqs: seq<Request>): nat {
    if reqs == [] then 0 else One(HasPermit(reqs[0])) + Permits(reqs[1..])
  }

  /** Requests past the queue: the handler is running. */
  function InFlight(reqs: seq<Request>): nat {
    if reqs == [] then 0 else One(reqs[0].stage == Holding) + InFlight(reqs[1..])
  }

  lemma {:induction false} PermitsUpdate(reqs: seq<Request>, i: nat, v: Request)
    requires i < |reqs|
    ensures Permits(reqs[i := v]) == Permits(reqs) - One(HasPermit(reqs[i])) + One(HasPermit(v))
    ensures HasPermit(reqs[i]) ==> Permits(reqs) > 0
  {
    if i > 0 {
      PermitsUpdate(reqs[1..], i - 1, v);
      assert reqs[i := v][1..] == reqs[1..][i - 1 := v];
    } else {
      assert reqs[i := v][1..] == reqs[1..];
    }
  }

  lemma {:induction false} InFlightHavePermits(reqs: seq<Request>)
    ensures InFlight(reqs) <= Permits(reqs)
  {
    if reqs == [] {
    } else {
      InFlightHavePermits(reqs[1..]);
    }
  }

  /** Steps that touch another request's waiter. */
  predicate Touches(s: State, l: Step)
    requires Enabled(s, l)
  {
    l.SendGrant? || (l.GrantSwap? && !s.reqs[s.reqs[l.r].stage.target].done)
  }

  /** What such a step makes of that waiter. */
  function Touched(s: State, l: Step): Request
    requires Enabled(s, l) && Touches(s, l)
  {
    var v := s.reqs[s.reqs[l.r].stage.target];
    if l.GrantSwap? then v.(done := true) else v.(ch := v.ch + [true], sent := v.sent + [true])
  }

  lemma OneRequestChanges(d: Discipline, s: State, l: Step)
    requires Enabled(s, l)
    ensures !Touches(s, l) ==> Apply(d, s, l).reqs == s.reqs[l.r := Apply(d, s, l).reqs[l.r]]
    ensures Touches(s, l) ==>
              Apply(d, s, l).reqs == s.reqs[s.reqs[l.r].stage.target := Touched(s, l)][l.r := Apply(d, s, l).reqs[l.r]]
  {
  }

  lemma SoloConserves(d: Discipline, s: State, l: Step)
    requires Inv(s) && Enabled(s, l) && !Touches(s, l)
    ensures |Apply(d, s, l).sem| + One(HasPermit(Apply(d, s, l).reqs[l.r])) == |s.sem| + One(HasPermit(s.reqs[l.r]))
  {
    var q := s.reqs[l.r];
    assert Local(q) && CarrierLinked(s, l.r);
    if l.Receive? {
      assert q.ch == [q.ch[0]];
    } else if l.SendRefusal? {
      assert q.ch + [false] == [false];
    }
  }

  lemma ConservedStep(d: Discipline, s: State, l: Step)
    requires Inv(s) && Enabled(s, l)
    ensures |Apply(d, s, l).sem| + Permits(Apply(d, s, l).reqs) == |s.sem| + Permits(s.reqs)
  {
    var t := Apply(d, s, l);
    var r := l.r;
    assert Local(s.reqs[r]) && CarrierLinked(s, r);
    OneRequestChanges(d, s, l);
    if Touches(s, l) {
      var w := s.reqs[r].stage.target;
      assert Local(s.reqs[w]);
      PermitsUpdate(s.reqs, w, Touched(s, l));
      PermitsUpdate(s.reqs[w := Touched(s, l)], r, t.reqs[r]);
    } else {
      SoloConserves(d, s, l);
      PermitsUpdate(s.reqs, r, t.reqs[r]);
    }
  }

  lemma {:induction false} ConservedRun(d: Discipline, s: State, run: seq<Step>)
    requires Inv(s) && CanRun(d, s, run)
    ensures |Run(d, s, run).sem| + Permits(Run(d, s, run).reqs) == |s.sem| + Permits(s.reqs)
    ensures Run(d, s, run).max == s.max && |Run(d, s, run).reqs| == |s.reqs|
    decreases |run|
  {
    if run == [] {
    } else {
      ConservedStep(d, s, run[0]);
      InvStep(d, s, run[0]);
      ConservedRun(d, Apply(d, s, run[0]), run[1..]);
    }
  }

  lemma {:induction false} NobodyStartsWithAPermit(reqs: seq<Request>)
    requires forall r :: 0 <= r < |reqs| ==> IsNew(reqs[r])
    ensures Permits(reqs) == 0
  {
    if reqs == [] {
    } else {
      NobodyStartsWithAPermit(reqs[1..]);
    }
  }

  /** Permits in the channel plus permits with requests is always the configured number. */
  lemma PermitsConserved(d: Discipline, s: State, run: seq<Step>)
    requires Init(s) && CanRun(d, s, run)
    ensures |Run(d, s, run).sem| + Permits(Run(d, s, run).reqs) == s.max
    ensures InFlight(Run(d, s, run).reqs) <= s.max
  {
    InvInit(s);
    ConservedRun(d, s, run);
    NobodyStartsWithAPermit(s.reqs);
    InFlightHavePermits(Run(d, s, run).reqs);
  }

  // ---------- Sends never block ----------

  /** A goroutine that has reached a send, a swap or a lock can always take that step. */
  lemma SendsNeverBlock(d: Discipline, s: State, run: seq<Step>, r: nat)
    requires Init(s) && CanRun(d, s, run) && r < |s.reqs|
    ensures var t := Run(d, s, run);
            && r < |t.reqs|
            && (t.reqs[r].timer == Failing ==> Enabled(t, SendRefusal(r)))
            && (t.reqs[r].stage.Popped? ==> Enabled(t, GrantSwap(r)))
            && (t.reqs[r].stage.Handing? ==> Enabled(t, SendGrant(r)))
            && (t.reqs[r].stage.Depositing? ==> Enabled(t, Deposit(r)))
            && (t.reqs[r].stage == Missed ==> Enabled(t, PushWaiter(r)))
            && (t.reqs[r].timer == Removing ==> Enabled(t, RemoveExpired(r)))
            && (t.reqs[r].stage == Looping ==> Enabled(t, LockAndPop(r)))
  {
    var t := Run(d, s, run);
    InvInit(s);
    InvRun(d, s, run);
    ConservedRun(d, s, run);
    PermitsConserved(d, s, run);
    assert Local(t.reqs[r]) && CarrierLinked(t, r);
    if t.reqs[r].stage.Depositing? {
      PermitsUpdate(t.reqs, r, t.reqs[r]);
    }
    if t.reqs[r].stage.Handing? {
      assert Local(t.reqs[t.reqs[r].stage.target]);
    }
  }

  /**
   What a request may do next in its own time: its try finds a permit exactly if there is one, a timeout
   may strike at any moment after the push, a value sent is read, and a permit held is released.
   */
  lemma OwnStepsAreOpen(s: State, r: nat, clock: real)
    requires r < |s.reqs|
    ensures s.reqs[r].stage == Idle ==> (Enabled(s, TryHit(r)) <==> s.sem != [])
    ensures s.reqs[r].stage == Idle ==> (Enabled(s, TryMiss(r, clock)) <==> s.sem == [])
    ensures s.reqs[r].timer == Armed ==> Enabled(s, TimeoutSwap(r))
    ensures s.reqs[r].stage == Queued ==> (Enabled(s, Receive(r)) <==> s.reqs[r].ch != [])
    ensures s.reqs[r].stage == Holding ==> Enabled(s, BeginRelease(r))
  {
  }

  // ---------- One outcome each, nobody lost ----------

  /**
   A waiter is sent at most one value, and only once completed. Its caller leaves with that value.
   A live waiter is in the queue or in the hands of exactly one Release; a completed one still in
   the queue has its timeout goroutine about to take it out.
   */
  lemma OneOutcomeEach(d: Discipline, s: State, run: seq<Step>, w: nat)
    requires Init(s) && CanRun(d, s, run) && w < |s.reqs|
    ensures var t := Run(d, s, run);
            && w < |t.reqs|
            && var q := t.reqs[w];
            && |q.sent| <= 1 && (q.sent != [] ==> q.done)
            && (q.timer != Unborn && q.stage != Queued ==> q.sent == [q.stage != Refused])
            && (q.stage == Queued && !q.done ==>
                  (w in t.queue && !SomePopped(t, w)) || (w !in t.queue && SomePopped(t, w)))
            && (w in t.queue && q.done ==> q.timer in {Failing, Removing})
            && (q.done && q.sent == [] ==> q.timer == Failing || SomeHanding(t, w))
    ensures var t := Run(d, s, run);
            forall r1, r2 :: (0 <= r1 < |t.reqs| && 0 <= r2 < |t.reqs|
              && Carries(t.reqs[r1].stage, w) && Carries(t.reqs[r2].stage, w)) ==> r1 == r2
  {
    var t := Run(d, s, run);
    InvInit(s);
    InvRun(d, s, run);
    ConservedRun(d, s, run);
    assert Local(t.reqs[w]) && NotLost(t, w);
    forall r: nat | r < |t.reqs| && t.reqs[r].stage == Popped(w)
      ensures w !in t.queue
    {
      assert CarrierLinked(t, r);
    }
  }

  /** Once the timeout goroutines under way have finished, no completed waiter is queued. */
  lemma NoStaleWaiters(d: Discipline, s: State, run: seq<Step>)
    requires Init(s) && CanRun(d, s, run)
    requires forall r :: 0 <= r < |Run(d, s, run).reqs| ==> Run(d, s, run).reqs[r].timer !in {Failing, Removing}
    ensures forall w :: w in Run(d, s, run).queue ==>
              w < |Run(d, s, run).reqs| && !Run(d, s, run).reqs[w].done && Run(d, s, run).reqs[w].stage == Queued
  {
    var t := Run(d, s, run);
    InvInit(s);
    InvRun(d, s, run);
    assert QueueLinked(t);
    assert forall w: nat :: w < |t.reqs| ==> Local(t.reqs[w]);
  }

  /** The waiter a Release passes over has been refused, or is just about to be. */
  lemma DiscardedWereRefused(d: Discipline, s: State, run: seq<Step>, r: nat)
    requires Init(s) && CanRun(d, s, run)
    requires var t := Run(d, s, run); Enabled(t, GrantSwap(r)) && Apply(d, t, GrantSwap(r)).reqs[r].stage == Looping
    ensures var t := Run(d, s, run);
            var q := t.reqs[t.reqs[r].stage.target];
            q.done && (q.timer == Failing || q.sent == [false])
  {
    InvInit(s);
    InvRun(d, s, run);
    assert CarrierLinked(Run(d, s, run), r);
  }

  // ---------- Every run ends ----------

  function StageWork(g: Stage): nat {
    match g
    case Idle => 11
    case Missed => 10
    case Queued => 4
    case Holding => 3
    case Popped(_) => 3
    case Looping => 2
    case Handing(_) => 1
    case Depositing(_) => 1
    case Refused => 0
    case Finished => 0
  }

  function TimerWork(m: Timer): nat {
    match m
    case Unborn => 0
    case Armed => 3
    case Failing => 2
    case Removing => 1
    case Over => 0
  }

  function Work(reqs: seq<Request>): nat {
    if reqs == [] then 0 else StageWork(reqs[0].stage) + TimerWork(reqs[0].timer) + Work(reqs[1..])
  }

  lemma {:induction false} WorkUpdate(reqs: seq<Request>, i: nat, v: Request)
    requires i < |reqs|
    ensures Work(reqs[i := v]) == Work(reqs) - StageWork(reqs[i].stage) - TimerWork(reqs[i].timer)
                                  + StageWork(v.stage) + TimerWork(v.timer)
  {
    if i > 0 {
      WorkUpdate(reqs[1..], i - 1, v);
      assert reqs[i := v][1..] == reqs[1..][i - 1 := v];
    } else {
      assert reqs[i := v][1..] == reqs[1..];
    }
  }

  /** A queued waiter may cost a Release one more pop and one more swap. */
  function TotalWork(s: State): nat {
    Work(s.reqs) + 2 * |s.queue|
  }

  lemma SoloWork(d: Discipline, s: State, l: Step)
    requires Inv(s) && Enabled(s, l) && !Touches(s, l)
    ensures var t := Apply(d, s, l);
            StageWork(t.reqs[l.r].stage) + TimerWork(t.reqs[l.r].timer) + 2 * |t.queue|
              < StageWork(s.reqs[l.r].stage) + TimerWork(s.reqs[l.r].timer) + 2 * |s.queue|
  {
    assert Local(s.reqs[l.r]) && CarrierLinked(s, l.r);
  }

  lemma WorkStep(d: Discipline, s: State, l: Step)
    requires Inv(s) && Enabled(s, l)
    ensures TotalWork(Apply(d, s, l)) < TotalWork(s)
  {
    var t := Apply(d, s, l);
    var r := l.r;
    assert Local(s.reqs[r]) && CarrierLinked(s, r);
    OneRequestChanges(d, s, l);
    if Touches(s, l) {
      var w := s.reqs[r].stage.target;
      assert Local(s.reqs[w]);
      WorkUpdate(s.reqs, w, Touched(s, l));
      WorkUpdate(s.reqs[w := Touched(s, l)], r, t.reqs[r]);
    } else {
      SoloWork(d, s, l);
      WorkUpdate(s.reqs, r, t.reqs[r]);
    }
  }

  lemma {:induction false} WorkRun(d: Discipline, s: State, run: seq<Step>)
    requires Inv(s) && CanRun(d, s, run)
    ensures |run| + TotalWork(Run(d, s, run)) <= TotalWork(s)
    decreases |run|
  {
    if run == [] {
    } else {
      WorkStep(d, s, run[0]);
      InvStep(d, s, run[0]);
      WorkRun(d, Apply(d, s, run[0]), run[1..]);
    }
  }

  lemma {:induction false} NewWork(reqs: seq<Request>)
    requires forall r :: 0 <= r < |reqs| ==> IsNew(reqs[r])
    ensures Work(reqs) == 11 * |reqs|
  {
    if reqs == [] {
    } else {
      NewWork(reqs[1..]);
    }
  }

  /** `n` requests take at most `11 * n` steps in all: no Release retries for ever. */
  lemma RunsAreShort(d: Discipline, s: State, run: seq<Step>)
    requires Init(s) && CanRun(d, s, run)
    ensures |run| <= 11 * |s.reqs|
  {
    InvInit(s);
    WorkRun(d, s, run);
    NewWork(s.reqs);
  }

  lemma {:induction false} NobodyHasAPermit(reqs: seq<Request>)
    requires forall r :: 0 <= r < |reqs| ==> reqs[r].stage in {Refused, Finished}
    ensures Permits(reqs) == 0
  {
    if reqs == [] {
    } else {
      NobodyHasAPermit(reqs[1..]);
    }
  }

  /** A request that has not been answered and finished always has a step, or is owed one. */
  lemma UnsettledCanMove(d: Discipline, s: State, run: seq<Step>, r: nat)
    requires Init(s) && CanRun(d, s, run) && r < |Run(d, s, run).reqs|
    requires Run(d, s, run).reqs[r].stage !in {Refused, Finished}
    ensures exists l :: Enabled(Run(d, s, run), l)
  {
    var t := Run(d, s, run);
    InvInit(s);
    InvRun(d, s, run);
    ConservedRun(d, s, run);
    SendsNeverBlock(d, s, run, r);
    assert Local(t.reqs[r]) && NotLost(t, r);
    match t.reqs[r].stage
    case Idle => assert Enabled(t, TryHit(r)) || Enabled(t, TryMiss(r, 0.0));
    case Missed => assert Enabled(t, PushWaiter(r));
    case Holding => assert Enabled(t, BeginRelease(r));
    case Looping => assert Enabled(t, LockAndPop(r));
    case Popped(_) => assert Enabled(t, GrantSwap(r));
    case Handing(_) => assert Enabled(t, SendGrant(r));
    case Depositing(_) => assert Enabled(t, Deposit(r));
    case Queued =>
      if t.reqs[r].ch != [] {
        assert Enabled(t, Receive(r));
      } else if t.reqs[r].timer == Armed {
        assert Enabled(t, TimeoutSwap(r));
      } else if t.reqs[r].timer == Failing {
        assert Enabled(t, SendRefusal(r));
      } else {
        var h :| 0 <= h < |t.reqs| && t.reqs[h].stage == Handing(r);
        SendsNeverBlock(d, s, run, h);
        assert Enabled(t, SendGrant(h));
      }
  }

  /** A queued waiter's own goroutine is about to time out, refuse or remove it. */
  lemma QueuedCanMove(d: Discipline, s: State, run: seq<Step>, w: nat)
    requires Init(s) && CanRun(d, s, run) && w in Run(d, s, run).queue
    ensures exists l :: Enabled(Run(d, s, run), l)
  {
    var t := Run(d, s, run);
    InvInit(s);
    InvRun(d, s, run);
    ConservedRun(d, s, run);
    assert QueueLinked(t) && Local(t.reqs[w]);
    SendsNeverBlock(d, s, run, w);
    assert Enabled(t, TimeoutSwap(w)) || Enabled(t, SendRefusal(w)) || Enabled(t, RemoveExpired(w));
  }

  /**
   When nothing can happen any more, every request has been refused or has been served and has
   released its permit; the queue is empty and all permits are back. With the bound on the length of
   runs: however the steps interleave, everything is settled after finitely many.
   */
  lemma MaximalRunsSettleEverything(d: Discipline, s: State, run: seq<Step>)
    requires Init(s) && CanRun(d, s, run) && forall l :: !Enabled(Run(d, s, run), l)
    ensures var t := Run(d, s, run);
            && (forall r :: 0 <= r < |t.reqs| ==> t.reqs[r].stage in {Refused, Finished})
            && t.queue == [] && |t.sem| == t.max
  {
    var t := Run(d, s, run);
    forall r | 0 <= r < |t.reqs|
      ensures t.reqs[r].stage in {Refused, Finished}
    {
      if t.reqs[r].stage !in {Refused, Finished} {
        UnsettledCanMove(d, s, run, r);
      }
    }
    NobodyHasAPermit(t.reqs);
    PermitsConserved(d, s, run);
    InvInit(s);
    ConservedRun(d, s, run);
    if t.queue != [] {
      QueuedCanMove(d, s, run, t.queue[0]);
    }
  }

  // ---------- The heap over a whole run ----------

  ghost predicate HeapInv(s: State) {
    Inv(s) && Ordered(s.queue, RankAt(s.reqs), |s.queue|)
  }

  lemma SameKeys<T>(q: seq<T>, k1: T -> real, k2: T -> real)
    requires Ordered(q, k1, |q|) && forall x :: x in q ==> k1(x) == k2(x)
    ensures Ordered(q, k2, |q|)
  {
    forall j: nat | j < |q|
      ensures Below(q, k2, j)
    {
      assert Below(q, k1, j);
    }
  }

  lemma HeapStep(s: State, l: Step)
    requires HeapInv(s) && Enabled(s, l)
    ensures HeapInv(Apply(Hrn, s, l))
  {
    var t := Apply(Hrn, s, l);
    InvStep(Hrn, s, l);
    var key := RankAt(s.reqs);
    assert Local(s.reqs[l.r]);
    match l {
      case PushWaiter(r) =>
        PushKeepsHeap(s.queue, key, r);
      case RemoveExpired(r) =>
        if r in s.queue {
          RemoveKeepsHeap(s.queue, key, IndexOf(s.queue, r));
        }
      case LockAndPop(_) =>
        if s.queue != [] {
          PopTakesGreatest(s.queue, key);
        }
      case _ =>
    }
    assert forall x: nat :: x != l.r || !l.TryMiss? ==> key(x) == RankAt(t.reqs)(x);
    SameKeys(t.queue, key, RankAt(t.reqs));
  }

  lemma {:induction false} HeapRun(s: State, run: seq<Step>)
    requires HeapInv(s) && CanRun(Hrn, s, run)
    ensures HeapInv(Run(Hrn, s, run))
    decreases |run|
  {
    if run == [] {
    } else {
      HeapStep(s, run[0]);
      HeapRun(Apply(Hrn, s, run[0]), run[1..]);
    }
  }

  /**
   Whatever pushes and removals came before, and at whatever times, the waiter that a Release pops
   has the greatest effective priority of all queued waiters, at the moment of the pop and at any other.
   */
  lemma PopsGreatestPriority(s: State, run: seq<Step>, r: nat, v: nat, clock: real)
    requires Init(s) && CanRun(Hrn, s, run)
    requires var t := Run(Hrn, s, run); Enabled(t, LockAndPop(r)) && v in t.queue
    ensures var t := Run(Hrn, s, run);
            var g := Apply(Hrn, t, LockAndPop(r)).reqs[r].stage;
            && g.Popped? && g.target in t.queue && g.target < |t.reqs| && v < |t.reqs|
            && Effective(t.reqs[v].priority, t.reqs[v].enqueuedAt, clock)
                 <= Effective(t.reqs[g.target].priority, t.reqs[g.target].enqueuedAt, clock)
            && Rank(t.reqs[v].priority, t.reqs[v].enqueuedAt)
                 <= Rank(t.reqs[g.target].priority, t.reqs[g.target].enqueuedAt)
  {
    var t := Run(Hrn, s, run);
    InvInit(s);
    HeapRun(s, run);
    var key := RankAt(t.reqs);
    PopTakesGreatest(t.queue, key);
    DeqTakes(Hrn, t.queue, key);
    var w := t.queue[0];
    assert w in t.queue && QueueLinked(t);
    assert key(v) <= key(w);
    ComparisonIgnoresClock(t.reqs[v].priority, t.reqs[v].enqueuedAt, t.reqs[w].priority, t.reqs[w].enqueuedAt, clock);
  }
}
