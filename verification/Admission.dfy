/**
 Every interleaving of `Acquire`, `Release` and the timeout goroutines of any number of requests,
 for both queues. A request is one `Acquire` call, its waiter, that waiter's timeout goroutine and
 the one `Release` the middleware makes if the call succeeds. One step is one channel operation,
 one compare-and-swap, or one region run under the mutex.

 `now` counts steps; `sent`, `tryAt`, `pushAt` and the stamps on permits record history. No step
 looks at them.
 */
module Admission {
  import opened Ageing
  import opened QueueDiscipline

  /** Where a request's own goroutine is. The last four stages belong to its `Release`. */
  datatype Stage =
    | Idle
    | Missed                    // no permit was free; the waiter exists but is not pushed
    | Queued                    // waiting on its channel
    | Refused                   // told no
    | Holding                   // past the queue with a permit
    | Looping                   // in Release, about to lock
    | Popped(target: nat)       // in Release, about to compare-and-swap
    | Handing(target: nat)      // won the swap, about to send
    | Depositing(checkAt: nat)  // saw an empty queue at step checkAt, about to send to sem
    | Finished

  /** Where the timeout goroutine is. */
  datatype Timer = Unborn | Armed | Failing | Removing | Over

  datatype Permit = Initial | Deposited(checkAt: nat, depositAt: nat)

  datatype Request = Request(
    priority: real, enqueuedAt: real,
    stage: Stage, timer: Timer, done: bool, ch: seq<bool>,
    sent: seq<bool>, tryAt: nat, pushAt: nat)

  datatype State = State(max: nat, now: nat, sem: seq<Permit>, queue: seq<nat>, reqs: seq<Request>)

  datatype Step =
    | TryHit(r: nat)
    | TryMiss(r: nat, clock: real)
    | PushWaiter(r: nat)
    | TimeoutSwap(r: nat)
    | SendRefusal(r: nat)
    | RemoveExpired(r: nat)
    | Receive(r: nat)
    | BeginRelease(r: nat)
    | LockAndPop(r: nat)
    | GrantSwap(r: nat)
    | SendGrant(r: nat)
    | Deposit(r: nat)

  /** The fixed part of each waiter's effective priority. */
  function RankAt(reqs: seq<Request>): nat -> real {
    (w: nat) => if w < |reqs| then Rank(reqs[w].priority, reqs[w].enqueuedAt) else 0.0
  }

  /** A step can be taken. A send needs room in its channel, a receive a value. */
  predicate Enabled(s: State, l: Step) {
    && l.r < |s.reqs|
    && var q := s.reqs[l.r];
       match l
       case TryHit(_) => q.stage == Idle && s.sem != []
       case TryMiss(_, _) => q.stage == Idle && s.sem == []
       case PushWaiter(_) => q.stage == Missed
       case TimeoutSwap(_) => q.timer == Armed
       case SendRefusal(_) => q.timer == Failing && |q.ch| < 1
       case RemoveExpired(_) => q.timer == Removing
       case Receive(_) => q.stage == Queued && q.ch != []
       case BeginRelease(_) => q.stage == Holding
       case LockAndPop(_) => q.stage == Looping
       case GrantSwap(_) => q.stage.Popped? && q.stage.target < |s.reqs|
       case SendGrant(_) => q.stage.Handing? && q.stage.target < |s.reqs| && |s.reqs[q.stage.target].ch| < 1
       case Deposit(_) => q.stage.Depositing? && |s.sem| < s.max
  }

  function Apply(d: Discipline, s: State, l: Step): (t: State)
    requires Enabled(s, l)
  {
    var r := l.r;
    var q := s.reqs[r];
    var u := s.(now := s.now + 1);
    match l
    case TryHit(_) =>
      u.(sem := s.sem[1..], reqs := s.reqs[r := q.(stage := Holding)])
    case TryMiss(_, clock) =>
      u.(reqs := s.reqs[r := q.(stage := Missed, enqueuedAt := clock, tryAt := s.now)])
    case PushWaiter(_) =>
      u.(queue := Enq(d, s.queue, RankAt(s.reqs), r),
         reqs := s.reqs[r := q.(stage := Queued, timer := Armed, pushAt := s.now)])
    case TimeoutSwap(_) =>
      u.(reqs := s.reqs[r := if q.done then q.(timer := Over) else q.(timer := Failing, done := true)])
    case SendRefusal(_) =>
      u.(reqs := s.reqs[r := q.(timer := Removing, ch := q.ch + [false], sent := q.sent + [false])])
    case RemoveExpired(_) =>
      u.(queue := Del(d, s.queue, RankAt(s.reqs), r), reqs := s.reqs[r := q.(timer := Over)])
    case Receive(_) =>
      u.(reqs := s.reqs[r := q.(stage := if q.ch[0] then Holding else Refused, ch := q.ch[1..])])
    case BeginRelease(_) =>
      u.(reqs := s.reqs[r := q.(stage := Looping)])
    case LockAndPop(_) =>
      if s.queue == [] then u.(reqs := s.reqs[r := q.(stage := Depositing(s.now))])
      else
        var (w, rest) := Deq(d, s.queue, RankAt(s.reqs));
        u.(queue := rest, reqs := s.reqs[r := q.(stage := Popped(w))])
    case GrantSwap(_) =>
      var w := q.stage.target;
      if s.reqs[w].done then u.(reqs := s.reqs[r := q.(stage := Looping)])
      else
        var marked := s.reqs[w := s.reqs[w].(done := true)];
        u.(reqs := marked[r := marked[r].(stage := Handing(w))])
    case SendGrant(_) =>
      var w := q.stage.target;
      var v := s.reqs[w];
      var told := s.reqs[w := v.(ch := v.ch + [true], sent := v.sent + [true])];
      u.(reqs := told[r := told[r].(stage := Finished)])
    case Deposit(_) =>
      u.(sem := s.sem + [Deposited(q.stage.checkAt, s.now)], reqs := s.reqs[r := q.(stage := Finished)])
  }

  // ---------- Runs ----------

  predicate CanRun(d: Discipline, s: State, run: seq<Step>)
    decreases |run|
  {
    run == [] || (Enabled(s, run[0]) && CanRun(d, Apply(d, s, run[0]), run[1..]))
  }

  function Run(d: Discipline, s: State, run: seq<Step>): State
    requires CanRun(d, s, run)
    decreases |run|
  {
    if run == [] then s else Run(d, Apply(d, s, run[0]), run[1..])
  }

  lemma StepFirst(d: Discipline, s: State, l: Step, rest: seq<Step>)
    requires Enabled(s, l) && CanRun(d, Apply(d, s, l), rest)
    ensures CanRun(d, s, [l] + rest) && Run(d, s, [l] + rest) == Run(d, Apply(d, s, l), rest)
  {
    assert ([l] + rest)[1..] == rest;
  }

  lemma SingleStep(d: Discipline, s: State, l: Step)
    requires Enabled(s, l)
    ensures CanRun(d, s, [l]) && Run(d, s, [l]) == Apply(d, s, l)
  {
    assert [l][1..] == [];
  }

  lemma HeadFirst(a: seq<Step>, b: seq<Step>)
    requires a != []
    ensures a + b == [a[0]] + (a[1..] + b)
  {
  }

  lemma {:induction false} RunInParts(d: Discipline, s: State, a: seq<Step>, b: seq<Step>)
    requires CanRun(d, s, a) && CanRun(d, Run(d, s, a), b)
    ensures CanRun(d, s, a + b) && Run(d, s, a + b) == Run(d, Run(d, s, a), b)
    decreases |a|
  {
    if a == [] {
      assert a + b == b;
    } else {
      HeadFirst(a, b);
      RunInParts(d, Apply(d, s, a[0]), a[1..], b);
      StepFirst(d, s, a[0], a[1..] + b);
    }
  }

  /** All permits in the channel, nobody has called yet. Steps are numbered from one. */
  ghost predicate Init(s: State) {
    && s.now == 1 && s.queue == []
    && s.sem == seq(s.max, _ => Initial)
    && forall r :: 0 <= r < |s.reqs| ==> IsNew(s.reqs[r])
  }

  ghost predicate IsNew(q: Request) {
    q.stage == Idle && q.timer == Unborn && !q.done && q.ch == [] && q.sent == [] && q.tryAt == 0 && q.pushAt == 0
  }
}
