/**
 `internal/log/service/log_publisher.go`: a bounded channel of log entries and the workers that save
 them. A class for the channel operations on their own, then every interleaving of publishers,
 workers and cancellation.
 */
module LogPublisher {

  const LOG_BUFFER_SIZE: nat := 512

  datatype Log = Log(traceID: string)

  class Publisher {
    var ch: seq<Log>
    var saved: seq<Log>  // what the repository has been given
    const workers: nat

    constructor (workers: int)
      ensures ch == [] && saved == []
      ensures this.workers >= 1 && (workers > 0 ==> this.workers == workers)
    {
      this.workers := if workers <= 0 then 1 else workers;
      ch, saved := [], [];
    }

    /** A log is dropped if and only if the buffer is full. */
    method Publish(log: Log) returns (accepted: bool)
      requires |ch| <= LOG_BUFFER_SIZE
      modifies this`ch
      ensures |ch| <= LOG_BUFFER_SIZE
      ensures accepted <==> |old(ch)| < LOG_BUFFER_SIZE
      ensures ch == if accepted then old(ch) + [log] else old(ch)
    {
      accepted := |ch| < LOG_BUFFER_SIZE;
      if accepted {
        ch := ch + [log];
      }
    }

    /** The inner loop of a worker after cancellation, undisturbed: everything buffered is saved in order. */
    method Drain()
      modifies this`ch, this`saved
      ensures ch == [] && saved == old(saved) + old(ch)
    {
      while |ch| > 0
        invariant saved + ch == old(saved) + old(ch)
      {
        var log := ch[0];
        ghost var rest := ch[1..];
        assert ch == [log] + rest;
        ch := ch[1..];
        saved := saved + [log];
      }
    }
  }

  // ---------- Interleavings ----------

  /** A worker in its main loop, saving there, in its drain loop, saving there, or returned. */
  datatype Worker = Running | Saving(log: Log) | Draining | DrainSaving(log: Log) | Returned

  /** `published`, `dropped`, `taken` and `saved` record history. */
  datatype State = State(
    buffer: seq<Log>, cancelled: bool, workers: seq<Worker>,
    published: seq<Log>, accepted: seq<Log>, dropped: seq<Log>, taken: seq<Log>, saved: seq<Log>)

  datatype Step = Publish(log: Log) | Cancel | Take(w: nat) | Save(w: nat) | SeeCancelled(w: nat) | Return(w: nat)

  predicate Enabled(s: State, l: Step) {
    match l
    case Publish(_) => true
    case Cancel => true
    case Take(w) => w < |s.workers| && s.workers[w] in {Running, Draining} && s.buffer != []
    case Save(w) => w < |s.workers| && (s.workers[w].Saving? || s.workers[w].DrainSaving?)
    case SeeCancelled(w) => w < |s.workers| && s.workers[w] == Running && s.cancelled
    case Return(w) => w < |s.workers| && s.workers[w] == Draining && s.buffer == []
  }

  function Apply(s: State, l: Step): State
    requires Enabled(s, l)
  {
    match l
    case Publish(log) =>
      var t := s.(published := s.published + [log]);
      if |s.buffer| < LOG_BUFFER_SIZE then t.(buffer := s.buffer + [log], accepted := s.accepted + [log])
      else t.(dropped := s.dropped + [log])
    case Cancel => s.(cancelled := true)
    case Take(w) =>
      var log := s.buffer[0];
      s.(buffer := s.buffer[1..], taken := s.taken + [log],
         workers := s.workers[w := if s.workers[w] == Running then Saving(log) else DrainSaving(log)])
    case Save(w) =>
      s.(saved := s.saved + [s.workers[w].log],
         workers := s.workers[w := if s.workers[w].Saving? then Running else Draining])
    case SeeCancelled(w) => s.(workers := s.workers[w := Draining])
    case Return(w) => s.(workers := s.workers[w := Returned])
  }

  predicate CanRun(s: State, run: seq<Step>)
    decreases |run|
  {
    run == [] || (Enabled(s, run[0]) && CanRun(Apply(s, run[0]), run[1..]))
  }

  function Run(s: State, run: seq<Step>): State
    requires CanRun(s, run)
    decreases |run|
  {
    if run == [] then s else Run(Apply(s, run[0]), run[1..])
  }

  lemma StepFirst(s: State, l: Step, rest: seq<Step>)
    requires Enabled(s, l) && CanRun(Apply(s, l), rest)
    ensures CanRun(s, [l] + rest) && Run(s, [l] + rest) == Run(Apply(s, l), rest)
  {
    assert ([l] + rest)[1..] == rest;
  }

  ghost predicate Init(s: State) {
    && s == State([], false, s.workers, [], [], [], [], [])
    && forall w :: 0 <= w < |s.workers| ==> s.workers[w] == Running
  }

  function Holds(w: Worker, x: Log): nat {
    if w == Saving(x) || w == DrainSaving(x) then 1 else 0
  }

  /** How many workers have taken log `x` and not yet saved it. */
  function InHands(workers: seq<Worker>, x: Log): nat {
    if workers == [] then 0 else Holds(workers[0], x) + InHands(workers[1..], x)
  }

  /** How often `x` occurs. */
  function Times(q: seq<Log>, x: Log): nat {
    if q == [] then 0 else (if q[0] == x then 1 else 0) + Times(q[1..], x)
  }

  lemma {:induction false} TimesAdd(a: seq<Log>, b: seq<Log>, x: Log)
    ensures Times(a + b, x) == Times(a, x) + Times(b, x)
  {
    if a == [] {
      assert a + b == b;
    } else {
      TimesAdd(a[1..], b, x);
      assert (a + b)[1..] == a[1..] + b;
    }
  }

  lemma TimesAppend(q: seq<Log>, log: Log, x: Log)
    ensures Times(q + [log], x) == Times(q, x) + (if log == x then 1 else 0)
  {
    TimesAdd(q, [log], x);
  }

  lemma {:induction false} InHandsUpdate(workers: seq<Worker>, w: nat, v: Worker, x: Log)
    requires w < |workers|
    ensures InHands(workers[w := v], x) == InHands(workers, x) - Holds(workers[w], x) + Holds(v, x)
  {
    if w == 0 {
      assert workers[w := v][1..] == workers[1..];
    } else {
      InHandsUpdate(workers[1..], w - 1, v, x);
      assert workers[w := v][1..] == workers[1..][w - 1 := v];
    }
  }

  lemma {:induction false} NothingInHands(workers: seq<Worker>, x: Log)
    requires forall w :: 0 <= w < |workers| ==> !workers[w].Saving? && !workers[w].DrainSaving?
    ensures InHands(workers, x) == 0
  {
    if workers == [] {
    } else {
      NothingInHands(workers[1..], x);
    }
  }

  // ---------- Accounting ----------

  /** For each log `x`: accepted logs leave the buffer in order, then are in one worker's hands or saved. */
  ghost predicate Accounted(s: State, x: Log) {
    && |s.buffer| <= LOG_BUFFER_SIZE
    && s.accepted == s.taken + s.buffer
    && Times(s.published, x) == Times(s.accepted, x) + Times(s.dropped, x)
    && Times(s.taken, x) == Times(s.saved, x) + InHands(s.workers, x)
  }

  lemma AcceptedStep(s: State, l: Step)
    requires Enabled(s, l) && |s.buffer| <= LOG_BUFFER_SIZE && s.accepted == s.taken + s.buffer
    ensures |Apply(s, l).buffer| <= LOG_BUFFER_SIZE
    ensures Apply(s, l).accepted == Apply(s, l).taken + Apply(s, l).buffer
  {
    if l.Take? {
      assert s.buffer == [s.buffer[0]] + s.buffer[1..];
    }
  }

  lemma PublishedStep(s: State, l: Step, x: Log)
    requires Enabled(s, l) && Times(s.published, x) == Times(s.accepted, x) + Times(s.dropped, x)
    ensures Times(Apply(s, l).published, x) == Times(Apply(s, l).accepted, x) + Times(Apply(s, l).dropped, x)
  {
    if l.Publish? {
      TimesAppend(s.published, l.log, x);
      TimesAppend(s.accepted, l.log, x);
      TimesAppend(s.dropped, l.log, x);
    }
  }

  lemma TakenStep(s: State, l: Step, x: Log)
    requires Enabled(s, l) && Times(s.taken, x) == Times(s.saved, x) + InHands(s.workers, x)
    ensures Times(Apply(s, l).taken, x) == Times(Apply(s, l).saved, x) + InHands(Apply(s, l).workers, x)
  {
    if !l.Publish? && !l.Cancel? {
      InHandsUpdate(s.workers, l.w, Apply(s, l).workers[l.w], x);
    }
    if l.Take? {
      TimesAppend(s.taken, s.buffer[0], x);
    } else if l.Save? {
      TimesAppend(s.saved, s.workers[l.w].log, x);
    }
  }

  lemma AccountedStep(s: State, l: Step, x: Log)
    requires Accounted(s, x) && Enabled(s, l)
    ensures Accounted(Apply(s, l), x)
  {
    AcceptedStep(s, l);
    PublishedStep(s, l, x);
    TakenStep(s, l, x);
  }

  lemma {:induction false} AccountedRun(s: State, run: seq<Step>, x: Log)
    requires Accounted(s, x) && CanRun(s, run)
    ensures Accounted(Run(s, run), x) && |Run(s, run).workers| == |s.workers|
    decreases |run|
  {
    if run == [] {
    } else {
      assert Accounted(Apply(s, run[0]), x) by {
        AccountedStep(s, run[0], x);
      }
      AccountedRun(Apply(s, run[0]), run[1..], x);
    }
  }

  /**
   In every reachable state, each log was published as often as it was dropped, is buffered, is in a
   worker's hands and has been saved, taken together; and the buffer keeps to its size.
   */
  lemma EveryLogAccountedFor(s: State, run: seq<Step>, x: Log)
    requires Init(s) && CanRun(s, run)
    ensures var t := Run(s, run);
            && |t.buffer| <= LOG_BUFFER_SIZE && |t.workers| == |s.workers|
            && t.accepted == t.taken + t.buffer
            && Times(t.accepted, x) == Times(t.buffer, x) + InHands(t.workers, x) + Times(t.saved, x)
            && Times(t.published, x)
                 == Times(t.dropped, x) + Times(t.buffer, x) + InHands(t.workers, x) + Times(t.saved, x)
  {
    NothingInHands(s.workers, x);
    AccountedRun(s, run, x);
    TimesAdd(Run(s, run).taken, Run(s, run).buffer, x);
  }

  /**
   In every run, a log is dropped exactly when it is published while 512 logs are buffered, and is put at
   the end of the buffer otherwise; no other step drops or accepts anything.
   */
  lemma DropsOnlyWhenFull(s: State, run: seq<Step>, l: Step)
    requires Init(s) && CanRun(s, run) && Enabled(Run(s, run), l)
    ensures var t := Run(s, run);
            var u := Apply(t, l);
            && u.dropped == (if l.Publish? && |t.buffer| == 512 then t.dropped + [l.log] else t.dropped)
            && u.accepted == (if l.Publish? && |t.buffer| < 512 then t.accepted + [l.log] else t.accepted)
            && (l.Publish? && |t.buffer| < 512 ==> u.buffer == t.buffer + [l.log])
            && u.published == (if l.Publish? then t.published + [l.log] else t.published)
  {
    EveryLogAccountedFor(s, run, Log(""));
  }

  /** No worker is stuck while there is work, and one in its main loop can see a cancellation at any time. */
  lemma WorkersCanWork(s: State, w: nat)
    requires w < |s.workers| && s.workers[w] != Returned
    ensures s.buffer != [] ==> Enabled(s, Take(w)) || Enabled(s, Save(w))
    ensures s.cancelled ==> exists l :: Enabled(s, l) && !l.Publish? && !l.Cancel? && l.w == w
    ensures s.workers[w] == Running ==> (Enabled(s, SeeCancelled(w)) <==> s.cancelled)
  {
    if s.cancelled {
      assert Enabled(s, Take(w)) || Enabled(s, Save(w)) || Enabled(s, SeeCancelled(w)) || Enabled(s, Return(w));
    }
  }

  // ---------- Draining ----------

  /** Nothing is published once the context is cancelled. */
  ghost predicate QuietAfterCancel(s: State, run: seq<Step>)
    decreases |run|
  {
    run == [] || (Enabled(s, run[0]) ==>
      (s.cancelled ==> !run[0].Publish?) && QuietAfterCancel(Apply(s, run[0]), run[1..]))
  }

  /** Workers leave their main loop only after cancellation, and return only from an empty buffer. */
  ghost predicate Drained(s: State) {
    && (forall w :: 0 <= w < |s.workers| && !s.workers[w].Running? && !s.workers[w].Saving? ==> s.cancelled)
    && ((exists w :: 0 <= w < |s.workers| && s.workers[w] == Returned) ==> s.buffer == [])
  }

  lemma DrainedStep(s: State, l: Step)
    requires Drained(s) && Enabled(s, l) && (s.cancelled ==> !l.Publish?)
    ensures Drained(Apply(s, l))
  {
    var t := Apply(s, l);
    if w :| 0 <= w < |t.workers| && t.workers[w] == Returned {
      assert l != Return(w) ==> s.workers[w] == Returned;
    }
  }

  lemma {:induction false} DrainedRun(s: State, run: seq<Step>)
    requires Drained(s) && CanRun(s, run) && QuietAfterCancel(s, run)
    ensures Drained(Run(s, run))
    decreases |run|
  {
    if run == [] {
    } else {
      DrainedStep(s, run[0]);
      DrainedRun(Apply(s, run[0]), run[1..]);
    }
  }

  ghost predicate AllReturned(s: State) {
    forall w :: 0 <= w < |s.workers| ==> s.workers[w] == Returned
  }

  /**
   If nothing is published after cancellation, the buffer is empty from the moment any worker has
   returned; when all have returned, each log has been given to Save as often as it was accepted.
   */
  lemma QuietShutdownSavesAll(s: State, run: seq<Step>, x: Log)
    requires Init(s) && |s.workers| > 0 && CanRun(s, run) && QuietAfterCancel(s, run)
    ensures var t := Run(s, run);
            && ((exists w :: 0 <= w < |t.workers| && t.workers[w] == Returned) ==> t.buffer == [])
            && (AllReturned(t) ==> Times(t.saved, x) == Times(t.accepted, x))
  {
    var t := Run(s, run);
    EveryLogAccountedFor(s, run, x);
    DrainedRun(s, run);
    if AllReturned(t) {
      assert t.workers[0] == Returned;
      NothingInHands(t.workers, x);
    }
  }

  /** A log accepted after the last worker has returned is never saved, whatever happens next. */
  lemma {:induction false} LateLogsAreStranded(s: State, run: seq<Step>)
    requires AllReturned(s) && CanRun(s, run)
    ensures Run(s, run).saved == s.saved && s.buffer <= Run(s, run).buffer
    ensures AllReturned(Run(s, run))
    decreases |run|
  {
    if run == [] {
    } else {
      LateLogsAreStranded(Apply(s, run[0]), run[1..]);
    }
  }

  /** Everything ever accepted has been saved, as often as it was accepted. */
  ghost predicate AllSaved(s: State) {
    forall x :: Times(s.saved, x) == Times(s.accepted, x)
  }

  ghost predicate NothingPublished(run: seq<Step>) {
    forall l :: l in run ==> !l.Publish?
  }

  /** With all workers gone, what is not saved is in the buffer. */
  lemma SavedIffBufferEmpty(t: State)
    requires AllReturned(t) && forall x :: Accounted(t, x)
    ensures AllSaved(t) <==> t.buffer == []
  {
    forall x
      ensures Times(t.accepted, x) == Times(t.saved, x) + Times(t.buffer, x)
    {
      assert Accounted(t, x);
      TimesAdd(t.taken, t.buffer, x);
      NothingInHands(t.workers, x);
    }
    if t.buffer != [] {
      var x := t.buffer[0];
      assert Times(t.buffer, x) > 0;
      assert Times(t.accepted, x) == Times(t.saved, x) + Times(t.buffer, x);
    }
  }

  /** Once all workers have returned from an empty buffer, it stays empty exactly as long as nothing is published. */
  lemma {:induction false} EmptyIffNothingPublished(s: State, late: seq<Step>)
    requires AllReturned(s) && s.buffer == [] && CanRun(s, late)
    ensures Run(s, late).buffer == [] <==> NothingPublished(late)
    decreases |late|
  {
    if late == [] {
    } else {
      var t := Apply(s, late[0]);
      assert late[0] in late;
      if late[0].Publish? {
        LateLogsAreStranded(t, late[1..]);
        assert |t.buffer| == 1;
      } else {
        EmptyIffNothingPublished(t, late[1..]);
        assert forall l :: l in late <==> l == late[0] || l in late[1..];
      }
    }
  }

  lemma AccountedBeyond(s: State, run: seq<Step>, l: Step, late: seq<Step>, x: Log)
    requires Init(s) && CanRun(s, run) && Enabled(Run(s, run), l) && CanRun(Apply(Run(s, run), l), late)
    ensures Accounted(Run(Apply(Run(s, run), l), late), x)
  {
    NothingInHands(s.workers, x);
    AccountedRun(s, run, x);
    AccountedStep(Run(s, run), l, x);
    AccountedRun(Apply(Run(s, run), l), late, x);
  }

  /**
   However the run up to the last worker's return went: everything ever accepted is saved in the end
   if and only if nothing is published after that return.
   */
  lemma AllSavedIffNothingLate(s: State, run: seq<Step>, w: nat, late: seq<Step>)
    requires Init(s) && CanRun(s, run) && Enabled(Run(s, run), Return(w))
    requires AllReturned(Apply(Run(s, run), Return(w)))
    requires CanRun(Apply(Run(s, run), Return(w)), late)
    ensures var t := Run(Apply(Run(s, run), Return(w)), late);
            AllSaved(t) <==> NothingPublished(late)
  {
    var last := Apply(Run(s, run), Return(w));
    var t := Run(last, late);
    forall x
      ensures Accounted(t, x)
    {
      AccountedBeyond(s, run, Return(w), late, x);
    }
    LateLogsAreStranded(last, late);
    EmptyIffNothingPublished(last, late);
    SavedIffBufferEmpty(t);
  }

  /** One worker sees the cancellation and returns; a log published after that is accepted and stays. */
  lemma OneLogStranded(log: Log)
    ensures var s := State([], false, [Running], [], [], [], [], []);
            var run := [Cancel] + ([SeeCancelled(0)] + ([Return(0)] + [Publish(log)]));
            && Init(s) && CanRun(s, run)
            && var t := Run(s, run);
            AllReturned(t) && t.accepted == [log] && t.saved == [] && t.buffer == [log]
  {
    var s := State([], false, [Running], [], [], [], [], []);
    var s1 := Apply(s, Cancel);
    var s2 := Apply(s1, SeeCancelled(0));
    var s3 := Apply(s2, Return(0));
    StepFirst(s3, Publish(log), []);
    assert [Publish(log)] == [Publish(log)] + [];
    StepFirst(s2, Return(0), [Publish(log)]);
    StepFirst(s1, SeeCancelled(0), [Return(0)] + [Publish(log)]);
    StepFirst(s, Cancel, [SeeCancelled(0)] + ([Return(0)] + [Publish(log)]));
  }

  // ---------- A worker alone ----------

  /** One worker takes and saves `n` logs in its drain loop. */
  function DrainSteps(w: nat, n: nat): seq<Step> {
    if n == 0 then [] else [Take(w)] + ([Save(w)] + DrainSteps(w, n - 1))
  }

  lemma OneByOne(a: seq<Log>, b: seq<Log>)
    requires b != []
    ensures (a + [b[0]]) + b[1..] == a + b
  {
  }

  /**
   A worker that drains with nothing in between saves the whole buffer in order, as the method `Drain`
   does, and can then return.
   */
  lemma {:induction false} DrainAlone(s: State, w: nat)
    requires w < |s.workers| && s.workers[w] == Draining
    ensures CanRun(s, DrainSteps(w, |s.buffer|))
    ensures var t := Run(s, DrainSteps(w, |s.buffer|));
            && t == s.(buffer := [], taken := s.taken + s.buffer, saved := s.saved + s.buffer)
            && Enabled(t, Return(w))
    decreases |s.buffer|
  {
    if s.buffer == [] {
      assert s.taken + s.buffer == s.taken && s.saved + s.buffer == s.saved;
    } else {
      var n := |s.buffer| - 1;
      var taken := Apply(s, Take(w));
      var t := Apply(taken, Save(w));
      assert t.workers == s.workers;
      DrainAlone(t, w);
      StepFirst(taken, Save(w), DrainSteps(w, n));
      StepFirst(s, Take(w), [Save(w)] + DrainSteps(w, n));
      OneByOne(s.taken, s.buffer);
      OneByOne(s.saved, s.buffer);
    }
  }

  // ---------- Shutdown ends ----------

  function WorkerWork(w: Worker): nat {
    match w
    case Saving(_) => 3
    case Running => 2
    case DrainSaving(_) => 2
    case Draining => 1
    case Returned => 0
  }

  function Work(workers: seq<Worker>): nat {
    if workers == [] then 0 else WorkerWork(workers[0]) + Work(workers[1..])
  }

  lemma {:induction false} WorkUpdate(workers: seq<Worker>, w: nat, v: Worker)
    requires w < |workers|
    ensures Work(workers[w := v]) == Work(workers) - WorkerWork(workers[w]) + WorkerWork(v)
  {
    if w == 0 {
      assert workers[w := v][1..] == workers[1..];
    } else {
      WorkUpdate(workers[1..], w - 1, v);
      assert workers[w := v][1..] == workers[1..][w - 1 := v];
    }
  }

  lemma {:induction false} WorkRun(s: State, run: seq<Step>)
    requires CanRun(s, run) && forall l :: l in run ==> !l.Publish? && !l.Cancel?
    ensures |run| + Work(Run(s, run).workers) + 2 * |Run(s, run).buffer| <= Work(s.workers) + 2 * |s.buffer|
    ensures Run(s, run).cancelled == s.cancelled
    decreases |run|
  {
    if run == [] {
    } else {
      var l := run[0];
      var t := Apply(s, l);
      assert l in run;
      WorkUpdate(s.workers, l.w, t.workers[l.w]);
      assert t.workers == s.workers[l.w := t.workers[l.w]];
      WorkRun(t, run[1..]);
    }
  }

  lemma {:induction false} AtMostThreeEach(workers: seq<Worker>)
    ensures Work(workers) <= 3 * |workers|
  {
    if workers == [] {
    } else {
      AtMostThreeEach(workers[1..]);
    }
  }

  /**
   Once cancelled and quiet, the workers take at most two steps per buffered log and three each
   besides; and when they can take no more, all of them have returned.
   */
  lemma ShutdownEnds(s: State, run: seq<Step>)
    requires s.cancelled && CanRun(s, run) && forall l :: l in run ==> !l.Publish? && !l.Cancel?
    ensures |run| <= 3 * |s.workers| + 2 * |s.buffer|
    ensures (forall l :: Enabled(Run(s, run), l) ==> l.Publish? || l.Cancel?) ==> AllReturned(Run(s, run))
  {
    WorkRun(s, run);
    AtMostThreeEach(s.workers);
    var t := Run(s, run);
    if w :| 0 <= w < |t.workers| && t.workers[w] != Returned {
      assert Enabled(t, Take(w)) || Enabled(t, Save(w)) || Enabled(t, SeeCancelled(w)) || Enabled(t, Return(w));
    }
  }
}
