/**
 A `Release` that nobody interferes with, step by step in the machine of all interleavings, does what
 the scan function says: the two queue classes, proved against that function, agree with the machine.
 */
module ReleaseRuns {
  import opened Wrappers
  import opened BinaryHeap
  import opened QueueDiscipline
  import opened Admission
  import opened AdmissionSafety
  import opened AdmissionTheorems

  // ---------- Keys matter only by their values ----------

  ghost predicate Agree<T(!new)>(k1: T -> real, k2: T -> real) {
    forall x :: k1(x) == k2(x)
  }

  lemma {:induction false} SameDown<T(!new)>(s: seq<T>, k1: T -> real, k2: T -> real, i: nat, n: nat)
    requires n <= |s| && Agree(k1, k2)
    ensures Down(s, k1, i, n) == Down(s, k2, i, n)
    decreases n - i
  {
    if 2 * i + 1 < n {
      var j := GreaterChild(s, k1, i, n);
      assert j == GreaterChild(s, k2, i, n);
      SameDown(Swap(s, i, j), k1, k2, j, n);
    }
  }

  lemma SameDeq<T(!new)>(d: Discipline, q: seq<T>, k1: T -> real, k2: T -> real)
    requires q != [] && Agree(k1, k2)
    ensures Deq(d, q, k1) == Deq(d, q, k2)
  {
    SameDown(Swap(q, 0, |q| - 1), k1, k2, 0, |q| - 1);
  }

  // ---------- The steps of one Release ----------

  /** The steps a `Release` takes when it finds these waiters, of which these are completed. */
  function ReleaseSteps(d: Discipline, q: seq<nat>, key: nat -> real, done: set<nat>, r: nat): seq<Step>
    decreases |q|
  {
    if q == [] then [LockAndPop(r)] + [Deposit(r)]
    else
      var (w, rest) := Deq(d, q, key);
      [LockAndPop(r)] + ([GrantSwap(r)] + if w in done then ReleaseSteps(d, rest, key, done, r) else [SendGrant(r)])
  }

  /** From `s` to `t`, request `r` finished its release by giving its permit to `g`, or back. */
  ghost predicate Released(s: State, t: State, r: nat, g: Option<nat>, rest: seq<nat>)
    requires r < |s.reqs|
  {
    && t.queue == rest && |t.reqs| == |s.reqs|
    && |t.sem| == |s.sem| + (if g == None then 1 else 0)
    && t.reqs[r] == s.reqs[r].(stage := Finished)
    && forall w :: 0 <= w < |s.reqs| && w != r ==>
         t.reqs[w] == if g == Some(w) then Told(s.reqs[w]) else s.reqs[w]
  }

  function Told(v: Request): Request {
    v.(done := true, ch := v.ch + [true], sent := v.sent + [true])
  }

  ghost predicate IsDoneSet(s: State, done: set<nat>) {
    forall w :: w in s.queue ==> w < |s.reqs| && (w in done <==> s.reqs[w].done)
  }

  ghost predicate Ready(s: State, r: nat) {
    && Inv(s) && r < |s.reqs| && s.reqs[r].stage == Looping
    && |s.sem| + Permits(s.reqs) <= s.max
  }

  /** Nothing to hand the permit to: it goes back to the channel. */
  lemma DepositRun(d: Discipline, s: State, r: nat)
    requires Ready(s, r) && s.queue == []
    ensures var steps := [LockAndPop(r)] + [Deposit(r)];
            CanRun(d, s, steps) && Released(s, Run(d, s, steps), r, None, [])
  {
    PermitsUpdate(s.reqs, r, s.reqs[r]);
    var u := Apply(d, s, LockAndPop(r));
    assert Enabled(u, Deposit(r));
    SingleStep(d, u, Deposit(r));
    StepFirst(d, s, LockAndPop(r), [Deposit(r)]);
  }

  /** Pop and swap: what the two steps do to the state, whether the waiter is live or not. */
  lemma PopAndSwap(d: Discipline, s: State, r: nat)
    requires Ready(s, r) && s.queue != []
    ensures Enabled(s, LockAndPop(r)) && Enabled(Apply(d, s, LockAndPop(r)), GrantSwap(r))
    ensures var (w, rest) := Deq(d, s.queue, RankAt(s.reqs));
            var u := Apply(d, Apply(d, s, LockAndPop(r)), GrantSwap(r));
            && w < |s.reqs| && (!s.reqs[w].done ==> w != r && s.reqs[w].ch == [])
            && Inv(u) && u.sem == s.sem && u.max == s.max && u.queue == rest
            && |u.sem| + Permits(u.reqs) <= u.max
            && u.reqs == if s.reqs[w].done then s.reqs
                         else s.reqs[w := s.reqs[w].(done := true)][r := s.reqs[r].(stage := Handing(w))]
  {
    DeqTakes(d, s.queue, RankAt(s.reqs));
    var w := s.queue[0];
    assert w in s.queue && QueueLinked(s) && Local(s.reqs[w]) && Local(s.reqs[r]);
    PopAndSwapEffect(d, s, r, w);
    var u := Apply(d, s, LockAndPop(r));
    assert Inv(Apply(d, u, GrantSwap(r))) by {
      InvStep(d, s, LockAndPop(r));
      InvStep(d, u, GrantSwap(r));
    }
    var t := Apply(d, u, GrantSwap(r));
    assert |t.sem| + Permits(t.reqs) == |s.sem| + Permits(s.reqs) by {
      InvStep(d, s, LockAndPop(r));
      ConservedStep(d, s, LockAndPop(r));
      ConservedStep(d, u, GrantSwap(r));
    }
  }

  lemma PopAndSwapEffect(d: Discipline, s: State, r: nat, w: nat)
    requires Enabled(s, LockAndPop(r)) && s.queue != [] && w < |s.reqs|
    requires Deq(d, s.queue, RankAt(s.reqs)).0 == w && (!s.reqs[w].done ==> w != r)
    ensures Enabled(Apply(d, s, LockAndPop(r)), GrantSwap(r))
    ensures var u := Apply(d, Apply(d, s, LockAndPop(r)), GrantSwap(r));
            && u.sem == s.sem && u.max == s.max && u.queue == Deq(d, s.queue, RankAt(s.reqs)).1
            && u.reqs == if s.reqs[w].done then s.reqs
                         else s.reqs[w := s.reqs[w].(done := true)][r := s.reqs[r].(stage := Handing(w))]
  {
  }

  /** Taking these steps completes the release of `r` in that way. */
  ghost predicate Achieves(d: Discipline, s: State, r: nat, steps: seq<Step>, g: Option<nat>, rest: seq<nat>)
    requires r < |s.reqs|
  {
    CanRun(d, s, steps) && Released(s, Run(d, s, steps), r, g, rest)
  }

  /** The last step of a grant. */
  lemma SendStep(d: Discipline, s: State, u: State, r: nat, w: nat)
    requires r < |s.reqs| && w < |s.reqs| && w != r && s.reqs[w].ch == [] && u.sem == s.sem
    requires u.reqs == s.reqs[w := s.reqs[w].(done := true)][r := s.reqs[r].(stage := Handing(w))]
    ensures Enabled(u, SendGrant(r))
    ensures Released(s, Apply(d, u, SendGrant(r)), r, Some(w), u.queue)
  {
  }

  /** A live waiter is next: it is granted. */
  lemma GrantRun(d: Discipline, s: State, r: nat)
    requires Ready(s, r) && s.queue != []
    requires s.queue[0] < |s.reqs| && !s.reqs[s.queue[0]].done
    ensures Achieves(d, s, r, [LockAndPop(r)] + ([GrantSwap(r)] + [SendGrant(r)]),
                     Some(s.queue[0]), Deq(d, s.queue, RankAt(s.reqs)).1)
  {
    PopAndSwap(d, s, r);
    var w := s.queue[0];
    assert Deq(d, s.queue, RankAt(s.reqs)).0 == w by {
      DeqTakes(d, s.queue, RankAt(s.reqs));
    }
    var p := Apply(d, s, LockAndPop(r));
    var u := Apply(d, p, GrantSwap(r));
    SendStep(d, s, u, r, w);
    SingleStep(d, u, SendGrant(r));
    StepFirst(d, p, GrantSwap(r), [SendGrant(r)]);
    StepFirst(d, s, LockAndPop(r), [GrantSwap(r)] + [SendGrant(r)]);
  }

  /** A completed waiter is next: it is dropped, and the loop goes on. */
  lemma DropRun(d: Discipline, s: State, r: nat, steps: seq<Step>, g: Option<nat>, rest: seq<nat>)
    requires Ready(s, r) && s.queue != []
    requires s.queue[0] < |s.reqs| && s.reqs[s.queue[0]].done
    requires var p := Apply(d, s, LockAndPop(r));
             Enabled(p, GrantSwap(r)) && Apply(d, p, GrantSwap(r)).reqs == s.reqs
             && Achieves(d, Apply(d, p, GrantSwap(r)), r, steps, g, rest)
    ensures Achieves(d, s, r, [LockAndPop(r)] + ([GrantSwap(r)] + steps), g, rest)
  {
    var p := Apply(d, s, LockAndPop(r));
    StepFirst(d, p, GrantSwap(r), steps);
    StepFirst(d, s, LockAndPop(r), [GrantSwap(r)] + steps);
  }

  lemma {:induction false} ReleaseAlone(d: Discipline, s: State, r: nat, key: nat -> real, done: set<nat>)
    requires Ready(s, r) && IsDoneSet(s, done) && Agree(key, RankAt(s.reqs))
    ensures var (g, rest) := Scan<nat>(d, s.queue, key, done);
            Achieves(d, s, r, ReleaseSteps(d, s.queue, key, done, r), g, rest)
    decreases |s.queue|
  {
    if s.queue == [] {
      DepositRun(d, s, r);
    } else {
      SameDeq(d, s.queue, key, RankAt(s.reqs));
      DeqTakes(d, s.queue, key);
      var (w, rest) := Deq(d, s.queue, key);
      assert w == s.queue[0] && w in s.queue;
      if w in done {
        PopAndSwap(d, s, r);
        var u := Apply(d, Apply(d, s, LockAndPop(r)), GrantSwap(r));
        assert Ready(u, r) && IsDoneSet(u, done) && Agree(key, RankAt(u.reqs));
        ReleaseAlone(d, u, r, key, done);
        var (g, left) := Scan<nat>(d, rest, key, done);
        DropRun(d, s, r, ReleaseSteps(d, rest, key, done, r), g, left);
      } else {
        GrantRun(d, s, r);
      }
    }
  }

  function DoneSet(s: State): set<nat> {
    set w: nat | w < |s.reqs| && s.reqs[w].done
  }

  /**
   Whatever happened before, a Release that has begun can be carried through by its own steps alone,
   and then has granted, discarded and kept exactly the waiters that the scan function says.
   */
  lemma UndisturbedRelease(d: Discipline, s: State, run: seq<Step>, r: nat)
    requires Init(s) && CanRun(d, s, run)
    requires r < |Run(d, s, run).reqs| && Run(d, s, run).reqs[r].stage == Looping
    ensures var t := Run(d, s, run);
            var (g, rest) := Scan<nat>(d, t.queue, RankAt(t.reqs), DoneSet(t));
            Achieves(d, t, r, ReleaseSteps(d, t.queue, RankAt(t.reqs), DoneSet(t), r), g, rest)
  {
    var t := Run(d, s, run);
    assert Ready(t, r) by {
      InvInit(s);
      InvRun(d, s, run);
      ConservedRun(d, s, run);
      PermitsConserved(d, s, run);
    }
    assert QueueLinked(t);
    ReleaseAlone(d, t, r, RankAt(t.reqs), DoneSet(t));
  }
}
