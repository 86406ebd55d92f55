/**
 The per-token count of requests in progress, `internal/domain/api/service/redis_rate_limiter.go`.
 A decrement that takes the count below zero puts it back to zero. Whether Redis carries out a
 command is a parameter; the expiry of a key is an event from outside.
 */
module ConcurrencyCounter {

  datatype Op = Inc | Dec

  /** One whole call. */
  function Next(count: int, op: Op): int {
    if op == Inc then count + 1 else if count - 1 < 0 then 0 else count - 1
  }

  /** The count after a sequence of whole calls on an absent key. */
  function Count(ops: seq<Op>): int {
    if ops == [] then 0 else Next(Count(ops[..|ops| - 1]), ops[|ops| - 1])
  }

  // ---------- Closed form ----------

  /** Increments minus decrements. */
  function Net(ops: seq<Op>): int {
    if ops == [] then 0 else (if ops[0] == Inc then 1 else -1) + Net(ops[1..])
  }

  lemma {:induction false} NetAppend(a: seq<Op>, b: seq<Op>)
    ensures Net(a + b) == Net(a) + Net(b)
  {
    if a == [] {
      assert a + b == b;
    } else {
      NetAppend(a[1..], b);
      assert (a + b)[1..] == a[1..] + b;
    }
  }

  /** `m` is the greatest net change of any suffix, the empty one included. */
  ghost predicate GreatestSuffix(ops: seq<Op>, m: int) {
    && (exists i :: 0 <= i <= |ops| && m == Net(ops[i..]))
    && (forall i :: 0 <= i <= |ops| ==> Net(ops[i..]) <= m)
  }

  lemma SuffixAppend(ops: seq<Op>, op: Op, i: nat)
    requires i <= |ops|
    ensures Net((ops + [op])[i..]) == Net(ops[i..]) + (if op == Inc then 1 else -1)
  {
    assert (ops + [op])[i..] == ops[i..] + [op];
    NetAppend(ops[i..], [op]);
    assert [op][1..] == [];
  }

  /** The clamped count is the greatest net change over all suffixes of the history. */
  lemma {:induction false} CountIsGreatestSuffix(ops: seq<Op>)
    ensures GreatestSuffix(ops, Count(ops))
    decreases |ops|
  {
    if ops == [] {
      assert Net(ops[0..]) == 0;
    } else {
      var n := |ops| - 1;
      var front, op := ops[..n], ops[n];
      assert ops == front + [op];
      CountIsGreatestSuffix(front);
      var change := if op == Inc then 1 else -1;
      forall i: nat | i <= n
        ensures Net(ops[i..]) == Net(front[i..]) + change
      {
        SuffixAppend(front, op, i);
      }
      assert ops[|ops|..] == [] && Net(ops[|ops|..]) == 0;
      assert Net(front[n..]) == 0 by { assert front[n..] == []; }
      var i :| 0 <= i <= n && Count(front) == Net(front[i..]);
      assert Net(ops[i..]) == Count(front) + change;
      assert Count(ops) == Net(ops[i..]) || Count(ops) == Net(ops[|ops|..]);
    }
  }

  /** The count is never negative and never below increments minus decrements. */
  lemma CountNeverUnderReports(ops: seq<Op>)
    ensures Count(ops) >= 0 && Count(ops) >= Net(ops)
  {
    CountIsGreatestSuffix(ops);
    assert ops[|ops|..] == [] && ops[0..] == ops;
    assert Net(ops[|ops|..]) <= Count(ops) && Net(ops[0..]) <= Count(ops);
  }

  /** It is exact precisely when no prefix has more decrements than increments. */
  lemma {:induction false} CountIsExactIff(ops: seq<Op>)
    ensures Count(ops) == Net(ops) <==> forall i :: 0 <= i <= |ops| ==> Net(ops[..i]) >= 0
  {
    CountIsGreatestSuffix(ops);
    forall i | 0 <= i <= |ops|
      ensures Net(ops) == Net(ops[..i]) + Net(ops[i..])
    {
      assert ops == ops[..i] + ops[i..];
      NetAppend(ops[..i], ops[i..]);
    }
    assert ops[0..] == ops;
    if forall i :: 0 <= i <= |ops| ==> Net(ops[..i]) >= 0 {
      var i :| 0 <= i <= |ops| && Count(ops) == Net(ops[i..]);
      assert Net(ops[..i]) >= 0;
      assert Net(ops[0..]) <= Count(ops);
    }
    if Count(ops) == Net(ops) {
      forall i | 0 <= i <= |ops|
        ensures Net(ops[..i]) >= 0
      {
        assert Net(ops[i..]) <= Count(ops);
      }
    }
  }

  // ---------- The limiter ----------

  lemma OneMore(ops: seq<Op>, op: Op)
    ensures Net(ops + [op]) == Net(ops) + (if op == Inc then 1 else -1)
    ensures Count(ops + [op]) == Next(Count(ops), op)
  {
    NetAppend(ops, [op]);
    assert [op][1..] == [];
    assert (ops + [op])[..|ops|] == ops;
  }

  /** A count lies between the net change and the clamped count, and is the latter if always clamped. */
  ghost predicate Tallies(count: int, ops: seq<Op>, missedClamp: bool) {
    && Net(ops) <= count <= Count(ops)
    && (!missedClamp ==> count == Count(ops))
  }

  lemma StillTallies(count: int, ops: seq<Op>, missedClamp: bool, op: Op, clamped: bool)
    requires Tallies(count, ops, missedClamp)
    ensures var raw := if op == Inc then count + 1 else count - 1;
            && (op == Inc || raw >= 0 ==> Tallies(raw, ops + [op], missedClamp))
            && (op == Dec && raw < 0 ==> Tallies(if clamped then 0 else raw, ops + [op], missedClamp || !clamped))
  {
    OneMore(ops, op);
  }

  /** `history` records the whole calls carried out for each token since its key last expired. */
  class RateLimiter {
    var counts: map<int, int>  // Redis; an absent key counts as zero
    ghost var history: map<int, seq<Op>>
    ghost var unclamped: set<int>  // tokens for which a SET after a DECR failed

    function ConcurrentOf(id: int): int
      reads this
    {
      if id in counts then counts[id] else 0
    }

    ghost function HistoryOf(id: int): seq<Op>
      reads this
    {
      if id in history then history[id] else []
    }

    ghost predicate Valid()
      reads this
    {
      forall id :: Tallies(ConcurrentOf(id), HistoryOf(id), id in unclamped)
    }

    constructor ()
      ensures Valid() && counts == map[] && history == map[] && unclamped == {}
    {
      counts := map[];
      history, unclamped := map[], {};
    }

    /** Record a call whose effect on the count has just taken place. */
    ghost method NoteCall(id: int, op: Op, missedClamp: bool)
      requires forall o :: o != id ==> Tallies(ConcurrentOf(o), HistoryOf(o), o in unclamped)
      requires Tallies(ConcurrentOf(id), HistoryOf(id) + [op], id in unclamped || missedClamp)
      modifies this`history, this`unclamped
      ensures Valid() && history == old(history)[id := old(HistoryOf(id)) + [op]]
      ensures unclamped == old(unclamped) + (if missedClamp then {id} else {})
    {
      history := history[id := HistoryOf(id) + [op]];
      unclamped := unclamped + (if missedClamp then {id} else {});
    }

    method IncrementConcurrent(id: int, up: bool) returns (count: int, failed: bool)
      requires Valid()
      modifies this
      ensures Valid() && failed == !up && unclamped == old(unclamped)
      ensures failed ==> count == 0 && counts == old(counts) && history == old(history)
      ensures !failed ==>
                && count == old(ConcurrentOf(id)) + 1 && counts == old(counts)[id := count]
                && history == old(history)[id := old(HistoryOf(id)) + [Inc]]
    {
      if !up {
        return 0, true;
      }
      assert Tallies(ConcurrentOf(id), HistoryOf(id), id in unclamped);
      StillTallies(ConcurrentOf(id), HistoryOf(id), id in unclamped, Inc, true);
      count, failed := ConcurrentOf(id) + 1, false;
      counts := counts[id := count];
      NoteCall(id, Inc, false);
    }

    /** A Redis command that leaves this value under the key. */
    method Put(id: int, value: int)
      modifies this`counts
      ensures counts == old(counts)[id := value] && ConcurrentOf(id) == value
      ensures forall o :: o != id ==> ConcurrentOf(o) == old(ConcurrentOf(o))
    {
      counts := counts[id := value];
    }

    /** DECR, and a SET to zero if that went negative; a failing SET leaves the count negative. */
    method DecrementAndClamp(id: int, setUp: bool) returns (count: int)
      modifies this`counts
      ensures count == old(ConcurrentOf(id)) - 1
      ensures counts == old(counts)[id := if count < 0 && setUp then 0 else count]
      ensures ConcurrentOf(id) == if count < 0 && setUp then 0 else count
      ensures forall o :: o != id ==> ConcurrentOf(o) == old(ConcurrentOf(o))
    {
      count := ConcurrentOf(id) - 1;
      Put(id, count);
      if count < 0 && setUp {
        Put(id, 0);
      }
    }

    /** When DECR succeeds and the SET behind it fails, zero is reported but the count stays negative. */
    method DecrementConcurrent(id: int, up: bool, setUp: bool) returns (count: int, failed: bool)
      requires Valid()
      modifies this
      ensures Valid() && failed == !up
      ensures failed ==> count == 0 && counts == old(counts) && history == old(history) && unclamped == old(unclamped)
      ensures !failed ==>
                var less := old(ConcurrentOf(id)) - 1;
                && count == (if less < 0 then 0 else less)
                && counts == old(counts)[id := if setUp then count else less]
                && history == old(history)[id := old(HistoryOf(id)) + [Dec]]
                && unclamped == old(unclamped) + (if less < 0 && !setUp then {id} else {})
    {
      if !up {
        return 0, true;
      }
      assert Tallies(ConcurrentOf(id), HistoryOf(id), id in unclamped);
      StillTallies(ConcurrentOf(id), HistoryOf(id), id in unclamped, Dec, setUp);
      count := DecrementAndClamp(id, setUp);
      NoteCall(id, Dec, count < 0 && !setUp);
      return if count < 0 then 0 else count, false;
    }

    /** The key's ten seconds are over. */
    method Expire(id: int)
      requires Valid()
      modifies this
      ensures Valid() && counts == old(counts) - {id}
      ensures history == old(history) - {id} && unclamped == old(unclamped) - {id}
    {
      counts := counts - {id};
      history, unclamped := history - {id}, unclamped - {id};
    }

    /**
     What is reported is never below increments minus decrements since the key expired and never above
     the greatest net change over all suffixes of these calls; unless a SET failed, it is that change.
     */
    method GetConcurrent(id: int, up: bool) returns (count: int, failed: bool)
      requires Valid()
      ensures failed == !up && count == if failed then 0 else ConcurrentOf(id)
      ensures !failed ==>
                Net(HistoryOf(id)) <= count && forall m :: GreatestSuffix(HistoryOf(id), m) ==> count <= m
      ensures !failed && id !in unclamped ==> GreatestSuffix(HistoryOf(id), count) && count >= 0
    {
      if !up {
        return 0, true;
      }
      assert Tallies(ConcurrentOf(id), HistoryOf(id), id in unclamped);
      CountIsGreatestSuffix(HistoryOf(id));
      CountNeverUnderReports(HistoryOf(id));
      if id !in counts {
        return 0, false;
      }
      count, failed := counts[id], false;
    }
  }

  // ---------- Calls interleaved command by command ----------

  /** A decrement is DECR, and, if that went negative, a separate SET to zero later on. */
  datatype Command = Incr | Decr | Reset

  datatype Redis = Redis(count: int, resets: nat)

  predicate Allowed(s: Redis, c: Command) {
    c == Reset ==> s.resets > 0
  }

  function Exec(s: Redis, c: Command): Redis
    requires Allowed(s, c)
  {
    match c
    case Incr => s.(count := s.count + 1)
    case Decr => Redis(s.count - 1, if s.count - 1 < 0 then s.resets + 1 else s.resets)
    case Reset => Redis(0, s.resets - 1)
  }

  predicate CanExec(s: Redis, run: seq<Command>)
    decreases |run|
  {
    run == [] || (Allowed(s, run[0]) && CanExec(Exec(s, run[0]), run[1..]))
  }

  function ExecAll(s: Redis, run: seq<Command>): Redis
    requires CanExec(s, run)
    decreases |run|
  {
    if run == [] then s else ExecAll(Exec(s, run[0]), run[1..])
  }

  function Change(c: Command): int {
    match c case Incr => 1 case Decr => -1 case Reset => 0
  }

  function NetCommands(run: seq<Command>): int {
    if run == [] then 0 else Change(run[0]) + NetCommands(run[1..])
  }

  /** The total of what the resets wiped out: positive where increments came in between. */
  function Wiped(s: Redis, run: seq<Command>): int
    requires CanExec(s, run)
    decreases |run|
  {
    if run == [] then 0
    else (if run[0] == Reset then s.count else 0) + Wiped(Exec(s, run[0]), run[1..])
  }

  /** A call whose commands come one after another changes the count as the whole call does. */
  lemma CallAlone(count: nat, op: Op)
    ensures var first := Exec(Redis(count, 0), if op == Inc then Incr else Decr);
            && first.resets == (if op == Dec && count == 0 then 1 else 0)
            && (first.resets == 0 ==> first.count == Next(count, op))
            && (first.resets == 1 ==> Exec(first, Reset) == Redis(Next(count, op), 0))
  {
  }

  /**
   However the commands interleave, the count never falls below minus the resets still owed, so it
   is not negative once they are done; and it differs from increments minus decrements by exactly
   what the resets wiped out. It under-reports precisely when that total is positive.
   */
  lemma {:induction false} InterleavedAccount(s: Redis, run: seq<Command>)
    requires CanExec(s, run) && s.count + s.resets >= 0
    ensures var t := ExecAll(s, run);
            && t.count + t.resets >= 0
            && t.count == s.count + NetCommands(run) - Wiped(s, run)
            && (t.count < s.count + NetCommands(run) <==> Wiped(s, run) > 0)
    decreases |run|
  {
    if run == [] {
    } else {
      InterleavedAccount(Exec(s, run[0]), run[1..]);
    }
  }

  function Incs(run: seq<Command>): nat {
    if run == [] then 0 else (if run[0] == Incr then 1 else 0) + Incs(run[1..])
  }

  function Decs(run: seq<Command>): nat {
    if run == [] then 0 else (if run[0] == Decr then 1 else 0) + Decs(run[1..])
  }

  /** The commands of `i` increments and `j` decrements, in some order, with every reset carried out. */
  ghost predicate Interleaves(run: seq<Command>, i: nat, j: nat) {
    && CanExec(Redis(0, 0), run) && ExecAll(Redis(0, 0), run).resets == 0
    && Incs(run) == i && Decs(run) == j
  }

  function Times(c: Command, k: nat): seq<Command> {
    if k == 0 then [] else [c] + Times(c, k - 1)
  }

  lemma {:induction false} NetIsDifference(run: seq<Command>)
    ensures NetCommands(run) == Incs(run) - Decs(run)
  {
    if run == [] {
    } else {
      NetIsDifference(run[1..]);
    }
  }

  /** Without decrements there is nothing to reset. */
  lemma {:induction false} NoDecrements(s: Redis, run: seq<Command>)
    requires CanExec(s, run) && s.count >= 0 && s.resets == 0 && Decs(run) == 0
    ensures ExecAll(s, run).count == s.count + Incs(run)
    decreases |run|
  {
    if run == [] {
    } else {
      NoDecrements(Exec(s, run[0]), run[1..]);
    }
  }

  lemma StepFirst(s: Redis, c: Command, rest: seq<Command>)
    requires Allowed(s, c) && CanExec(Exec(s, c), rest)
    ensures CanExec(s, [c] + rest) && ExecAll(s, [c] + rest) == ExecAll(Exec(s, c), rest)
    ensures Incs([c] + rest) == (if c == Incr then 1 else 0) + Incs(rest)
    ensures Decs([c] + rest) == (if c == Decr then 1 else 0) + Decs(rest)
  {
    assert ([c] + rest)[1..] == rest;
  }

  /** `k` increments in a row, or `k` decrements that do not take the count below zero. */
  lemma {:induction false} Repeated(s: Redis, c: Command, k: nat, rest: seq<Command>)
    requires c == Incr || (c == Decr && s.count >= k)
    requires CanExec(s.(count := s.count + Change(c) * k), rest)
    ensures CanExec(s, Times(c, k) + rest)
    ensures ExecAll(s, Times(c, k) + rest) == ExecAll(s.(count := s.count + Change(c) * k), rest)
    ensures Incs(Times(c, k) + rest) == (if c == Incr then k else 0) + Incs(rest)
    ensures Decs(Times(c, k) + rest) == (if c == Decr then k else 0) + Decs(rest)
    decreases k
  {
    if k == 0 {
      assert Times(c, k) + rest == rest;
      assert s.(count := s.count) == s;
    } else {
      var t := Exec(s, c);
      assert t.(count := t.count + Change(c) * (k - 1)) == s.(count := s.count + Change(c) * k);
      Repeated(t, c, k - 1, rest);
      StepFirst(s, c, Times(c, k - 1) + rest);
      assert Times(c, k) + rest == [c] + (Times(c, k - 1) + rest);
    }
  }

  /** One decrement's reset held back until all other calls are done. */
  function HeldBack(i: nat, j: nat): seq<Command>
    requires j >= 1
  {
    [Decr] + (Times(Incr, i) + (Times(Decr, j - 1) + [Reset]))
  }

  lemma HeldBackEndsAtZero(i: nat, j: nat)
    requires 1 <= j <= i
    ensures Interleaves(HeldBack(i, j), i, j) && ExecAll(Redis(0, 0), HeldBack(i, j)).count == 0
  {
    assert [Reset] == [Reset] + [];
    StepFirst(Redis(i - j, 1), Reset, []);
    Repeated(Redis(i - 1, 1), Decr, j - 1, [Reset]);
    Repeated(Redis(-1, 1), Incr, i, Times(Decr, j - 1) + [Reset]);
    StepFirst(Redis(0, 0), Decr, Times(Incr, i) + (Times(Decr, j - 1) + [Reset]));
  }

  /**
   Command by command, `i` increments and `j` decrements can leave the count below `i - j` exactly
   when there is a decrement and there are more increments than decrements.
   */
  lemma UnderReportsIff(i: nat, j: nat)
    ensures (exists run :: Interleaves(run, i, j) && ExecAll(Redis(0, 0), run).count < i - j) <==> 1 <= j < i
  {
    if run :| Interleaves(run, i, j) && ExecAll(Redis(0, 0), run).count < i - j {
      InterleavedAccount(Redis(0, 0), run);
      NetIsDifference(run);
      if j == 0 {
        NoDecrements(Redis(0, 0), run);
      }
    }
    if 1 <= j < i {
      HeldBackEndsAtZero(i, j);
    }
  }

  /** Two increments between a DECR and its SET: one request in progress on balance, none reported. */
  lemma InterleavingUnderReports()
    ensures var run := [Decr, Incr, Incr, Reset];
            && CanExec(Redis(0, 0), run) && NetCommands(run) == 1
            && ExecAll(Redis(0, 0), run) == Redis(0, 0)
  {
    var run := [Decr, Incr, Incr, Reset];
    assert run[1..] == [Incr, Incr, Reset] && run[1..][1..] == [Incr, Reset];
    assert run[1..][1..][1..] == [Reset] && run[1..][1..][1..][1..] == [];
    var s1 := Exec(Redis(0, 0), Decr);
    var s2 := Exec(s1, Incr);
    var s3 := Exec(s2, Incr);
    assert CanExec(s3, [Reset]) && ExecAll(s3, [Reset]) == Redis(0, 0) && NetCommands([Reset]) == 0;
    assert CanExec(s2, [Incr, Reset]) && ExecAll(s2, [Incr, Reset]) == Redis(0, 0) && NetCommands([Incr, Reset]) == 1;
    assert CanExec(s1, [Incr, Incr, Reset]) && ExecAll(s1, [Incr, Incr, Reset]) == Redis(0, 0);
    assert NetCommands([Incr, Incr, Reset]) == 2;
  }
}
