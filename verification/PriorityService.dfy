/**
 `internal/queue/priority_service.go`: a client's failure count in Redis and the priority it earns.
 Whether Redis answers is a parameter; the hourly expiry of a count is an event from outside.
 */
module PriorityService {

  /** The priority after `failures` failures: lower with each, but by no more than `max`. */
  function CalculatePriority(base: real, increment: real, max: real, failures: int): real {
    var priority := base - failures as real * increment;
    if priority < base - max then base - max else priority
  }

  class Service {
    const basePriority: real
    const priorityIncrement: real
    const maxPriority: real
    var failures: map<string, int>

    constructor (basePriority: real, priorityIncrement: real, maxPriority: real)
      ensures this.basePriority == basePriority
      ensures this.priorityIncrement == priorityIncrement && this.maxPriority == maxPriority
      ensures failures == map[]
    {
      this.basePriority, this.priorityIncrement, this.maxPriority := basePriority, priorityIncrement, maxPriority;
      failures := map[];
    }

    /** No count ever goes below zero. */
    ghost predicate Valid()
      reads this
    {
      forall c :: c in failures ==> failures[c] >= 0
    }

    /** A failed lookup reports its error beside the base priority. */
    method GetPriority(clientID: string, redisUp: bool) returns (priority: real, failed: bool)
      requires Valid()
      ensures failed <==> clientID != "" && !redisUp
      ensures priorityIncrement >= 0.0 && maxPriority >= 0.0 ==> basePriority - maxPriority <= priority <= basePriority
      ensures clientID != "" && redisUp && clientID in failures ==>
                priority == CalculatePriority(basePriority, priorityIncrement, maxPriority, failures[clientID])
      ensures clientID == "" || !redisUp || clientID !in failures ==> priority == basePriority
    {
      if clientID == "" {
        return basePriority, false;
      }
      if !redisUp {
        return basePriority, true;
      }
      if clientID !in failures {
        return basePriority, false;
      }
      priority, failed := CalculatePriority(basePriority, priorityIncrement, maxPriority, failures[clientID]), false;
      if priorityIncrement >= 0.0 && maxPriority >= 0.0 {
        PriorityRange(basePriority, priorityIncrement, maxPriority, failures[clientID]);
      }
    }

    /** One more failure for this client, unless it is unnamed or Redis fails. */
    method IncrementFailure(clientID: string, redisUp: bool) returns (failed: bool)
      requires Valid()
      modifies this
      ensures Valid() && (failed <==> clientID != "" && !redisUp)
      ensures clientID == "" || failed ==> failures == old(failures)
      ensures clientID != "" && !failed ==>
                var before := if clientID in old(failures) then old(failures)[clientID] else 0;
                failures == old(failures)[clientID := before + 1]
    {
      if clientID == "" {
        return false;
      }
      if !redisUp {
        return true;
      }
      failures := failures[clientID := (if clientID in failures then failures[clientID] else 0) + 1];
      failed := false;
    }

    /** The key's hour is over. */
    method Expire(clientID: string)
      requires Valid()
      modifies this
      ensures Valid() && failures == old(failures) - {clientID}
    {
      failures := failures - {clientID};
    }

    /** This client's count is forgotten, unless it is unnamed or Redis fails. */
    method ResetFailure(clientID: string, redisUp: bool) returns (failed: bool)
      requires Valid()
      modifies this
      ensures Valid() && (failed <==> clientID != "" && !redisUp)
      ensures failures == if clientID == "" || failed then old(failures) else old(failures) - {clientID}
    {
      if clientID == "" {
        return false;
      }
      if !redisUp {
        return true;
      }
      failures := failures - {clientID};
      failed := false;
    }
  }

  lemma PriorityRange(base: real, increment: real, max: real, failures: int)
    requires increment >= 0.0 && max >= 0.0 && failures >= 0
    ensures base - max <= CalculatePriority(base, increment, max, failures) <= base
  {
    assert failures as real * increment >= 0.0;
  }

  /** Without failures the base priority; each failure costs one increment until the floor is reached. */
  lemma EachFailureCosts(base: real, increment: real, max: real, failures: nat)
    requires increment >= 0.0 && max >= 0.0
    ensures CalculatePriority(base, increment, max, 0) == base
    ensures var p, q := CalculatePriority(base, increment, max, failures),
                        CalculatePriority(base, increment, max, failures + 1);
            q == if p - increment >= base - max then p - increment else base - max
  {
    assert (failures + 1) as real * increment == failures as real * increment + increment;
  }

  /** Any two failure counts earn equal priorities or priorities at least `increment` apart. */
  ghost predicate Spaced(base: real, increment: real, max: real) {
    forall m: nat, n: nat ::
      var p, q := CalculatePriority(base, increment, max, m), CalculatePriority(base, increment, max, n);
      p == q || p - q >= increment || q - p >= increment
  }

  /** The drop in priority that `k` failures cause before the cap. */
  function Drop(k: nat, increment: real): real {
    k as real * increment
  }

  /** The floor at `base - max` falls on a step of the scale. */
  ghost predicate OnScale(increment: real, max: real) {
    exists k: nat :: max == Drop(k, increment)
  }

  lemma CappedCount(base: real, increment: real, max: real, k: nat, n: nat)
    requires increment > 0.0 && max == Drop(k, increment)
    ensures CalculatePriority(base, increment, max, n) == base - Drop(if n <= k then n else k, increment)
  {
    assert (n - k) as real * increment == n as real * increment - max;
    if n <= k {
      assert (k - n) as real * increment >= 0.0;
    } else {
      assert (n - k) as real * increment > 0.0;
    }
  }

  lemma DropsDiffer(i: nat, j: nat, increment: real)
    requires increment > 0.0 && i < j
    ensures Drop(j, increment) - Drop(i, increment) >= increment
  {
    assert (j - i - 1) as real * increment >= 0.0;
    assert Drop(j, increment) - Drop(i, increment) - increment == (j - i - 1) as real * increment;
  }

  lemma OnScaleIsSpaced(base: real, increment: real, max: real, k: nat)
    requires increment > 0.0 && max == Drop(k, increment)
    ensures Spaced(base, increment, max)
  {
    forall m: nat, n: nat
      ensures var p, q := CalculatePriority(base, increment, max, m), CalculatePriority(base, increment, max, n);
              p == q || p - q >= increment || q - p >= increment
    {
      CappedCount(base, increment, max, k, m);
      CappedCount(base, increment, max, k, n);
      var i, j := if m <= k then m else k, if n <= k then n else k;
      if i < j {
        DropsDiffer(i, j, increment);
      } else if j < i {
        DropsDiffer(j, i, increment);
      }
    }
  }

  /** The scale step at or just below the cap. */
  lemma StepBelow(increment: real, max: real) returns (k: nat)
    requires increment > 0.0 && max >= 0.0
    ensures Drop(k, increment) <= max < Drop(k + 1, increment) == Drop(k, increment) + increment
  {
    var x := max / increment;
    QuotientBounds(max, increment, x);
    k := x.Floor;
    Between(increment, max, x, k);
  }

  lemma Between(increment: real, max: real, x: real, k: nat)
    requires increment > 0.0 && x * increment == max && k as real <= x < k as real + 1.0
    ensures Drop(k, increment) <= max < Drop(k, increment) + increment
    ensures Drop(k + 1, increment) == Drop(k, increment) + increment
  {
    AtLeast(increment, max, x, k as real);
    Below(increment, max, x, k as real);
  }

  lemma AtLeast(increment: real, max: real, x: real, k: real)
    requires increment > 0.0 && x * increment == max && k <= x
    ensures k * increment <= max
  {
    if k < x {
      Product(x - k, increment);
      assert (x - k) * increment == x * increment - k * increment;
    }
  }

  lemma Below(increment: real, max: real, x: real, k: real)
    requires increment > 0.0 && x * increment == max && x < k + 1.0
    ensures max < k * increment + increment
  {
    Product(k + 1.0 - x, increment);
    assert (k + 1.0 - x) * increment == k * increment + increment - x * increment;
  }

  lemma QuotientBounds(a: real, b: real, x: real)
    requires a >= 0.0 && b > 0.0 && x == a / b
    ensures x * b == a && x >= 0.0
  {
  }

  lemma Product(a: real, b: real)
    requires a > 0.0 && b > 0.0
    ensures a * b > 0.0
  {
  }

  /** A cap between two steps: the last uncapped priority is too close to the floor. */
  lemma OffScaleIsNotSpaced(base: real, increment: real, max: real)
    requires increment > 0.0 && max >= 0.0 && !OnScale(increment, max)
    ensures !Spaced(base, increment, max)
  {
    var k := StepBelow(increment, max);
    assert max != Drop(k, increment);
    var p := CalculatePriority(base, increment, max, k);
    var q := CalculatePriority(base, increment, max, k + 1);
    assert p == base - Drop(k, increment) && q == base - max;
  }

  /** Priorities are evenly spaced exactly when the cap is a whole number of increments. */
  lemma SpacedIffOnScale(base: real, increment: real, max: real)
    requires increment > 0.0 && max >= 0.0
    ensures Spaced(base, increment, max) <==> OnScale(increment, max)
  {
    if OnScale(increment, max) {
      var k: nat :| max == Drop(k, increment);
      OnScaleIsSpaced(base, increment, max, k);
    } else {
      OffScaleIsNotSpaced(base, increment, max);
    }
  }
}
