/**
 Priorities that grow while a request waits. Times are seconds and, like priorities, real
 numbers. The rank is what a comparison of two effective priorities comes down to.
 */
module Ageing {

  const AGEING_RATE: real := 0.1

  /** Priority plus a tenth of the seconds waited by instant `now`. */
  function Effective(priority: real, enqueuedAt: real, now: real): real {
    priority + (now - enqueuedAt) * AGEING_RATE
  }

  /** The part of an effective priority that never changes. */
  function Rank(priority: real, enqueuedAt: real): real {
    priority - enqueuedAt * AGEING_RATE
  }

  /** A request starts with its priority and gains one unit for every ten seconds it waits. */
  lemma TenSecondsPerUnit(priority: real, enqueuedAt: real, waited: real)
    ensures Effective(priority, enqueuedAt, enqueuedAt) == priority
    ensures Effective(priority, enqueuedAt, enqueuedAt + waited) == priority + waited / 10.0
  {
  }

  /** A comparison gives the same answer whenever the clock is read. */
  lemma ComparisonIgnoresClock(p: real, a: real, q: real, b: real, now: real)
    ensures Effective(p, a, now) > Effective(q, b, now) <==> Rank(p, a) > Rank(q, b)
  {
    assert Effective(p, a, now) - Effective(q, b, now) == Rank(p, a) - Rank(q, b);
  }

  /**
   `Less` reads the clock once per side. When the second reading comes `lag` seconds after the
   first, the answer differs from that of the ranks exactly when the first outranks the second by at
   most `lag / 10`.
   */
  lemma LaggedComparison(p: real, a: real, q: real, b: real, now: real, lag: real)
    requires lag >= 0.0
    ensures (Effective(p, a, now) > Effective(q, b, now + lag) <==> Rank(p, a) > Rank(q, b))
       <==> !(0.0 < Rank(p, a) - Rank(q, b) <= lag * AGEING_RATE)
  {
    assert Effective(p, a, now) - Effective(q, b, now + lag) == Rank(p, a) - Rank(q, b) - lag * AGEING_RATE;
  }

  /** The answer is that of the ranks for every pair of waiters if and only if the lag is zero. */
  lemma LagIsHarmlessIff(now: real, lag: real)
    requires lag >= 0.0
    ensures (forall p, a, q, b ::
              Effective(p, a, now) > Effective(q, b, now + lag) <==> Rank(p, a) > Rank(q, b))
       <==> lag == 0.0
  {
    if lag == 0.0 {
      forall p, a, q, b
        ensures Effective(p, a, now) > Effective(q, b, now + lag) <==> Rank(p, a) > Rank(q, b)
      {
        LaggedComparison(p, a, q, b, now, lag);
      }
    } else {
      LaggedComparison(lag * AGEING_RATE, 0.0, 0.0, 0.0, now, lag);
    }
  }
}
