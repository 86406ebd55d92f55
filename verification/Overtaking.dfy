/** How far ageing lets a later request go ahead of an earlier one. */
module Overtaking {
  import opened Ageing
  import opened QueueDiscipline
  import opened Admission
  import opened AdmissionTheorems
  import opened RunHistory
  import PriorityService
  import QueueMiddleware

  /** Priorities as the middleware hands them out: at most `max` below `base`. */
  ghost predicate InBand(reqs: seq<Request>, base: real, max: real) {
    forall r :: 0 <= r < |reqs| ==> base - max <= reqs[r].priority <= base
  }

  /** Request `w` is popped in the next step while `v` is queued; they missed in the steps `i` and `j`. */
  ghost predicate PoppedOver(s: State, run: seq<Step>, r: nat, w: nat, v: nat, i: int, j: int)
    requires CanRun(Hrn, s, run)
  {
    var t := Run(Hrn, s, run);
    && Enabled(t, LockAndPop(r)) && v in t.queue && Apply(Hrn, t, LockAndPop(r)).reqs[r].stage == Popped(w)
    && MissAt(run, i, w) && MissAt(run, j, v)
  }

  /**
   No request is popped while another is queued that missed more than ten seconds per unit of
   priority range before it. So ageing bounds how long anybody can be passed over by newcomers.
   */
  lemma OvertakingIsBounded(s: State, run: seq<Step>, r: nat, w: nat, v: nat, i: int, j: int, base: real, max: real)
    requires Init(s) && CanRun(Hrn, s, run) && InBand(s.reqs, base, max) && PoppedOver(s, run, r, w, v, i, j)
    ensures run[i].clock - run[j].clock <= 10.0 * max
  {
    PopsGreatestByArrival(s, run, r, v, 0.0);
  }

  /** Two priorities that are equal or at least `increment` apart. */
  ghost predicate Apart(p: real, q: real, increment: real) {
    p == q || p - q >= increment || q - p >= increment
  }

  /** Higher priority first; among equals, earlier arrival first. */
  predicate Precedes(p: real, a: real, q: real, b: real) {
    p > q || (p == q && a < b)
  }

  /**
   A request that Release pops is preceded by no queued request that missed less than ten seconds
   per increment away from it: at that scale the order is priority first, then arrival.
   */
  lemma PriorityThenArrival(s: State, run: seq<Step>, r: nat, w: nat, v: nat, i: int, j: int, increment: real)
    requires Init(s) && CanRun(Hrn, s, run) && PoppedOver(s, run, r, w, v, i, j)
    ensures w < |s.reqs| && v < |s.reqs|
    ensures Apart(s.reqs[w].priority, s.reqs[v].priority, increment)
         && -10.0 * increment < run[i].clock - run[j].clock < 10.0 * increment
         ==> !Precedes(s.reqs[v].priority, run[j].clock, s.reqs[w].priority, run[i].clock)
  {
    PopsGreatestByArrival(s, run, r, v, 0.0);
  }

  /** Whoever is popped, and whoever is queued then, has such steps. */
  lemma PoppedOverSomebody(s: State, run: seq<Step>, r: nat, v: nat)
    requires Init(s) && CanRun(Hrn, s, run)
    requires Enabled(Run(Hrn, s, run), LockAndPop(r)) && v in Run(Hrn, s, run).queue
    ensures exists w: nat, i, j :: PoppedOver(s, run, r, w, v, i, j)
  {
    PopsGreatestByArrival(s, run, r, v, 0.0);
    var w := Apply(Hrn, Run(Hrn, s, run), LockAndPop(r)).reqs[r].stage.target;
    var i, j :| MissAt(run, i, w) && MissAt(run, j, v);
    assert PoppedOver(s, run, r, w, v, i, j);
  }

  /** On that scale the comparison of effective priorities is exactly that order, at every instant. */
  lemma OrderWithinScale(p: real, a: real, q: real, b: real, increment: real, clock: real)
    requires Apart(p, q, increment) && -10.0 * increment < a - b < 10.0 * increment
    ensures Effective(p, a, clock) > Effective(q, b, clock) <==> Precedes(p, a, q, b)
  {
    ComparisonIgnoresClock(p, a, q, b, clock);
  }

  /**
   The middleware's fallback for a failed lookup is the constant 1.0, so all priorities in use keep to
   the band, whatever the failure counts, exactly when that constant lies in it.
   */
  lemma BandIffFallbackInBand(base: real, increment: real, max: real)
    requires increment >= 0.0 && max >= 0.0
    ensures (forall failures: nat, failed: bool ::
              var counted := PriorityService.CalculatePriority(base, increment, max, failures);
              base - max <= QueueMiddleware.PriorityUsed(counted, failed) <= base)
       <==> base - max <= 1.0 <= base
  {
    forall failures: nat
      ensures base - max <= PriorityService.CalculatePriority(base, increment, max, failures) <= base
    {
      PriorityService.PriorityRange(base, increment, max, failures);
    }
    assert QueueMiddleware.PriorityUsed(PriorityService.CalculatePriority(base, increment, max, 0), true) == 1.0;
  }

  /** Two priorities of the service are Apart, given a cap that is a whole number of increments. */
  lemma ServicePrioritiesAreApart(p: real, q: real, base: real, increment: real, max: real, m: nat, n: nat)
    requires increment > 0.0 && max >= 0.0 && PriorityService.OnScale(increment, max)
    requires p == PriorityService.CalculatePriority(base, increment, max, m)
    requires q == PriorityService.CalculatePriority(base, increment, max, n)
    ensures Apart(p, q, increment)
  {
    PriorityService.SpacedIffOnScale(base, increment, max);
  }
}
