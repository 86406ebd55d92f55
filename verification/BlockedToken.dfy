/** A token blocked in the database is refused by every proxy once the caches have caught up. */
module BlockedToken {
  import opened Wrappers
  import Cache = TwoLevelCache
  import opened CacheStaleness
  import opened Pipeline

  /** From instant `since` on, the token's row is blocked or gone. */
  ghost predicate BlockedSince(c: Setup<ApiToken>, key: string, since: real) {
    forall b :: b >= since && c.db(b)(key).Ok? ==> c.db(b)(key).value.state == STATE_BLOCKED
  }

  /**
   Later than the staleness bound after the blocking, whatever proxy answers the token lookup at
   whatever step, whatever the request's validator and endpoints say, and whatever else is going on:
   the request is refused and has no effect, in particular no upstream call.
   */
  lemma BlockingTakesEffect(c: Setup<ApiToken>, w: World, run: seq<Step>, l: Step, since: real, call: Call)
    requires Positive(c) && Cache.Lawful(c.codec) && Empty(w) && CanRun(c, w, run) && Enabled(c, Run(c, w, run), l)
    requires Answer(c, Run(c, w, run), l).Some?
    requires BlockedSince(c, KeyOf(c, Run(c, w, run), l), since) && Run(c, w, run).now > since + MaxAge(c)
    requires call.lookup == FindByClientID(Answer(c, Run(c, w, run), l).value)
    ensures !Admitted(call) && Trace(call) == []
    ensures call.lookup.Ok? ==> ValidateNotBlocked(call.lookup.value) == Some(TokenBlocked)
  {
    StalenessIsBounded(c, w, run, l);
  }
}
