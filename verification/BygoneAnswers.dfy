/**
 When can a proxy, while the entry it serves lasts, give an answer that the database will never give
 again? Exactly when a call under way has it in hand, or has yet to ask Redis and can find it there.
 */
module BygoneAnswers {
  import opened Wrappers
  import opened TwoLevelCache
  import opened CacheStaleness
  import opened CacheFetches

  /** From `since` on the database does not hold `x` under the key. */
  ghost predicate Bygone<V>(c: Setup<V>, key: string, x: V, since: real) {
    forall b :: b >= since ==> c.db(b)(key) != Ok(x)
  }

  ghost predicate Holds<V>(c: Setup<V>, data: Data, x: V) {
    c.codec.decode(data) == Some(x)
  }

  /** A call of this proxy for this key has `x` in hand. */
  ghost predicate InHand<V>(c: Setup<V>, w: World, p: nat, key: string, x: V) {
    exists j :: 0 <= j < |w.flights| && IsFor(w.flights[j], p, key)
             && HasData(w.flights[j].stage) && Holds(c, w.flights[j].stage.data, x)
  }

  /** A call of this proxy for this key has yet to ask Redis. */
  ghost predicate SomeMissed(w: World, p: nat, key: string) {
    exists j :: 0 <= j < |w.flights| && IsFor(w.flights[j], p, key) && w.flights[j].stage == Missed
  }

  ghost predicate InRedis<V>(c: Setup<V>, w: World, key: string, x: V) {
    RedisHit(w.redis, key, w.now) && Holds(c, w.redis[key].data, x)
  }

  ghost predicate InPending<V>(c: Setup<V>, w: World, key: string, x: V) {
    exists i :: 0 <= i < |w.pending| && w.pending[i].key == key && Holds(c, w.pending[i].data, x)
  }

  /** A call of any proxy has fetched `x` and is to store it and write it to Redis. */
  ghost predicate InFetched<V>(c: Setup<V>, w: World, key: string, x: V) {
    exists j :: 0 <= j < |w.flights| && w.flights[j].key == key
             && w.flights[j].stage.Fetched? && Holds(c, w.flights[j].stage.data, x)
  }

  /** Redis has `x`, or is going to have it. */
  ghost predicate OnOffer<V>(c: Setup<V>, w: World, key: string, x: V) {
    InRedis(c, w, key, x) || InPending(c, w, key, x) || InFetched(c, w, key, x)
  }

  ghost predicate CanReturn<V>(c: Setup<V>, w: World, p: nat, key: string, x: V) {
    InHand(c, w, p, key, x) || (SomeMissed(w, p, key) && OnOffer(c, w, key, x))
  }

  // ---------- It does not come from nowhere ----------

  lemma FetchBringsCurrent<V(!new)>(c: Setup<V>, w: World, key: string, x: V)
    requires Lawful(c.codec) && Bygone(c, key, x, w.now) && AfterFetch(c, w, key).Fetched?
    ensures !Holds(c, AfterFetch(c, w, key).data, x)
  {
  }

  /** `Missed` does not come back while the entry serves. */
  lemma MissedBefore<V>(c: Setup<V>, w: World, p: nat, key: string, l: Step)
    requires Enabled(c, w, l) && p < |w.locals| && LocalServes(c, w, p, key)
    requires SomeMissed(Apply(c, w, l), p, key)
    ensures SomeMissed(w, p, key)
  {
    var t := Apply(c, w, l);
    var j :| 0 <= j < |t.flights| && IsFor(t.flights[j], p, key) && t.flights[j].stage == Missed;
    assert j < |w.flights| && w.flights[j].stage == Missed;
  }

  lemma OfferedBefore<V(!new)>(c: Setup<V>, w: World, key: string, x: V, l: Step)
    requires Lawful(c.codec) && Bygone(c, key, x, w.now) && Enabled(c, w, l)
    requires OnOffer(c, Apply(c, w, l), key, x)
    ensures OnOffer(c, w, key, x)
  {
    var t := Apply(c, w, l);
    if InRedis(c, t, key, x) {
      assert l.Land? && w.pending[l.i].key == key && !InRedis(c, w, key, x) ==> InPending(c, w, key, x);
    } else if InPending(c, t, key, x) {
      PendingBefore(c, w, key, x, l);
    } else {
      FetchedBefore(c, w, key, x, l);
    }
  }

  lemma PendingBefore<V>(c: Setup<V>, w: World, key: string, x: V, l: Step)
    requires Enabled(c, w, l) && InPending(c, Apply(c, w, l), key, x)
    ensures InPending(c, w, key, x) || InFetched(c, w, key, x)
  {
    var t := Apply(c, w, l);
    var i :| 0 <= i < |t.pending| && t.pending[i].key == key && Holds(c, t.pending[i].data, x);
    if l.Land? || l.Lose? {
      assert t.pending[i] == w.pending[if i < l.i then i else i + 1];
    } else if i < |w.pending| {
      assert t.pending[i] == w.pending[i];
    } else {
      assert l.Keep? && w.flights[l.i].stage.Fetched?;
    }
  }

  lemma FetchedBefore<V(!new)>(c: Setup<V>, w: World, key: string, x: V, l: Step)
    requires Lawful(c.codec) && Bygone(c, key, x, w.now) && Enabled(c, w, l)
    requires InFetched(c, Apply(c, w, l), key, x)
    ensures InFetched(c, w, key, x)
  {
    var t := Apply(c, w, l);
    var j :| 0 <= j < |t.flights| && t.flights[j].key == key
          && t.flights[j].stage.Fetched? && Holds(c, t.flights[j].stage.data, x);
    if l == Fetch(j) {
      FetchBringsCurrent(c, w, key, x);
    } else {
      assert j < |w.flights| && t.flights[j] == w.flights[j];
    }
  }

  /** Data in hand was in hand before, or has just been read in Redis by a call that had missed. */
  lemma InHandBefore<V(!new)>(c: Setup<V>, w: World, p: nat, key: string, x: V, l: Step)
    requires Lawful(c.codec) && Bygone(c, key, x, w.now) && Enabled(c, w, l)
    requires InHand(c, Apply(c, w, l), p, key, x)
    ensures CanReturn(c, w, p, key, x)
  {
    var t := Apply(c, w, l);
    var j :| 0 <= j < |t.flights| && IsFor(t.flights[j], p, key)
          && HasData(t.flights[j].stage) && Holds(c, t.flights[j].stage.data, x);
    if l == Fetch(j) {
      FetchBringsCurrent(c, w, key, x);
    } else if l.AskRedis? && l.i == j {
      assert SomeMissed(w, p, key) && InRedis(c, w, key, x);
    } else {
      assert j < |w.flights| && t.flights[j] == w.flights[j];
    }
  }

  /** The entry is usable until the instant, and is not `x`. */
  ghost predicate ServesOther<V>(c: Setup<V>, w: World, p: nat, key: string, x: V, until: real) {
    Keeps(c, w, p, key, until) && !Holds(c, w.locals[p][key].data, x)
  }

  lemma NotReturnedStep<V(!new)>(c: Setup<V>, w: World, p: nat, key: string, x: V, until: real, l: Step)
    requires Positive(c) && Lawful(c.codec) && Inv(c, w) && Bygone(c, key, x, w.now)
    requires ServesOther(c, w, p, key, x, until) && !CanReturn(c, w, p, key, x)
    requires Enabled(c, w, l) && l != EvictLocal(p, key) && w.now <= until <= w.now + c.localTTL
    ensures ServesOther(c, Apply(c, w, l), p, key, x, until) && !CanReturn(c, Apply(c, w, l), p, key, x)
  {
    var t := Apply(c, w, l);
    KeepsStep(c, w, p, key, until, l);
    if InHand(c, t, p, key, x) {
      InHandBefore(c, w, p, key, x, l);
    } else if SomeMissed(t, p, key) && OnOffer(c, t, key, x) {
      MissedBefore(c, w, p, key, l);
      OfferedBefore(c, w, key, x, l);
    }
    if l.Keep? && IsFor(w.flights[l.i], p, key) {
      assert !Holds(c, w.flights[l.i].stage.data, x);
    }
  }

  lemma {:induction false} NotReturnedRun<V(!new)>(c: Setup<V>, w: World, p: nat, key: string, x: V, until: real,
                                                   run: seq<Step>)
    requires Positive(c) && Lawful(c.codec) && Inv(c, w) && Bygone(c, key, x, w.now)
    requires ServesOther(c, w, p, key, x, until) && !CanReturn(c, w, p, key, x)
    requires CanRun(c, w, run) && EvictLocal(p, key) !in run
    requires Run(c, w, run).now <= until <= w.now + c.localTTL
    ensures ServesOther(c, Run(c, w, run), p, key, x, until) && !CanReturn(c, Run(c, w, run), p, key, x)
    decreases |run|
  {
    if run == [] {
    } else {
      var u := Apply(c, w, run[0]);
      KeepsFirst(c, w, p, key, until, run);
      TimePasses(c, w, run);
      NotReturnedStep(c, w, p, key, x, until, run[0]);
      NotReturnedRun(c, u, p, key, x, until, run[1..]);
    }
  }

  // ---------- It does come back ----------

  /** The step belongs to a call of this proxy for this key. */
  ghost predicate IsCallOf<V>(c: Setup<V>, w: World, l: Step, p: nat, key: string)
    requires Enabled(c, w, l)
  {
    l == Begin(p, key) || ((l.Fetch? || l.Keep?) && IsFor(w.flights[l.i], p, key))
  }

  /** After this run, without an eviction and by the instant `until`, a call answers `x` with step `l`. */
  ghost predicate Returns<V>(c: Setup<V>, w: World, p: nat, key: string, x: V, until: real, run: seq<Step>, l: Step) {
    && CanRun(c, w, run) && EvictLocal(p, key) !in run
    && var t := Run(c, w, run);
    && t.now <= until && Enabled(c, t, l) && IsCallOf(c, t, l, p, key) && Answer(c, t, l) == Some(Ok(x))
  }

  /** A value is answered from the entry or from what the call has in hand. */
  lemma AnswerIsAtHand<V>(c: Setup<V>, w: World, l: Step, p: nat, key: string, x: V)
    requires Enabled(c, w, l) && IsCallOf(c, w, l, p, key) && Answer(c, w, l) == Some(Ok(x))
    ensures InHand(c, w, p, key, x)
         || (p < |w.locals| && key in w.locals[p] && Holds(c, w.locals[p][key].data, x))
  {
  }

  lemma FirstThenReturns<V>(c: Setup<V>, w: World, p: nat, key: string, x: V, until: real, first: Step,
                            run: seq<Step>, l: Step)
    requires Enabled(c, w, first) && first != EvictLocal(p, key)
    requires Returns(c, Apply(c, w, first), p, key, x, until, run, l)
    ensures Returns(c, w, p, key, x, until, [first] + run, l)
  {
    StepFirst(c, w, first, run);
  }

  /** From Redis to the call that had missed, and so to its answer. */
  lemma RedisToAnswer<V>(c: Setup<V>, w: World, p: nat, key: string, x: V, until: real, j: nat)
    requires j < |w.flights| && IsFor(w.flights[j], p, key) && w.flights[j].stage == Missed
    requires p < |w.locals| && w.now <= until && InRedis(c, w, key, x)
    ensures Returns(c, w, p, key, x, until, [AskRedis(j, true)] + [], Keep(j))
  {
    FirstThenReturns(c, w, p, key, x, until, AskRedis(j, true), [], Keep(j));
  }

  lemma PendingToAnswer<V>(c: Setup<V>, w: World, p: nat, key: string, x: V, until: real, j: nat, i: nat)
    requires j < |w.flights| && IsFor(w.flights[j], p, key) && w.flights[j].stage == Missed
    requires p < |w.locals| && w.now <= until && c.redisTTL > 0.0
    requires i < |w.pending| && w.pending[i].key == key && Holds(c, w.pending[i].data, x)
    ensures Returns(c, w, p, key, x, until, [Land(i)] + ([AskRedis(j, true)] + []), Keep(j))
  {
    RedisToAnswer(c, Apply(c, w, Land(i)), p, key, x, until, j);
    FirstThenReturns(c, w, p, key, x, until, Land(i), [AskRedis(j, true)] + [], Keep(j));
  }

  lemma FetchedToAnswer<V>(c: Setup<V>, w: World, p: nat, key: string, x: V, until: real, j: nat, k: nat)
    requires j < |w.flights| && IsFor(w.flights[j], p, key) && w.flights[j].stage == Missed
    requires p < |w.locals| && w.now <= until && c.redisTTL > 0.0
    requires k < |w.flights| && w.flights[k].key == key && w.flights[k].proxy < |w.locals|
    requires w.flights[k].stage.Fetched? && Holds(c, w.flights[k].stage.data, x)
    ensures exists run, l :: Returns(c, w, p, key, x, until, run, l)
  {
    var kept := Apply(c, w, Keep(k));
    var i := |w.pending|;
    assert kept.pending[i] == Write(key, w.flights[k].stage.data, w.now);
    PendingToAnswer(c, kept, p, key, x, until, j, i);
    FirstThenReturns(c, w, p, key, x, until, Keep(k), [Land(i)] + ([AskRedis(j, true)] + []), Keep(j));
  }

  lemma ItReturns<V(!new)>(c: Setup<V>, w: World, p: nat, key: string, x: V, until: real)
    requires Positive(c) && Inv(c, w) && p < |w.locals| && w.now <= until && CanReturn(c, w, p, key, x)
    ensures exists run, l :: Returns(c, w, p, key, x, until, run, l)
  {
    if InHand(c, w, p, key, x) {
      var j :| 0 <= j < |w.flights| && IsFor(w.flights[j], p, key)
            && HasData(w.flights[j].stage) && Holds(c, w.flights[j].stage.data, x);
      assert Returns(c, w, p, key, x, until, [], Keep(j));
    } else {
      var j :| 0 <= j < |w.flights| && IsFor(w.flights[j], p, key) && w.flights[j].stage == Missed;
      if InRedis(c, w, key, x) {
        RedisToAnswer(c, w, p, key, x, until, j);
      } else if InPending(c, w, key, x) {
        var i :| 0 <= i < |w.pending| && w.pending[i].key == key && Holds(c, w.pending[i].data, x);
        PendingToAnswer(c, w, p, key, x, until, j, i);
      } else {
        var k :| 0 <= k < |w.flights| && w.flights[k].key == key
              && w.flights[k].stage.Fetched? && Holds(c, w.flights[k].stage.data, x);
        assert OnTime(c, w, w.flights[k]);
        FetchedToAnswer(c, w, p, key, x, until, j, k);
      }
    }
  }

  /**
   The exact condition for answers to go back in time. A proxy serves `v`; the database holds another
   value `x` no longer. Before the entry expires, and without its being evicted, a call of the proxy can
   answer `x` if and only if a call under way for the key has `x` in hand, or has yet to ask Redis while
   Redis has `x` or is going to: in a pending write, or from a call of any proxy that has fetched it.
   */
  lemma GoesBackIff<V(!new)>(c: Setup<V>, w: World, p: nat, key: string, v: V, x: V, until: real)
    requires Positive(c) && Lawful(c.codec) && Inv(c, w) && x != v
    requires Serves(c, w, p, key, v, until) && w.now <= until <= w.now + c.localTTL
    requires Bygone(c, key, x, w.now)
    ensures (exists run, l :: Returns(c, w, p, key, x, until, run, l)) <==> CanReturn(c, w, p, key, x)
  {
    if run, l :| Returns(c, w, p, key, x, until, run, l) {
      if !CanReturn(c, w, p, key, x) {
        NotReturnedRun(c, w, p, key, x, until, run);
        AnswerIsAtHand(c, Run(c, w, run), l, p, key, x);
      }
    }
    if CanReturn(c, w, p, key, x) {
      ItReturns(c, w, p, key, x, until);
    }
  }
}
