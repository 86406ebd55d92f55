/**
 Which fetches the cache saves when lookups overlap: exactly those of calls that check the first level
 after an answer was kept there, or ask Redis after it landed there. Calls that had checked or asked
 before fetch as if there were no cache.
 */
module CacheFetches {
  import opened Wrappers
  import opened TwoLevelCache
  import opened CacheStaleness

  // ---------- A lookup that nothing interferes with ----------

  /** What is left of a lookup that has missed the first level, as steps of call `i`. */
  function Rest<V>(c: Setup<V>, w: World, i: nat, key: string, up: bool): seq<Step> {
    [AskRedis(i, up)] + (if up && RedisServes(c, w, key) then [] else [Fetch(i)])
  }

  /**
   A lookup whose steps come one after another, with nothing in between, answers, stores and writes
   what `Lookup` says, as the method `GetOrFetch` does.
   */
  lemma AloneIsLookup<V>(c: Setup<V>, w: World, p: nat, key: string, up: bool)
    requires p < |w.locals|
    ensures var o := Lookup(c.codec, c.localTTL, w.locals[p], w.redis, up, key, w.now, c.db(w.now)(key));
            var begun := Apply(c, w, Begin(p, key));
            var i := |w.flights|;
            if LocalServes(c, w, p, key) then
              Answer(c, w, Begin(p, key)) == Some(o.answer) && begun == w && o.local == w.locals[p] && o.write == None
            else
              && CanRun(c, begun, Rest(c, w, i, key, up))
              && var read := Run(c, begun, Rest(c, w, i, key, up));
              if i < |read.flights| && HasData(read.flights[i].stage) then
                && Enabled(c, read, Keep(i)) && Answer(c, read, Keep(i)) == Some(o.answer)
                && var t := Apply(c, read, Keep(i));
                && t.locals == w.locals[p := o.local] && t.redis == w.redis
                && t.pending == w.pending + (if o.write.Some? then [o.write.value] else [])
                && t.flights == w.flights + [Flight(p, key, Done)]
              else
                && Enabled(c, Apply(c, begun, AskRedis(i, up)), Fetch(i))
                && Answer(c, Apply(c, begun, AskRedis(i, up)), Fetch(i)) == Some(o.answer)
                && read == w.(flights := w.flights + [Flight(p, key, Done)])
                && o.local == w.locals[p] && o.write == None
  {
    if !LocalServes(c, w, p, key) {
      var i := |w.flights|;
      var begun := Apply(c, w, Begin(p, key));
      var asked := Apply(c, begun, AskRedis(i, up));
      OneStep(c, begun, AskRedis(i, up));
      if up && RedisServes(c, w, key) {
        assert [AskRedis(i, up)] + [] == [AskRedis(i, up)];
      } else {
        OneStep(c, asked, Fetch(i));
        InParts(c, begun, [AskRedis(i, up)], [Fetch(i)]);
      }
    }
  }

  // ---------- What is always possible ----------

  /** A call under way can always take its next step, with or without Redis, and new ones can begin. */
  lemma CallsNeverBlock<V(!new)>(c: Setup<V>, w: World, i: nat, p: nat, key: string, up: bool)
    requires Inv(c, w) && i < |w.flights| && p < |w.locals|
    ensures Enabled(c, w, Begin(p, key))
    ensures w.flights[i].stage == Missed ==> Enabled(c, w, AskRedis(i, up))
    ensures w.flights[i].stage == Cold ==> Enabled(c, w, Fetch(i))
    ensures w.flights[i].stage !in {Missed, Cold, Done} ==> Enabled(c, w, Keep(i))
  {
    assert OnTime(c, w, w.flights[i]);
  }

  /** Any pending write can land or get lost next, whatever the order of issue; the others stay pending. */
  lemma WritesLandInAnyOrder<V>(c: Setup<V>, w: World, i: nat)
    requires i < |w.pending|
    ensures Enabled(c, w, Land(i)) && Enabled(c, w, Lose(i))
    ensures multiset(w.pending) == multiset(Apply(c, w, Land(i)).pending) + multiset{w.pending[i]}
    ensures multiset(w.pending) == multiset(Apply(c, w, Lose(i)).pending) + multiset{w.pending[i]}
    ensures Apply(c, w, Lose(i)).redis == w.redis
  {
    assert w.pending == w.pending[..i] + [w.pending[i]] + w.pending[i + 1..];
  }

  /** A call that begins after an eviction in both levels goes through to a fetch; other keys are untouched. */
  lemma EvictedIsFetched<V>(c: Setup<V>, w: World, p: nat, key: string, other: string)
    requires p < |w.locals| && other != key
    ensures Enabled(c, w, EvictLocal(p, key)) && Enabled(c, Apply(c, w, EvictLocal(p, key)), EvictRedis(key))
    ensures var t := Apply(c, Apply(c, w, EvictLocal(p, key)), EvictRedis(key));
            && Answer(c, t, Begin(p, key)) == None
            && var begun := Apply(c, t, Begin(p, key));
            && begun.flights == w.flights + [Flight(p, key, Missed)]
            && Apply(c, begun, AskRedis(|w.flights|, true)).flights == w.flights + [Flight(p, key, Cold)]
            && (other in t.redis <==> other in w.redis) && (other in t.locals[p] <==> other in w.locals[p])
  {
  }

  // ---------- The first level ----------

  /** The proxy has a usable entry for the key until the given instant. */
  ghost predicate Keeps<V>(c: Setup<V>, w: World, p: nat, key: string, until: real) {
    && p < |w.locals| && key in w.locals[p] && c.codec.decode(w.locals[p][key].data).Some?
    && (w.locals[p][key].expiry.Some? ==> until <= w.locals[p][key].expiry.value)
  }

  ghost predicate IsFor(f: Flight, p: nat, key: string) {
    f.proxy == p && f.key == key
  }

  /** From `w` to `t` calls only move on, and none that is `IsFor` this proxy and key has joined. */
  ghost predicate NoneJoined(w: World, t: World, p: nat, key: string) {
    && |w.flights| <= |t.flights|
    && (forall j :: 0 <= j < |w.flights| ==>
          && t.flights[j].proxy == w.flights[j].proxy && t.flights[j].key == w.flights[j].key
          && (t.flights[j].stage == Missed ==> w.flights[j].stage == Missed)
          && (t.flights[j].stage == Cold ==> w.flights[j].stage in {Missed, Cold}))
    && (forall j :: |w.flights| <= j < |t.flights| ==> !IsFor(t.flights[j], p, key))
  }

  lemma DataDecodes<V(!new)>(c: Setup<V>, w: World, i: nat)
    requires Lawful(c.codec) && i < |w.flights| && OnTime(c, w, w.flights[i]) && HasData(w.flights[i].stage)
    ensures c.codec.decode(w.flights[i].stage.data).Some?
  {
    var f := w.flights[i];
    if f.stage.FromRedis? {
      TrueDecodes(c, w.now, f.key, f.stage.data, f.stage.readAt, RedisAge(c));
    }
  }

  lemma KeepsStep<V(!new)>(c: Setup<V>, w: World, p: nat, key: string, until: real, l: Step)
    requires Lawful(c.codec) && Inv(c, w) && Keeps(c, w, p, key, until)
    requires Enabled(c, w, l) && l != EvictLocal(p, key)
    requires w.now <= until <= w.now + c.localTTL
    ensures Keeps(c, Apply(c, w, l), p, key, until)
    ensures NoneJoined(w, Apply(c, w, l), p, key)
  {
    if l.Keep? {
      assert OnTime(c, w, w.flights[l.i]);
      DataDecodes(c, w, l.i);
    }
    OnlyMissesJoin(c, w, p, key, l);
  }

  lemma OnlyMissesJoin<V>(c: Setup<V>, w: World, p: nat, key: string, l: Step)
    requires Enabled(c, w, l) && p < |w.locals| && LocalServes(c, w, p, key)
    ensures NoneJoined(w, Apply(c, w, l), p, key)
  {
  }

  lemma {:induction false} TimePasses<V>(c: Setup<V>, w: World, run: seq<Step>)
    requires CanRun(c, w, run)
    ensures w.now <= Run(c, w, run).now
    decreases |run|
  {
    if run == [] {
    } else {
      TimePasses(c, Apply(c, w, run[0]), run[1..]);
    }
  }

  lemma {:induction false} KeepsRun<V(!new)>(c: Setup<V>, w: World, p: nat, key: string, until: real, run: seq<Step>)
    requires Positive(c) && Lawful(c.codec) && Inv(c, w) && Keeps(c, w, p, key, until)
    requires CanRun(c, w, run) && EvictLocal(p, key) !in run
    requires Run(c, w, run).now <= until <= w.now + c.localTTL
    ensures Keeps(c, Run(c, w, run), p, key, until)
    ensures NoneJoined(w, Run(c, w, run), p, key)
    decreases |run|
  {
    if run == [] {
    } else {
      var u := Apply(c, w, run[0]);
      KeepsFirst(c, w, p, key, until, run);
      KeepsRun(c, u, p, key, until, run[1..]);
      JoinedInParts(w, u, Run(c, w, run), p, key);
    }
  }

  lemma {:induction false} KeepsFirst<V(!new)>(c: Setup<V>, w: World, p: nat, key: string, until: real, run: seq<Step>)
    requires Positive(c) && Lawful(c.codec) && Inv(c, w) && Keeps(c, w, p, key, until)
    requires run != [] && CanRun(c, w, run) && EvictLocal(p, key) !in run
    requires Run(c, w, run).now <= until <= w.now + c.localTTL
    ensures var u := Apply(c, w, run[0]);
            && Inv(c, u) && Keeps(c, u, p, key, until) && NoneJoined(w, u, p, key)
            && w.now <= u.now && EvictLocal(p, key) !in run[1..]
  {
    assert run[0] in run;
    TimePasses(c, w, run);
    assert Inv(c, Apply(c, w, run[0])) by {
      InvStep(c, w, run[0]);
    }
    KeepsStep(c, w, p, key, until, run[0]);
  }

  lemma JoinedInParts(w: World, u: World, t: World, p: nat, key: string)
    requires NoneJoined(w, u, p, key) && NoneJoined(u, t, p, key)
    ensures NoneJoined(w, t, p, key)
  {
  }

  lemma KeptUntil<V(!new)>(c: Setup<V>, w: World, i: nat)
    requires Positive(c) && Lawful(c.codec) && Inv(c, w) && Enabled(c, w, Keep(i))
    ensures Inv(c, Apply(c, w, Keep(i)))
    ensures Keeps(c, Apply(c, w, Keep(i)), w.flights[i].proxy, w.flights[i].key, w.now + c.localTTL)
  {
    InvKeep(c, w, i);
    assert OnTime(c, w, w.flights[i]);
    DataDecodes(c, w, i);
  }

  /** In this run a call of the proxy for the key keeps a value and answers with it. */
  ghost predicate KeptIn<V>(c: Setup<V>, w: World, run: seq<Step>, p: nat, key: string,
                            answer: Option<Result<V, Error>>)
    requires CanRun(c, w, run)
    decreases |run|
  {
    run != [] && (
      || (run[0].Keep? && IsFor(w.flights[run[0].i], p, key) && Answer(c, w, run[0]) == answer)
      || KeptIn(c, Apply(c, w, run[0]), run[1..], p, key, answer))
  }

  /** What an entry answers; an undecodable one is as good as an error. */
  function EntryAnswer<V>(c: Setup<V>, e: Entry): Option<Result<V, Error>> {
    match c.codec.decode(e.data)
    case Some(u) => Some(Ok(u))
    case None => Some(Err(BadSerialisation))
  }

  /** An entry that is not evicted changes only to what a call keeps. */
  lemma {:induction false} EntryIsKept<V(!new)>(c: Setup<V>, w: World, run: seq<Step>, p: nat, key: string)
    requires CanRun(c, w, run) && EvictLocal(p, key) !in run && p < |w.locals| && key in w.locals[p]
    ensures var t := Run(c, w, run);
            && p < |t.locals| && key in t.locals[p]
            && (t.locals[p][key] == w.locals[p][key]
                || KeptIn(c, w, run, p, key, EntryAnswer(c, t.locals[p][key])))
    decreases |run|
  {
    if run == [] {
    } else {
      assert run[0] in run;
      EntryStep(c, w, run[0], p, key);
      EntryIsKept(c, Apply(c, w, run[0]), run[1..], p, key);
    }
  }

  lemma EntryStep<V>(c: Setup<V>, w: World, l: Step, p: nat, key: string)
    requires Enabled(c, w, l) && l != EvictLocal(p, key) && p < |w.locals| && key in w.locals[p]
    ensures var u := Apply(c, w, l);
            && p < |u.locals| && key in u.locals[p]
            && (u.locals[p][key] == w.locals[p][key]
                || (l.Keep? && IsFor(w.flights[l.i], p, key) && Answer(c, w, l) == EntryAnswer(c, u.locals[p][key])))
  {
  }

  /**
   Once a call has kept a value, every call of that proxy for that key that begins within the local
   time to live is answered at once, unless the proxy evicts the key: with that value, or with one that
   another such call has kept since. This holds whatever the database and Redis do in the meantime.
   */
  lemma LaterCallsAreServed<V(!new)>(c: Setup<V>, w: World, i: nat, run: seq<Step>)
    requires Positive(c) && Lawful(c.codec) && Inv(c, w) && Enabled(c, w, Keep(i))
    requires CanRun(c, Apply(c, w, Keep(i)), run) && EvictLocal(w.flights[i].proxy, w.flights[i].key) !in run
    requires Run(c, Apply(c, w, Keep(i)), run).now <= w.now + c.localTTL
    ensures var p, key := w.flights[i].proxy, w.flights[i].key;
            var u := Apply(c, w, Keep(i));
            var t := Run(c, u, run);
            && Enabled(c, t, Begin(p, key)) && Apply(c, t, Begin(p, key)) == t
            && var answer := Answer(c, t, Begin(p, key));
            && answer.Some? && answer.value.Ok?
            && (answer == Answer(c, w, Keep(i)) || KeptIn(c, u, run, p, key, answer))
  {
    var p, key := w.flights[i].proxy, w.flights[i].key;
    var u := Apply(c, w, Keep(i));
    KeptUntil(c, w, i);
    KeepsRun(c, u, p, key, w.now + c.localTTL, run);
    EntryIsKept(c, u, run, p, key);
  }

  /** A run of the world in which call `i` has just kept its value, at the end of which call `j` fetches. */
  ghost predicate FetchesSoon<V>(c: Setup<V>, w: World, i: nat, j: nat, run: seq<Step>)
    requires Enabled(c, w, Keep(i))
  {
    && CanRun(c, Apply(c, w, Keep(i)), run) && EvictLocal(w.flights[i].proxy, w.flights[i].key) !in run
    && var t := Run(c, Apply(c, w, Keep(i)), run);
    && t.now <= w.now + c.localTTL && Enabled(c, t, Fetch(j))
    && IsFor(t.flights[j], w.flights[i].proxy, w.flights[i].key)
  }

  /** The call had checked the first level before, and is not past Redis. */
  ghost predicate HadChecked(w: World, i: nat, j: nat)
    requires i < |w.flights|
  {
    && j < |w.flights| && IsFor(w.flights[j], w.flights[i].proxy, w.flights[i].key)
    && w.flights[j].stage in {Missed, Cold}
  }

  /**
   The exact condition for a second fetch: within the local time to live after call `i` kept a value,
   and without an eviction, call `j` of the same proxy can fetch the same key if and only if it had
   checked the first level before the value was kept.
   */
  lemma FetchesSoonIff<V(!new)>(c: Setup<V>, w: World, i: nat, j: nat)
    requires Positive(c) && Lawful(c.codec) && Inv(c, w) && Enabled(c, w, Keep(i))
    ensures (exists run :: FetchesSoon(c, w, i, j, run)) <==> HadChecked(w, i, j)
  {
    var u := Apply(c, w, Keep(i));
    var p, key := w.flights[i].proxy, w.flights[i].key;
    if run :| FetchesSoon(c, w, i, j, run) {
      KeptUntil(c, w, i);
      KeepsRun(c, u, p, key, w.now + c.localTTL, run);
      assert NoneJoined(u, Run(c, u, run), p, key);
    }
    if HadChecked(w, i, j) {
      if w.flights[j].stage == Cold {
        assert FetchesSoon(c, w, i, j, []);
      } else {
        OneStep(c, u, AskRedis(j, false));
        assert FetchesSoon(c, w, i, j, [AskRedis(j, false)]);
      }
    }
  }

  // ---------- The same answer ----------

  /** No call of this proxy for this key is under way. */
  ghost predicate Quiet(w: World, p: nat, key: string) {
    forall j :: 0 <= j < |w.flights| && IsFor(w.flights[j], p, key) ==> w.flights[j].stage == Done
  }

  /**
   While an entry lasts and no call that missed it is still under way, its proxy gives the same answer
   to every call for the key, whatever else happens.
   */
  lemma {:induction false} SameAnswerWhileQuiet<V(!new)>(c: Setup<V>, w: World, p: nat, key: string, run: seq<Step>)
    requires CanRun(c, w, run) && EvictLocal(p, key) !in run && Quiet(w, p, key)
    requires p < |w.locals| && key in w.locals[p] && c.codec.decode(w.locals[p][key].data).Some?
    requires LocalHit(w.locals[p], key, Run(c, w, run).now)
    ensures var t := Run(c, w, run);
            && Enabled(c, t, Begin(p, key))
            && Answer(c, t, Begin(p, key)) == Some(Ok(c.codec.decode(w.locals[p][key].data).value))
    decreases |run|
  {
    if run == [] {
    } else {
      var u := Apply(c, w, run[0]);
      assert run[0] in run;
      TimePasses(c, u, run[1..]);
      QuietStep(c, w, p, key, run[0]);
      SameAnswerWhileQuiet(c, u, p, key, run[1..]);
    }
  }

  lemma QuietStep<V(!new)>(c: Setup<V>, w: World, p: nat, key: string, l: Step)
    requires Enabled(c, w, l) && l != EvictLocal(p, key) && Quiet(w, p, key)
    requires p < |w.locals| && LocalServes(c, w, p, key)
    ensures var u := Apply(c, w, l);
            && Quiet(u, p, key) && p < |u.locals| && key in u.locals[p] && u.locals[p][key] == w.locals[p][key]
  {
  }

  /** The call is to store something else than `v`, or may yet read something else. */
  ghost predicate MayBring<V>(c: Setup<V>, f: Flight, v: V) {
    f.stage in {Missed, Cold} || (HasData(f.stage) && c.codec.decode(f.stage.data) != Some(v))
  }

  ghost predicate NoneBrings<V>(c: Setup<V>, w: World, p: nat, key: string, v: V) {
    forall j :: 0 <= j < |w.flights| && IsFor(w.flights[j], p, key) ==> !MayBring(c, w.flights[j], v)
  }

  /** The proxy serves `v` until the given instant. */
  ghost predicate Serves<V>(c: Setup<V>, w: World, p: nat, key: string, v: V, until: real) {
    Keeps(c, w, p, key, until) && c.codec.decode(w.locals[p][key].data) == Some(v)
  }

  lemma NoneBringsStep<V(!new)>(c: Setup<V>, w: World, p: nat, key: string, v: V, until: real, l: Step)
    requires Serves(c, w, p, key, v, until) && NoneBrings(c, w, p, key, v)
    requires Enabled(c, w, l) && l != EvictLocal(p, key) && w.now <= until <= w.now + c.localTTL
    ensures Serves(c, Apply(c, w, l), p, key, v, until) && NoneBrings(c, Apply(c, w, l), p, key, v)
  {
  }

  lemma {:induction false} NoneBringsRun<V(!new)>(c: Setup<V>, w: World, p: nat, key: string, v: V, until: real,
                                                  run: seq<Step>)
    requires Serves(c, w, p, key, v, until) && NoneBrings(c, w, p, key, v)
    requires CanRun(c, w, run) && EvictLocal(p, key) !in run
    requires Run(c, w, run).now <= until <= w.now + c.localTTL
    ensures Serves(c, Run(c, w, run), p, key, v, until)
    decreases |run|
  {
    if run == [] {
    } else {
      assert run[0] in run;
      TimePasses(c, w, run);
      NoneBringsStep(c, w, p, key, v, until, run[0]);
      TimePasses(c, Apply(c, w, run[0]), run[1..]);
      NoneBringsRun(c, Apply(c, w, run[0]), p, key, v, until, run[1..]);
    }
  }

  /** After this run the proxy's answer to a new call, before the instant `until`, is not `v`. */
  ghost predicate Changes<V>(c: Setup<V>, w: World, p: nat, key: string, v: V, until: real, run: seq<Step>) {
    && CanRun(c, w, run) && EvictLocal(p, key) !in run
    && var t := Run(c, w, run);
    && t.now <= until && Enabled(c, t, Begin(p, key)) && Answer(c, t, Begin(p, key)) != Some(Ok(v))
  }

  /** The database as it was before the instant, holding `v` under every key from then on. */
  function From<V>(db: real -> string -> Result<V, Error>, now: real, v: V): real -> string -> Result<V, Error> {
    b => if b < now then db(b) else _ => Ok(v)
  }

  /** The databases have the same past. */
  ghost predicate SamePast<V>(db: real -> string -> Result<V, Error>, other: real -> string -> Result<V, Error>,
                              now: real) {
    forall b :: b < now ==> db(b) == other(b)
  }

  lemma KeepReplaces<V(!new)>(c: Setup<V>, w: World, j: nat, v: V, until: real)
    requires j < |w.flights| && HasData(w.flights[j].stage) && w.flights[j].proxy < |w.locals|
    requires c.codec.decode(w.flights[j].stage.data) != Some(v) && w.now <= until
    ensures Changes(c, w, w.flights[j].proxy, w.flights[j].key, v, until, [Keep(j)])
  {
    OneStep(c, w, Keep(j));
  }

  lemma FetchReplaces<V(!new)>(c: Setup<V>, w: World, j: nat, v: V, until: real)
    requires j < |w.flights| && w.flights[j].stage == Cold && w.flights[j].proxy < |w.locals| && w.now <= until
    requires AfterFetch(c, w, w.flights[j].key).Fetched?
    requires c.codec.decode(AfterFetch(c, w, w.flights[j].key).data) != Some(v)
    ensures Changes(c, w, w.flights[j].proxy, w.flights[j].key, v, until, [Fetch(j)] + [Keep(j)])
  {
    KeepReplaces(c, Apply(c, w, Fetch(j)), j, v, until);
    StepFirst(c, w, Fetch(j), [Keep(j)]);
  }

  lemma CallReplaces<V(!new)>(c: Setup<V>, w: World, j: nat, v: V, other: V, until: real)
    requires Lawful(c.codec) && other != v && c.codec.encode(other).Some? && w.now <= until
    requires j < |w.flights| && MayBring(c, w.flights[j], v) && w.flights[j].proxy < |w.locals|
    ensures exists run ::
              Changes(c.(db := From(c.db, w.now, other)), w, w.flights[j].proxy, w.flights[j].key, v, until, run)
  {
    var c' := c.(db := From(c.db, w.now, other));
    var p, key := w.flights[j].proxy, w.flights[j].key;
    if HasData(w.flights[j].stage) {
      KeepReplaces(c', w, j, v, until);
    } else if w.flights[j].stage == Cold {
      FetchReplaces(c', w, j, v, until);
    } else {
      var cold := Apply(c', w, AskRedis(j, false));
      FetchReplaces(c', cold, j, v, until);
      StepFirst(c', w, AskRedis(j, false), [Fetch(j)] + [Keep(j)]);
      assert Changes(c', w, p, key, v, until, [AskRedis(j, false)] + ([Fetch(j)] + [Keep(j)]));
    }
  }

  /**
   The exact condition for a proxy to change its answer before the entry it serves expires, without an
   eviction: given the past, some future of the database allows it if and only if a call for the key is
   under way that is to store something else or has yet to read.
   */
  lemma AnswerCanChangeIff<V(!new)>(c: Setup<V>, w: World, p: nat, key: string, v: V, other: V, until: real)
    requires Lawful(c.codec) && Inv(c, w) && other != v && c.codec.encode(other).Some?
    requires Serves(c, w, p, key, v, until) && w.now <= until <= w.now + c.localTTL
    ensures (exists db, run :: SamePast(c.db, db, w.now) && Changes(c.(db := db), w, p, key, v, until, run))
       <==> !NoneBrings(c, w, p, key, v)
  {
    if db, run :| SamePast(c.db, db, w.now) && Changes(c.(db := db), w, p, key, v, until, run) {
      if NoneBrings(c, w, p, key, v) {
        NoneBringsRun(c.(db := db), w, p, key, v, until, run);
      }
    }
    if j :| 0 <= j < |w.flights| && IsFor(w.flights[j], p, key) && MayBring(c, w.flights[j], v) {
      CallReplaces(c, w, j, v, other, until);
      assert SamePast(c.db, From(c.db, w.now, other), w.now);
    }
  }

  // ---------- The second level ----------

  /** Redis has a usable entry for the key until the given instant. */
  ghost predicate Shared<V>(c: Setup<V>, w: World, key: string, until: real) {
    && key in w.redis && c.codec.decode(w.redis[key].data).Some?
    && (w.redis[key].expiry.Some? ==> until <= w.redis[key].expiry.value)
  }

  /** Every call for the key that is to fetch was to fetch already. */
  ghost predicate NoneTurnedCold(w: World, t: World, key: string) {
    && |w.flights| <= |t.flights|
    && (forall j :: 0 <= j < |w.flights| ==> t.flights[j].key == w.flights[j].key)
    && (forall j :: 0 <= j < |t.flights| && t.flights[j].key == key && t.flights[j].stage == Cold ==>
          j < |w.flights| && w.flights[j].stage == Cold)
  }

  lemma SharedStep<V(!new)>(c: Setup<V>, w: World, key: string, until: real, l: Step)
    requires Lawful(c.codec) && Inv(c, w) && Shared(c, w, key, until)
    requires Enabled(c, w, l) && l != EvictRedis(key) && (l.AskRedis? ==> l.up)
    requires w.now < until <= w.now + c.redisTTL
    ensures Shared(c, Apply(c, w, l), key, until)
    ensures NoneTurnedCold(w, Apply(c, w, l), key)
  {
    if l.Land? {
      var m := w.pending[l.i];
      assert InTime(c, w.now, m);
      TrueDecodes(c, w.now, m.key, m.data, m.issued, c.latency);
    }
  }

  lemma {:induction false} SharedRun<V(!new)>(c: Setup<V>, w: World, key: string, until: real, run: seq<Step>)
    requires Positive(c) && Lawful(c.codec) && Inv(c, w) && Shared(c, w, key, until)
    requires CanRun(c, w, run) && EvictRedis(key) !in run && forall l :: l in run && l.AskRedis? ==> l.up
    requires Run(c, w, run).now < until <= w.now + c.redisTTL
    ensures Shared(c, Run(c, w, run), key, until)
    ensures NoneTurnedCold(w, Run(c, w, run), key)
    decreases |run|
  {
    if run == [] {
    } else {
      var u := Apply(c, w, run[0]);
      assert run[0] in run;
      TimePasses(c, w, run);
      TimePasses(c, u, run[1..]);
      assert Inv(c, u) by {
        InvStep(c, w, run[0]);
      }
      SharedStep(c, w, key, until, run[0]);
      SharedRun(c, u, key, until, run[1..]);
    }
  }

  /** A run of the world in which write `k` has just landed, with Redis up, at the end of which `j` fetches. */
  ghost predicate FetchesShared<V>(c: Setup<V>, w: World, k: nat, j: nat, run: seq<Step>)
    requires Enabled(c, w, Land(k))
  {
    && CanRun(c, Apply(c, w, Land(k)), run) && EvictRedis(w.pending[k].key) !in run
    && (forall l :: l in run && l.AskRedis? ==> l.up)
    && var t := Run(c, Apply(c, w, Land(k)), run);
    && t.now < w.now + c.redisTTL && Enabled(c, t, Fetch(j)) && t.flights[j].key == w.pending[k].key
  }

  /**
   The exact condition across proxies: within the Redis time to live after a write has landed, with
   Redis up and without an eviction there, a call of any proxy can fetch the key if and only if it had
   asked Redis before the landing.
   */
  lemma FetchesSharedIff<V(!new)>(c: Setup<V>, w: World, k: nat, j: nat)
    requires Positive(c) && Lawful(c.codec) && Inv(c, w) && Enabled(c, w, Land(k))
    ensures (exists run :: FetchesShared(c, w, k, j, run))
       <==> j < |w.flights| && w.flights[j].key == w.pending[k].key && w.flights[j].stage == Cold
  {
    var u := Apply(c, w, Land(k));
    var m := w.pending[k];
    if run :| FetchesShared(c, w, k, j, run) {
      assert InTime(c, w.now, m);
      TrueDecodes(c, w.now, m.key, m.data, m.issued, c.latency);
      InvLand(c, w, k);
      SharedRun(c, u, m.key, w.now + c.redisTTL, run);
      assert NoneTurnedCold(u, Run(c, u, run), m.key);
    }
    if j < |w.flights| && w.flights[j].key == m.key && w.flights[j].stage == Cold {
      assert FetchesShared(c, w, k, j, []);
    }
  }

  // ---------- Stampedes ----------

  /** `n` calls for the key check the first level. */
  function Begins(p: nat, key: string, n: nat): seq<Step> {
    if n == 0 then [] else [Begin(p, key)] + Begins(p, key, n - 1)
  }

  function Misses(p: nat, key: string, n: nat): (r: seq<Flight>)
    ensures |r| == n && forall j :: 0 <= j < n ==> r[j] == Flight(p, key, Missed)
  {
    seq(n, _ => Flight(p, key, Missed))
  }

  /** Calls from `i` on ask Redis and fetch. */
  function Fetches(i: nat, n: nat): seq<Step>
    decreases n
  {
    if n == 0 then [] else [AskRedis(i, true)] + ([Fetch(i)] + Fetches(i + 1, n - 1))
  }

  lemma {:induction false} AllMiss<V>(c: Setup<V>, w: World, p: nat, key: string, n: nat)
    requires p < |w.locals| && !LocalServes(c, w, p, key)
    ensures CanRun(c, w, Begins(p, key, n))
    ensures Run(c, w, Begins(p, key, n)) == w.(flights := w.flights + Misses(p, key, n))
    decreases n
  {
    if n == 0 {
      assert w.flights + Misses(p, key, 0) == w.flights;
    } else {
      var u := Apply(c, w, Begin(p, key));
      AllMiss(c, u, p, key, n - 1);
      StepFirst(c, w, Begin(p, key), Begins(p, key, n - 1));
      assert u.flights + Misses(p, key, n - 1) == w.flights + Misses(p, key, n);
    }
  }

  lemma {:induction false} AllFetch<V>(c: Setup<V>, w: World, key: string, i: nat, n: nat)
    requires i + n == |w.flights| && key !in w.redis && AfterFetch(c, w, key).Fetched?
    requires forall j :: i <= j < i + n ==> w.flights[j].key == key && w.flights[j].stage == Missed
    ensures CanRun(c, w, Fetches(i, n))
    ensures var t := Run(c, w, Fetches(i, n));
            && t == w.(flights := t.flights) && |t.flights| == |w.flights|
            && forall j :: 0 <= j < |w.flights| ==>
                 t.flights[j] == if j < i then w.flights[j] else w.flights[j].(stage := AfterFetch(c, w, key))
    decreases n
  {
    if n == 0 {
    } else {
      var asked := Apply(c, w, AskRedis(i, true));
      var u := Apply(c, asked, Fetch(i));
      AllFetch(c, u, key, i + 1, n - 1);
      StepFirst(c, asked, Fetch(i), Fetches(i + 1, n - 1));
      StepFirst(c, w, AskRedis(i, true), [Fetch(i)] + Fetches(i + 1, n - 1));
    }
  }

  /**
   Nothing holds overlapping calls together: from empty caches, with Redis up, any number of calls of
   one proxy for one key can all fetch, at one instant.
   */
  lemma Stampede<V>(c: Setup<V>, w: World, p: nat, key: string, n: nat)
    requires Empty(w) && p < |w.locals| && AfterFetch(c, w, key).Fetched?
    ensures var run := Begins(p, key, n) + Fetches(0, n);
            && CanRun(c, w, run)
            && var t := Run(c, w, run);
            && t.now == w.now && |t.flights| == n
            && forall j :: 0 <= j < n ==> t.flights[j] == Flight(p, key, AfterFetch(c, w, key))
  {
    AllMiss(c, w, p, key, n);
    var u := Run(c, w, Begins(p, key, n));
    assert u.flights == Misses(p, key, n);
    AllFetch(c, u, key, 0, n);
    InParts(c, w, Begins(p, key, n), Fetches(0, n));
  }
}
