/**
 How old can an answer be? Any number of proxies share one Redis; any number of lookups overlap, step
 by step, also for the same key in the same proxy; the database changes whenever it likes; what was
 read is stored within `latency` seconds; asynchronous writes land, out of order, within `delay`
 seconds, or get lost.
 */
module CacheStaleness {
  import opened Wrappers
  import opened TwoLevelCache

  /** `db(t)(key)` is what a fetch at instant `t` returns. */
  datatype Setup<!V> = Setup(localTTL: real, redisTTL: real, delay: real, latency: real, codec: Codec<V>,
                             db: real -> string -> Result<V, Error>)

  /** Where a `GetOrFetch` call is that has not found its key in the first level. */
  datatype Stage =
    | Missed                               // about to ask Redis
    | Cold                                 // Redis had nothing usable; about to fetch
    | FromRedis(data: Data, readAt: real)  // about to store what Redis had
    | Fetched(data: Data, readAt: real)    // about to store what the database had
    | Done

  datatype Flight = Flight(proxy: nat, key: string, stage: Stage)

  datatype World = World(now: real, locals: seq<Store>, redis: Store, pending: seq<Write>, flights: seq<Flight>)

  datatype Step =
    | Advance(to: real)
    | Begin(proxy: nat, key: string)
    | AskRedis(i: nat, up: bool)
    | Fetch(i: nat)
    | Keep(i: nat)
    | Land(i: nat)
    | Lose(i: nat)
    | EvictLocal(proxy: nat, key: string)
    | EvictRedis(key: string)

  predicate HasData(g: Stage) {
    g.FromRedis? || g.Fetched?
  }

  /** Time does not pass beyond the moment by which a value has to be stored or a write has to land. */
  predicate Enabled<V>(c: Setup<V>, w: World, l: Step) {
    match l
    case Advance(to) =>
      && w.now <= to
      && (forall i :: 0 <= i < |w.pending| ==> to <= w.pending[i].issued + c.delay)
      && (forall i :: 0 <= i < |w.flights| && HasData(w.flights[i].stage) ==>
            to <= w.flights[i].stage.readAt + c.latency)
    case Begin(p, _) => p < |w.locals|
    case AskRedis(i, _) => i < |w.flights| && w.flights[i].stage == Missed
    case Fetch(i) => i < |w.flights| && w.flights[i].stage == Cold
    case Keep(i) => i < |w.flights| && HasData(w.flights[i].stage) && w.flights[i].proxy < |w.locals|
    case Land(i) => i < |w.pending|
    case Lose(i) => i < |w.pending|
    case EvictLocal(p, _) => p < |w.locals|
    case EvictRedis(_) => true
  }

  predicate LocalServes<V>(c: Setup<V>, w: World, p: nat, key: string)
    requires p < |w.locals|
  {
    LocalHit(w.locals[p], key, w.now) && c.codec.decode(w.locals[p][key].data).Some?
  }

  predicate RedisServes<V>(c: Setup<V>, w: World, key: string) {
    RedisHit(w.redis, key, w.now) && c.codec.decode(w.redis[key].data).Some?
  }

  function AfterFetch<V>(c: Setup<V>, w: World, key: string): Stage {
    match c.db(w.now)(key)
    case Err(_) => Done
    case Ok(v) =>
      match c.codec.encode(v)
      case None => Done
      case Some(data) => Fetched(data, w.now)
  }

  function Moved(w: World, i: nat, g: Stage): seq<Flight>
    requires i < |w.flights|
  {
    w.flights[i := w.flights[i].(stage := g)]
  }

  function Apply<V>(c: Setup<V>, w: World, l: Step): World
    requires Enabled(c, w, l)
  {
    match l
    case Advance(to) => w.(now := to)
    case Begin(p, key) =>
      if LocalServes(c, w, p, key) then w else w.(flights := w.flights + [Flight(p, key, Missed)])
    case AskRedis(i, up) =>
      var key := w.flights[i].key;
      w.(flights := Moved(w, i, if up && RedisServes(c, w, key) then FromRedis(w.redis[key].data, w.now) else Cold))
    case Fetch(i) => w.(flights := Moved(w, i, AfterFetch(c, w, w.flights[i].key)))
    case Keep(i) =>
      var f := w.flights[i];
      w.(locals := w.locals[f.proxy := w.locals[f.proxy][f.key := Entry(f.stage.data, Expiry(w.now, c.localTTL))]],
         pending := w.pending + (if f.stage.Fetched? then [Write(f.key, f.stage.data, w.now)] else []),
         flights := Moved(w, i, Done))
    case Land(i) =>
      w.(redis := Landed(w.redis, w.pending[i], w.now, c.redisTTL),
         pending := w.pending[..i] + w.pending[i + 1..])
    case Lose(i) => w.(pending := w.pending[..i] + w.pending[i + 1..])
    case EvictLocal(p, key) => w.(locals := w.locals[p := w.locals[p] - {key}])
    case EvictRedis(key) => w.(redis := w.redis - {key})
  }

  /** The answer with which this step ends a call, if it does. */
  function Answer<V>(c: Setup<V>, w: World, l: Step): Option<Result<V, Error>>
    requires Enabled(c, w, l)
  {
    match l
    case Begin(p, key) =>
      if LocalServes(c, w, p, key) then Some(Ok(c.codec.decode(w.locals[p][key].data).value)) else None
    case Fetch(i) =>
      (match c.db(w.now)(w.flights[i].key)
       case Err(e) => Some(Err(e))
       case Ok(v) => if c.codec.encode(v) == None then Some(Err(BadSerialisation)) else None)
    case Keep(i) =>
      (match c.codec.decode(w.flights[i].stage.data)
       case Some(u) => Some(Ok(u))
       case None => Some(Err(BadSerialisation)))
    case _ => None
  }

  /** The key that a call asks for with this step. */
  function KeyOf<V>(c: Setup<V>, w: World, l: Step): string
    requires Enabled(c, w, l)
  {
    match l
    case Begin(_, key) => key
    case Fetch(i) => w.flights[i].key
    case Keep(i) => w.flights[i].key
    case _ => ""
  }

  predicate CanRun<V>(c: Setup<V>, w: World, run: seq<Step>)
    decreases |run|
  {
    run == [] || (Enabled(c, w, run[0]) && CanRun(c, Apply(c, w, run[0]), run[1..]))
  }

  function Run<V>(c: Setup<V>, w: World, run: seq<Step>): World
    requires CanRun(c, w, run)
    decreases |run|
  {
    if run == [] then w else Run(c, Apply(c, w, run[0]), run[1..])
  }

  lemma StepFirst<V>(c: Setup<V>, w: World, l: Step, rest: seq<Step>)
    requires Enabled(c, w, l) && CanRun(c, Apply(c, w, l), rest)
    ensures CanRun(c, w, [l] + rest) && Run(c, w, [l] + rest) == Run(c, Apply(c, w, l), rest)
  {
    assert ([l] + rest)[1..] == rest;
  }

  lemma {:induction false} InParts<V>(c: Setup<V>, w: World, a: seq<Step>, b: seq<Step>)
    requires CanRun(c, w, a) && CanRun(c, Run(c, w, a), b)
    ensures CanRun(c, w, a + b) && Run(c, w, a + b) == Run(c, Run(c, w, a), b)
    decreases |a|
  {
    if a == [] {
      assert a + b == b;
    } else {
      InParts(c, Apply(c, w, a[0]), a[1..], b);
      StepFirst(c, w, a[0], a[1..] + b);
      assert a + b == [a[0]] + (a[1..] + b);
    }
  }

  lemma OneStep<V>(c: Setup<V>, w: World, l: Step)
    requires Enabled(c, w, l)
    ensures CanRun(c, w, [l]) && Run(c, w, [l]) == Apply(c, w, l)
  {
    assert [l][1..] == [];
  }

  /** Nothing cached, nothing on its way. */
  ghost predicate Empty(w: World) {
    && w.redis == map[] && w.pending == [] && w.flights == []
    && forall p :: 0 <= p < |w.locals| ==> w.locals[p] == map[]
  }

  // ---------- The bound ----------

  /** At instant `b` the database held, for this key, the value that `data` encodes. */
  ghost predicate WasAt<V>(c: Setup<V>, key: string, data: Data, b: real) {
    c.db(b)(key).Ok? && c.codec.encode(c.db(b)(key).value) == Some(data)
  }

  /** True at some instant not after `now`, of which `end` is at most `slack` seconds later. */
  ghost predicate TrueWithin<V>(c: Setup<V>, now: real, key: string, data: Data, end: real, slack: real) {
    exists b :: WasAt(c, key, data, b) && b <= now && end <= b + slack
  }

  /** An entry that was true once and expires within `slack` of that. */
  ghost predicate Fresh<V>(c: Setup<V>, now: real, key: string, e: Entry, slack: real) {
    e.expiry.Some? && TrueWithin(c, now, key, e.data, e.expiry.value, slack)
  }

  function RedisAge<V>(c: Setup<V>): real {
    c.latency + c.delay + c.redisTTL
  }

  function MaxAge<V>(c: Setup<V>): real {
    RedisAge(c) + c.latency + c.localTTL
  }

  ghost predicate InTime<V>(c: Setup<V>, now: real, m: Write) {
    m.issued <= now <= m.issued + c.delay && TrueWithin(c, now, m.key, m.data, m.issued, c.latency)
  }

  ghost predicate OnTime<V>(c: Setup<V>, w: World, f: Flight) {
    && f.proxy < |w.locals|
    && (HasData(f.stage) ==> f.stage.readAt <= w.now <= f.stage.readAt + c.latency)
    && (f.stage.Fetched? ==> WasAt(c, f.key, f.stage.data, f.stage.readAt))
    && (f.stage.FromRedis? ==> TrueWithin(c, w.now, f.key, f.stage.data, f.stage.readAt, RedisAge(c)))
  }

  ghost predicate Inv<V>(c: Setup<V>, w: World) {
    && (forall key :: key in w.redis ==> Fresh(c, w.now, key, w.redis[key], RedisAge(c)))
    && (forall p, key :: 0 <= p < |w.locals| && key in w.locals[p] ==>
          Fresh(c, w.now, key, w.locals[p][key], MaxAge(c)))
    && (forall i :: 0 <= i < |w.pending| ==> InTime(c, w.now, w.pending[i]))
    && (forall i :: 0 <= i < |w.flights| ==> OnTime(c, w, w.flights[i]))
  }

  ghost predicate Positive<V>(c: Setup<V>) {
    c.localTTL > 0.0 && c.redisTTL > 0.0 && c.delay >= 0.0 && c.latency >= 0.0
  }

  /** What was true decodes to what the database held. */
  lemma TrueDecodes<V(!new)>(c: Setup<V>, now: real, key: string, data: Data, end: real, slack: real)
    requires Lawful(c.codec) && TrueWithin(c, now, key, data, end, slack)
    ensures c.codec.decode(data).Some?
    ensures exists b :: b <= now && end <= b + slack && c.db(b)(key) == Ok(c.codec.decode(data).value)
  {
    var b :| WasAt(c, key, data, b) && b <= now && end <= b + slack;
    assert c.db(b)(key) == Ok(c.codec.decode(data).value);
  }

  /** Any value answered was the database's within the bound. */
  lemma AnswerIsRecent<V(!new)>(c: Setup<V>, w: World, l: Step)
    requires Positive(c) && Lawful(c.codec) && Inv(c, w) && Enabled(c, w, l)
    requires Answer(c, w, l).Some? && Answer(c, w, l).value.Ok?
    ensures exists b :: w.now - MaxAge(c) <= b <= w.now && c.db(b)(KeyOf(c, w, l)) == Answer(c, w, l).value
  {
    if l.Begin? {
      var e := w.locals[l.proxy][l.key];
      assert Fresh(c, w.now, l.key, e, MaxAge(c));
      TrueDecodes(c, w.now, l.key, e.data, e.expiry.value, MaxAge(c));
    } else {
      var f := w.flights[l.i];
      assert OnTime(c, w, f);
      if f.stage.Fetched? {
        assert TrueWithin(c, w.now, f.key, f.stage.data, f.stage.readAt, 0.0);
        TrueDecodes(c, w.now, f.key, f.stage.data, f.stage.readAt, 0.0);
      } else {
        TrueDecodes(c, w.now, f.key, f.stage.data, f.stage.readAt, RedisAge(c));
      }
    }
  }

  lemma Later<V>(c: Setup<V>, now: real, to: real, key: string, data: Data,
                 end: real, newEnd: real, slack: real, newSlack: real)
    requires TrueWithin(c, now, key, data, end, slack) && now <= to && newEnd - newSlack <= end - slack
    ensures TrueWithin(c, to, key, data, newEnd, newSlack)
  {
    var b :| WasAt(c, key, data, b) && b <= now && end <= b + slack;
    assert WasAt(c, key, data, b) && b <= to && newEnd <= b + newSlack;
  }

  lemma InvAdvance<V>(c: Setup<V>, w: World, to: real)
    requires Inv(c, w) && Enabled(c, w, Advance(to))
    ensures Inv(c, w.(now := to))
  {
    forall key, data, end, slack | TrueWithin(c, w.now, key, data, end, slack)
      ensures TrueWithin(c, to, key, data, end, slack)
    {
      Later(c, w.now, to, key, data, end, end, slack, slack);
    }
    assert forall i :: 0 <= i < |w.pending| ==> InTime(c, w.now, w.pending[i]);
    assert forall i :: 0 <= i < |w.flights| ==> OnTime(c, w, w.flights[i]);
  }

  lemma InvRead<V(!new)>(c: Setup<V>, w: World, l: Step)
    requires Positive(c) && Inv(c, w) && Enabled(c, w, l) && (l.Begin? || l.AskRedis? || l.Fetch?)
    ensures Inv(c, Apply(c, w, l))
  {
    var t := Apply(c, w, l);
    forall i | 0 <= i < |t.flights|
      ensures OnTime(c, t, t.flights[i])
    {
      if i < |w.flights| {
        assert OnTime(c, w, w.flights[i]);
        if l.AskRedis? && l.i == i && t.flights[i].stage.FromRedis? {
          var key := w.flights[i].key;
          var e := w.redis[key];
          assert Fresh(c, w.now, key, e, RedisAge(c));
          Later(c, w.now, w.now, key, e.data, e.expiry.value, w.now, RedisAge(c), RedisAge(c));
        }
      }
    }
  }

  /** What is kept is fresh. */
  lemma KeptIsFresh<V(!new)>(c: Setup<V>, w: World, i: nat)
    requires Positive(c) && Inv(c, w) && Enabled(c, w, Keep(i))
    ensures var f := w.flights[i];
            && Fresh(c, w.now, f.key, Entry(f.stage.data, Expiry(w.now, c.localTTL)), MaxAge(c))
            && (f.stage.Fetched? ==> InTime(c, w.now, Write(f.key, f.stage.data, w.now)))
  {
    var f := w.flights[i];
    assert OnTime(c, w, f);
    if f.stage.Fetched? {
      assert TrueWithin(c, w.now, f.key, f.stage.data, f.stage.readAt, 0.0);
      Later(c, w.now, w.now, f.key, f.stage.data, f.stage.readAt, w.now, 0.0, c.latency);
      Later(c, w.now, w.now, f.key, f.stage.data, w.now, w.now + c.localTTL, c.latency, MaxAge(c));
    } else {
      Later(c, w.now, w.now, f.key, f.stage.data, f.stage.readAt, w.now + c.localTTL, RedisAge(c), MaxAge(c));
    }
  }

  lemma InvKeep<V(!new)>(c: Setup<V>, w: World, i: nat)
    requires Positive(c) && Inv(c, w) && Enabled(c, w, Keep(i))
    ensures Inv(c, Apply(c, w, Keep(i)))
  {
    var t := Apply(c, w, Keep(i));
    KeptIsFresh(c, w, i);
    forall j | 0 <= j < |t.flights|
      ensures OnTime(c, t, t.flights[j])
    {
      assert OnTime(c, w, w.flights[j]);
    }
    forall p, key | 0 <= p < |t.locals| && key in t.locals[p]
      ensures Fresh(c, t.now, key, t.locals[p][key], MaxAge(c))
    {
      if p == w.flights[i].proxy && key == w.flights[i].key {
      } else {
        assert Fresh(c, w.now, key, w.locals[p][key], MaxAge(c));
      }
    }
  }

  lemma InvLand<V(!new)>(c: Setup<V>, w: World, i: nat)
    requires Positive(c) && Inv(c, w) && Enabled(c, w, Land(i))
    ensures Inv(c, Apply(c, w, Land(i)))
  {
    var m := w.pending[i];
    assert InTime(c, w.now, m);
    Later(c, w.now, w.now, m.key, m.data, m.issued, w.now + c.redisTTL, c.latency, RedisAge(c));
    SameFlights(c, w, Apply(c, w, Land(i)));
  }

  lemma SameFlights<V>(c: Setup<V>, w: World, t: World)
    requires Inv(c, w) && t.flights == w.flights && t.now == w.now && |t.locals| == |w.locals|
    ensures forall i :: 0 <= i < |t.flights| ==> OnTime(c, t, t.flights[i])
  {
    forall i | 0 <= i < |t.flights|
      ensures OnTime(c, t, t.flights[i])
    {
      assert OnTime(c, w, w.flights[i]);
    }
  }

  lemma InvStep<V(!new)>(c: Setup<V>, w: World, l: Step)
    requires Positive(c) && Inv(c, w) && Enabled(c, w, l)
    ensures Inv(c, Apply(c, w, l))
  {
    match l
    case Advance(to) => InvAdvance(c, w, to);
    case Begin(_, _) => InvRead(c, w, l);
    case AskRedis(_, _) => InvRead(c, w, l);
    case Fetch(_) => InvRead(c, w, l);
    case Keep(i) => InvKeep(c, w, i);
    case Land(i) => InvLand(c, w, i);
    case Lose(_) => SameFlights(c, w, Apply(c, w, l));
    case EvictLocal(_, _) => SameFlights(c, w, Apply(c, w, l));
    case EvictRedis(_) => SameFlights(c, w, Apply(c, w, l));
  }

  lemma {:induction false} InvRun<V(!new)>(c: Setup<V>, w: World, run: seq<Step>)
    requires Positive(c) && Inv(c, w) && CanRun(c, w, run)
    ensures Inv(c, Run(c, w, run))
    decreases |run|
  {
    if run == [] {
    } else {
      InvStep(c, w, run[0]);
      InvRun(c, Apply(c, w, run[0]), run[1..]);
    }
  }

  /**
   After any run from empty caches, a value that any step of any `GetOrFetch` answers was the
   database's at some instant within the last local TTL + Redis TTL + write delay + twice the latency.
   */
  lemma StalenessIsBounded<V(!new)>(c: Setup<V>, w: World, run: seq<Step>, l: Step)
    requires Positive(c) && Lawful(c.codec) && Empty(w) && CanRun(c, w, run) && Enabled(c, Run(c, w, run), l)
    ensures var t := Run(c, w, run);
            Answer(c, t, l).Some? && Answer(c, t, l).value.Ok? ==>
              exists b :: t.now - MaxAge(c) <= b <= t.now && c.db(b)(KeyOf(c, t, l)) == Answer(c, t, l).value
  {
    InvRun(c, w, run);
    var t := Run(c, w, run);
    if Answer(c, t, l).Some? && Answer(c, t, l).value.Ok? {
      AnswerIsRecent(c, t, l);
    }
  }
}
