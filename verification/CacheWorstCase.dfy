/**
 The staleness bound cannot be improved, and without positive times to live there is none. Overlapping
 calls can make a proxy's answers go back in time.
 */
module CacheWorstCase {
  import opened Wrappers
  import opened TwoLevelCache
  import opened CacheStaleness

  /** A database that changes once, right after instant zero. */
  function ChangesAfterZero(t: real): string -> Result<string, Error> {
    _ => Ok(if t <= 0.0 then "before" else "after")
  }

  function Plain(localTTL: real, redisTTL: real, delay: real, latency: real): Setup<string> {
    Setup(localTTL, redisTTL, delay, latency, Codec((v: string) => Some(v), (d: Data) => Some(d)), ChangesAfterZero)
  }

  ghost predicate IsPlain(c: Setup<string>) {
    c == Plain(c.localTTL, c.redisTTL, c.delay, c.latency) && c.delay >= 0.0 && c.latency >= 0.0
  }

  function Start(): World {
    World(0.0, [map[], map[]], map[], [], [])
  }

  // ---------- The slowest way round ----------

  /** Proxy 0 has fetched at instant zero and keeps the value as late as it may. */
  function FetchedLate(c: Setup<string>): seq<Step> {
    [Begin(0, "k")] + ([AskRedis(0, true)] + ([Fetch(0)] + ([Advance(c.latency)] + [Keep(0)])))
  }

  /** The write lands as late as it may, and proxy 1 asks Redis only just in time, at `asked`. */
  function ReadLate(c: Setup<string>, asked: real): seq<Step> {
    LandedLate(c, asked) + AskedBy1()
  }

  function LandedLate(c: Setup<string>, asked: real): seq<Step> {
    [Advance(c.latency + c.delay)] + ([Land(0)] + [Advance(asked)])
  }

  function AskedBy1(): seq<Step> {
    [Begin(1, "k")] + [AskRedis(1, true)]
  }

  /** Proxy 1 keeps the value as late as it may and serves it as long as it may. */
  function ServedLate(c: Setup<string>, asked: real): seq<Step> {
    [Advance(asked + c.latency)] + ([Keep(1)] + [Advance(asked + c.latency + c.localTTL)])
  }

  function AfterFetchedLate(c: Setup<string>): World {
    World(c.latency, [map["k" := Entry("before", Expiry(c.latency, c.localTTL))], map[]], map[],
          [Write("k", "before", c.latency)], [Flight(0, "k", Done)])
  }

  function AfterLandedLate(c: Setup<string>, asked: real): World {
    AfterReadLate(c, asked).(flights := [Flight(0, "k", Done)])
  }

  function AfterReadLate(c: Setup<string>, asked: real): World {
    World(asked, [map["k" := Entry("before", Expiry(c.latency, c.localTTL))], map[]],
          map["k" := Entry("before", Expiry(c.latency + c.delay, c.redisTTL))],
          [], [Flight(0, "k", Done), Flight(1, "k", FromRedis("before", asked))])
  }

  lemma FetchLate(c: Setup<string>)
    requires IsPlain(c)
    ensures CanRun(c, Start(), FetchedLate(c)) && Run(c, Start(), FetchedLate(c)) == AfterFetchedLate(c)
  {
    var w1 := Apply(c, Start(), Begin(0, "k"));
    var w2 := Apply(c, w1, AskRedis(0, true));
    var w3 := Apply(c, w2, Fetch(0));
    var w4 := Apply(c, w3, Advance(c.latency));
    assert w4.flights == [Flight(0, "k", Fetched("before", 0.0))];
    OneStep(c, w4, Keep(0));
    assert Apply(c, w4, Keep(0)) == AfterFetchedLate(c);
    StepFirst(c, w3, Advance(c.latency), [Keep(0)]);
    StepFirst(c, w2, Fetch(0), [Advance(c.latency)] + [Keep(0)]);
    StepFirst(c, w1, AskRedis(0, true), [Fetch(0)] + ([Advance(c.latency)] + [Keep(0)]));
    StepFirst(c, Start(), Begin(0, "k"), [AskRedis(0, true)] + ([Fetch(0)] + ([Advance(c.latency)] + [Keep(0)])));
  }

  /** Proxy 1, which has nothing yet, asks Redis. */
  lemma AskBy1(c: Setup<string>, w: World)
    requires |w.locals| == 2 && w.locals[1] == map[] && w.flights == [Flight(0, "k", Done)]
    requires RedisServes(c, w, "k")
    ensures CanRun(c, w, AskedBy1())
    ensures Run(c, w, AskedBy1())
         == w.(flights := [Flight(0, "k", Done), Flight(1, "k", FromRedis(w.redis["k"].data, w.now))])
  {
    var begun := Apply(c, w, Begin(1, "k"));
    assert begun.flights == [Flight(0, "k", Done), Flight(1, "k", Missed)];
    OneStep(c, begun, AskRedis(1, true));
    StepFirst(c, w, Begin(1, "k"), [AskRedis(1, true)]);
  }

  lemma LandOnly(c: Setup<string>, w: World, m: Write)
    requires w.pending == [m]
    ensures Apply(c, w, Land(0)) == w.(redis := Landed(w.redis, m, w.now, c.redisTTL), pending := [])
  {
  }

  /** Time may pass as far as the one pending write allows. */
  lemma WaitFor(c: Setup<string>, w: World, to: real)
    requires w.flights == [Flight(0, "k", Done)] && w.now <= to
    requires w.pending == [] || (|w.pending| == 1 && to <= w.pending[0].issued + c.delay)
    ensures Enabled(c, w, Advance(to))
  {
  }

  /** The one pending write lands, and time goes on. */
  lemma LandThenWait(c: Setup<string>, w: World, m: Write, asked: real)
    requires w.pending == [m] && w.flights == [Flight(0, "k", Done)] && w.now <= asked
    ensures CanRun(c, w, [Land(0)] + [Advance(asked)])
    ensures Run(c, w, [Land(0)] + [Advance(asked)])
         == w.(now := asked, redis := Landed(w.redis, m, w.now, c.redisTTL), pending := [])
  {
    LandOnly(c, w, m);
    var landed := Apply(c, w, Land(0));
    WaitFor(c, landed, asked);
    OneStep(c, landed, Advance(asked));
    StepFirst(c, w, Land(0), [Advance(asked)]);
  }

  /** The one pending write lands as late as it may, and time goes on. */
  lemma LandLate(c: Setup<string>, w: World, m: Write, asked: real)
    requires IsPlain(c) && w.pending == [m] && w.now == m.issued == c.latency && w.flights == [Flight(0, "k", Done)]
    requires c.latency + c.delay <= asked
    ensures CanRun(c, w, LandedLate(c, asked))
    ensures Run(c, w, LandedLate(c, asked))
         == w.(now := asked, redis := Landed(w.redis, m, c.latency + c.delay, c.redisTTL), pending := [])
  {
    var to := c.latency + c.delay;
    WaitFor(c, w, to);
    LandThenWait(c, w.(now := to), m, asked);
    StepFirst(c, w, Advance(to), [Land(0)] + [Advance(asked)]);
  }

  lemma ReadRedisLate(c: Setup<string>, asked: real)
    requires IsPlain(c) && c.redisTTL > 0.0 && c.latency + c.delay <= asked < RedisAge(c)
    ensures CanRun(c, AfterFetchedLate(c), ReadLate(c, asked))
    ensures Run(c, AfterFetchedLate(c), ReadLate(c, asked)) == AfterReadLate(c, asked)
  {
    LandLate(c, AfterFetchedLate(c), Write("k", "before", c.latency), asked);
    AskBy1(c, AfterLandedLate(c, asked));
    InParts(c, AfterFetchedLate(c), LandedLate(c, asked), AskedBy1());
  }

  lemma ServeLate(c: Setup<string>, w: World, asked: real)
    requires IsPlain(c) && c.localTTL > 0.0 && w.now == asked && |w.locals| == 2 && w.pending == []
    requires w.flights == [Flight(0, "k", Done), Flight(1, "k", FromRedis("before", asked))]
    ensures CanRun(c, w, ServedLate(c, asked))
    ensures var t := Run(c, w, ServedLate(c, asked));
            && t.now == asked + c.latency + c.localTTL
            && Enabled(c, t, Begin(1, "k")) && Answer(c, t, Begin(1, "k")) == Some(Ok("before"))
  {
    var w1 := Apply(c, w, Advance(asked + c.latency));
    var w2 := Apply(c, w1, Keep(1));
    var end := asked + c.latency + c.localTTL;
    assert w2.flights == [Flight(0, "k", Done), Flight(1, "k", Done)];
    assert w2.locals[1]["k"] == Entry("before", Some(end));
    OneStep(c, w2, Advance(end));
    StepFirst(c, w1, Keep(1), [Advance(end)]);
    StepFirst(c, w, Advance(asked + c.latency), [Keep(1)] + [Advance(end)]);
  }

  /**
   For any positive times to live and any margin, however small, some run returns a value that the
   database has not held for the whole bound less that margin.
   */
  lemma BoundIsTight(localTTL: real, redisTTL: real, delay: real, latency: real, short: real)
    requires localTTL > 0.0 && redisTTL > 0.0 && delay >= 0.0 && latency >= 0.0 && 0.0 < short <= redisTTL
    ensures var c := Plain(localTTL, redisTTL, delay, latency);
            var asked := RedisAge(c) - short;
            var run := FetchedLate(c) + (ReadLate(c, asked) + ServedLate(c, asked));
            && Lawful(c.codec) && Empty(Start()) && CanRun(c, Start(), run)
            && var t := Run(c, Start(), run);
            && t.now == MaxAge(c) - short && Enabled(c, t, Begin(1, "k"))
            && Answer(c, t, Begin(1, "k")) == Some(Ok("before"))
            && forall b :: b > 0.0 ==> c.db(b)("k") != Ok("before")
  {
    var c := Plain(localTTL, redisTTL, delay, latency);
    var asked := RedisAge(c) - short;
    FetchLate(c);
    ReadRedisLate(c, asked);
    ServeLate(c, AfterReadLate(c, asked), asked);
    InParts(c, AfterFetchedLate(c), ReadLate(c, asked), ServedLate(c, asked));
    InParts(c, Start(), FetchedLate(c), ReadLate(c, asked) + ServedLate(c, asked));
  }

  // ---------- Without expiry ----------

  /** The write is lost, time passes, and the same proxy is asked again. */
  lemma LocalNeverExpires(c: Setup<string>, age: real)
    requires IsPlain(c) && c.localTTL <= 0.0 && age > c.latency
    ensures var run := [Lose(0)] + [Advance(age)];
            && CanRun(c, AfterFetchedLate(c), run)
            && var t := Run(c, AfterFetchedLate(c), run);
            t.now == age && Enabled(c, t, Begin(0, "k")) && Answer(c, t, Begin(0, "k")) == Some(Ok("before"))
  {
    var w := Apply(c, AfterFetchedLate(c), Lose(0));
    assert w.pending == [];
    OneStep(c, w, Advance(age));
    StepFirst(c, AfterFetchedLate(c), Lose(0), [Advance(age)]);
  }

  /** The write lands, time passes, and another proxy asks Redis. */
  lemma RedisNeverExpires(c: Setup<string>, age: real)
    requires IsPlain(c) && c.redisTTL <= 0.0 && age > c.latency
    ensures var run := ([Land(0)] + [Advance(age)]) + AskedBy1();
            && CanRun(c, AfterFetchedLate(c), run)
            && var t := Run(c, AfterFetchedLate(c), run);
            && t.now == age && Enabled(c, t, Keep(1))
            && KeyOf(c, t, Keep(1)) == "k" && Answer(c, t, Keep(1)) == Some(Ok("before"))
  {
    var w := Apply(c, AfterFetchedLate(c), Land(0));
    assert w.pending == [];
    OneStep(c, w, Advance(age));
    StepFirst(c, AfterFetchedLate(c), Land(0), [Advance(age)]);
    AskBy1(c, Apply(c, w, Advance(age)));
    InParts(c, AfterFetchedLate(c), [Land(0)] + [Advance(age)], AskedBy1());
  }

  /**
   An entry stored with a non-positive time to live, in either level, is served for ever: then the
   value returned can be older than any given age.
   */
  lemma NoBoundWithoutExpiry(localTTL: real, redisTTL: real, delay: real, latency: real, age: real)
    requires (localTTL <= 0.0 || redisTTL <= 0.0) && delay >= 0.0 && latency >= 0.0 && age > latency
    ensures var c := Plain(localTTL, redisTTL, delay, latency);
            && Empty(Start()) && (forall b :: b > 0.0 ==> c.db(b)("k") != Ok("before"))
            && exists run, l ::
                 && CanRun(c, Start(), run) && Run(c, Start(), run).now == age && Enabled(c, Run(c, Start(), run), l)
                 && KeyOf(c, Run(c, Start(), run), l) == "k"
                 && Answer(c, Run(c, Start(), run), l) == Some(Ok("before"))
  {
    var c := Plain(localTTL, redisTTL, delay, latency);
    FetchLate(c);
    if localTTL <= 0.0 {
      var rest := [Lose(0)] + [Advance(age)];
      LocalNeverExpires(c, age);
      InParts(c, Start(), FetchedLate(c), rest);
      assert KeyOf(c, Run(c, Start(), FetchedLate(c) + rest), Begin(0, "k")) == "k";
    } else {
      var rest := ([Land(0)] + [Advance(age)]) + AskedBy1();
      RedisNeverExpires(c, age);
      InParts(c, Start(), FetchedLate(c), rest);
      assert KeyOf(c, Run(c, Start(), FetchedLate(c) + rest), Keep(1)) == "k";
    }
  }

  // ---------- Answers that go back in time ----------

  /** Two calls of proxy 0; the one that fetched first is held up, so the other keeps its newer value first. */
  function Overtaken(latency: real): seq<Step> {
    ([Begin(0, "k")] + ([Begin(0, "k")] + ([AskRedis(0, true)] + ([AskRedis(1, true)] + [Fetch(0)]))))
      + ([Advance(latency)] + [Fetch(1)])
  }

  function BothFetched(c: Setup<string>): World {
    World(c.latency, [map[], map[]], map[], [],
          [Flight(0, "k", Fetched("before", 0.0)), Flight(0, "k", Fetched("after", c.latency))])
  }

  lemma OvertakenRun(c: Setup<string>)
    requires IsPlain(c) && c.latency > 0.0
    ensures CanRun(c, Start(), Overtaken(c.latency)) && Run(c, Start(), Overtaken(c.latency)) == BothFetched(c)
  {
    var w1 := Apply(c, Start(), Begin(0, "k"));
    var w2 := Apply(c, w1, Begin(0, "k"));
    assert w2.flights == [Flight(0, "k", Missed), Flight(0, "k", Missed)];
    var w3 := Apply(c, w2, AskRedis(0, true));
    var w4 := Apply(c, w3, AskRedis(1, true));
    OneStep(c, w4, Fetch(0));
    StepFirst(c, w3, AskRedis(1, true), [Fetch(0)]);
    StepFirst(c, w2, AskRedis(0, true), [AskRedis(1, true)] + [Fetch(0)]);
    StepFirst(c, w1, Begin(0, "k"), [AskRedis(0, true)] + ([AskRedis(1, true)] + [Fetch(0)]));
    var first := [Begin(0, "k")] + ([AskRedis(0, true)] + ([AskRedis(1, true)] + [Fetch(0)]));
    StepFirst(c, Start(), Begin(0, "k"), first);
    var w5 := Apply(c, w4, Fetch(0));
    assert w5.flights == [Flight(0, "k", Fetched("before", 0.0)), Flight(0, "k", Cold)];
    OvertakenEnd(c, w5);
    InParts(c, Start(), [Begin(0, "k")] + first, [Advance(c.latency)] + [Fetch(1)]);
  }

  lemma OvertakenEnd(c: Setup<string>, w: World)
    requires IsPlain(c) && c.latency > 0.0
    requires w == Start().(flights := [Flight(0, "k", Fetched("before", 0.0)), Flight(0, "k", Cold)])
    ensures CanRun(c, w, [Advance(c.latency)] + [Fetch(1)])
    ensures Run(c, w, [Advance(c.latency)] + [Fetch(1)]) == BothFetched(c)
  {
    var late := Apply(c, w, Advance(c.latency));
    OneStep(c, late, Fetch(1));
    assert Apply(c, late, Fetch(1)) == BothFetched(c);
    StepFirst(c, w, Advance(c.latency), [Fetch(1)]);
  }

  /**
   One call answers and keeps the newer value; the other then answers and keeps the older one, which
   the proxy serves from then on, although nothing has expired or been evicted.
   */
  lemma AnswersGoBack(localTTL: real, redisTTL: real, delay: real, latency: real)
    requires localTTL > 0.0 && delay >= 0.0 && latency > 0.0
    ensures var c := Plain(localTTL, redisTTL, delay, latency);
            && CanRun(c, Start(), Overtaken(latency))
            && var t := Run(c, Start(), Overtaken(latency));
            && Enabled(c, t, Keep(1)) && Answer(c, t, Keep(1)) == Some(Ok("after"))
            && var u := Apply(c, t, Keep(1));
            && Enabled(c, u, Keep(0)) && Answer(c, u, Keep(0)) == Some(Ok("before"))
            && var v := Apply(c, u, Keep(0));
            Enabled(c, v, Begin(0, "k")) && Answer(c, v, Begin(0, "k")) == Some(Ok("before"))
  {
    OvertakenRun(Plain(localTTL, redisTTL, delay, latency));
  }
}
