/**
 `internal/cache/two_level_cache.go`: a cache local to the process in front of a shared one. Stored
 values are serialised; the codec is a parameter of which only the round trip is used. The clock,
 whether Redis answers, and what the fetch function would return are parameters too.
 */
module TwoLevelCache {
  import opened Wrappers

  type Data = string

  datatype Error = FetchFailed(reason: string) | BadSerialisation

  datatype Codec<!V> = Codec(encode: V -> Option<Data>, decode: Data -> Option<V>)

  /** What was encoded decodes to itself. */
  ghost predicate Lawful<V(!new)>(codec: Codec<V>) {
    forall v :: codec.encode(v).Some? ==> codec.decode(codec.encode(v).value) == Some(v)
  }

  /** `expiry` is absent for an entry stored with a non-positive time to live: it never expires. */
  datatype Entry = Entry(data: Data, expiry: Option<real>)

  /** A `Set` sent to Redis on its own goroutine and not yet carried out. */
  datatype Write = Write(key: string, data: Data, issued: real)

  type Store = map<string, Entry>

  function Expiry(now: real, ttl: real): Option<real> {
    if ttl > 0.0 then Some(now + ttl) else None
  }

  /** The process cache still serves an entry at its expiry instant; Redis does not. */
  predicate LocalHit(local: Store, key: string, now: real) {
    key in local && (local[key].expiry.Some? ==> now <= local[key].expiry.value)
  }

  predicate RedisHit(redis: Store, key: string, now: real) {
    key in redis && (redis[key].expiry.Some? ==> now < redis[key].expiry.value)
  }

  datatype Outcome<V> = Outcome(answer: Result<V, Error>, local: Store, write: Option<Write>)

  /** One lookup: first level, second level, then the fetch. An entry that does not decode is passed over. */
  function Lookup<V>(codec: Codec<V>, localTTL: real, local: Store, redis: Store, redisUp: bool,
                     key: string, now: real, fetched: Result<V, Error>): Outcome<V>
  {
    if LocalHit(local, key, now) && codec.decode(local[key].data).Some? then
      Outcome(Ok(codec.decode(local[key].data).value), local, None)
    else if redisUp && RedisHit(redis, key, now) && codec.decode(redis[key].data).Some? then
      Outcome(Ok(codec.decode(redis[key].data).value),
              local[key := Entry(redis[key].data, Expiry(now, localTTL))], None)
    else
      match fetched
      case Err(e) => Outcome(Err(e), local, None)
      case Ok(v) =>
        match codec.encode(v)
        case None => Outcome(Err(BadSerialisation), local, None)
        case Some(data) =>
          Outcome(match codec.decode(data) case Some(u) => Ok(u) case None => Err(BadSerialisation),
                  local[key := Entry(data, Expiry(now, localTTL))],
                  Some(Write(key, data, now)))
  }

  /** What the shared store is after a write has been carried out. */
  function Landed(store: Store, m: Write, now: real, ttl: real): Store {
    store[m.key := Entry(m.data, Expiry(now, ttl))]
  }

  /** An entry stored at `now` serves for exactly its time to live, in the process cache to the very end. */
  lemma ServesForItsTime(data: Data, key: string, now: real, ttl: real, later: real)
    requires now <= later
    ensures LocalHit(map[key := Entry(data, Expiry(now, ttl))], key, later) <==> ttl <= 0.0 || later <= now + ttl
    ensures RedisHit(map[key := Entry(data, Expiry(now, ttl))], key, later) <==> ttl <= 0.0 || later < now + ttl
  {
  }

  /** A usable local entry decides alone; a usable entry in Redis decides when there is none. */
  lemma FirstUsableDecides<V>(codec: Codec<V>, localTTL: real, local: Store, redis: Store, redisUp: bool,
                              key: string, now: real, fetched: Result<V, Error>)
    ensures var o := Lookup(codec, localTTL, local, redis, redisUp, key, now, fetched);
            && (forall v :: LocalHit(local, key, now) && codec.decode(local[key].data) == Some(v) ==>
                  o == Outcome(Ok(v), local, None))
            && (forall v :: !LocalHit(local, key, now) && redisUp && RedisHit(redis, key, now)
                            && codec.decode(redis[key].data) == Some(v) ==>
                  o.answer == Ok(v) && o.write == None
                  && o.local.Keys == local.Keys + {key} && o.local[key].data == redis[key].data)
            && (forall k :: k in local && k != key ==> k in o.local && o.local[k] == local[k])
  {
  }

  /** An entry that has expired or does not decode is as good as none, in either level. */
  lemma UnusableIsAsGoodAsNone<V>(codec: Codec<V>, localTTL: real, local: Store, redis: Store, redisUp: bool,
                                  key: string, now: real, fetched: Result<V, Error>)
    ensures !(LocalHit(local, key, now) && codec.decode(local[key].data).Some?) ==>
              var o := Lookup(codec, localTTL, local, redis, redisUp, key, now, fetched);
              var p := Lookup(codec, localTTL, local - {key}, redis, redisUp, key, now, fetched);
              o.answer == p.answer && o.write == p.write && o.local - {key} == p.local - {key}
    ensures !redisUp || !(RedisHit(redis, key, now) && codec.decode(redis[key].data).Some?) ==>
              Lookup(codec, localTTL, local, redis, redisUp, key, now, fetched)
              == Lookup(codec, localTTL, local, map[], true, key, now, fetched)
  {
  }

  /** Without a usable entry the fetch decides; only what it brings, serialised, is kept and written. */
  lemma ElseTheFetchDecides<V>(codec: Codec<V>, localTTL: real, local: Store, key: string, now: real,
                               fetched: Result<V, Error>)
    requires key !in local
    ensures var o := Lookup(codec, localTTL, local, map[], true, key, now, fetched);
            && (fetched.Err? ==> o == Outcome(fetched, local, None))
            && (fetched.Ok? && codec.encode(fetched.value) == None ==>
                  o == Outcome(Err(BadSerialisation), local, None))
            && (fetched.Ok? && codec.encode(fetched.value).Some? ==>
                  var data := codec.encode(fetched.value).value;
                  && o.write == Some(Write(key, data, now))
                  && o.local == local[key := Entry(data, Expiry(now, localTTL))]
                  && (codec.decode(data) == Some(fetched.value) ==> o.answer == fetched))
  {
  }

  class RedisStore {
    var store: Store
    var pending: seq<Write>
    const ttl: real

    constructor (ttl: real)
      ensures this.ttl == ttl && store == map[] && pending == []
    {
      this.ttl := ttl;
      store, pending := map[], [];
    }

    /** One asynchronous write takes effect. */
    method Land(i: nat, now: real)
      requires i < |pending|
      modifies this
      ensures store == Landed(old(store), old(pending)[i], now, ttl)
      ensures pending == old(pending)[..i] + old(pending)[i + 1..]
    {
      store := store[pending[i].key := Entry(pending[i].data, Expiry(now, ttl))];
      pending := pending[..i] + pending[i + 1..];
    }
  }

  class Cache<V> {
    var local: Store
    const localTTL: real
    const redis: RedisStore
    const codec: Codec<V>

    constructor (localTTL: real, redis: RedisStore, codec: Codec<V>)
      ensures this.localTTL == localTTL && this.redis == redis && this.codec == codec && local == map[]
    {
      this.localTTL, this.redis, this.codec := localTTL, redis, codec;
      local := map[];
    }

    /** A fetch happens only when neither level has the key, and only then is Redis written to. */
    method GetOrFetch(key: string, now: real, redisUp: bool, fetched: Result<V, Error>)
      returns (answer: Result<V, Error>)
      modifies this`local, redis`pending
      ensures var o := Lookup(codec, localTTL, old(local), redis.store, redisUp, key, now, fetched);
              && answer == o.answer && local == o.local
              && redis.pending == old(redis.pending) + (if o.write.Some? then [o.write.value] else [])
    {
      if LocalHit(local, key, now) {
        var dest := codec.decode(local[key].data);
        if dest.Some? {
          return Ok(dest.value);
        }
      }
      if redisUp && RedisHit(redis.store, key, now) {
        var data := redis.store[key].data;
        var dest := codec.decode(data);
        if dest.Some? {
          local := local[key := Entry(data, Expiry(now, localTTL))];
          return Ok(dest.value);
        }
      }
      if fetched.Err? {
        return Err(fetched.error);
      }
      var serialized := codec.encode(fetched.value);
      if serialized == None {
        return Err(BadSerialisation);
      }
      local := local[key := Entry(serialized.value, Expiry(now, localTTL))];
      redis.pending := redis.pending + [Write(key, serialized.value, now)];
      var dest := codec.decode(serialized.value);
      answer := match dest case Some(u) => Ok(u) case None => Err(BadSerialisation);
    }

    /** When Redis fails, only the first level forgets the key. */
    method Evict(key: string, redisUp: bool) returns (failed: bool)
      modifies this`local, redis`store
      ensures failed == !redisUp && local == old(local) - {key}
      ensures redis.store == if failed then old(redis.store) else old(redis.store) - {key}
    {
      local := local - {key};
      if !redisUp {
        return true;
      }
      redis.store := redis.store - {key};
      failed := false;
    }
  }
}
