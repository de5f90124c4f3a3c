/** `CacheClient`: cache-aside reads over the shared store. A pass-through read caches an empty
    string as the "not in the database" sentinel; a logical-expiry read keeps the expiry inside
    a `RedisData` envelope and hands the rebuild to a separate step guarded by a set-if-absent lock. */
module CacheClient {
  import opened Wrappers
  import opened Text
  import opened RedisStore
  import opened RedisClient
  import opened RedisConstants

  /** Why a read ended in an exception instead of a value. */
  datatype Failure = MalformedEntry | RetriesExhausted

  /** What a cached read returns: the entity, Java `null`, or an exception. */
  datatype Lookup = Found(rec: Record) | NotFound | Failed(why: Failure)

  /** `JSONUtil.toBean(json, type)` on a non-blank cached string. */
  function Decode(d: Doc): Lookup
  {
    match d
    case Json(r) => Found(r)
    case _ => Failed(MalformedEntry)
  }

  /** `JSONUtil.toBean` of an envelope's `data`: a `null` payload reads back as `null`. */
  function Unwrap(data: Option<Record>): Lookup
  {
    match data
    case Some(r) => Found(r)
    case None => NotFound
  }

  /** The sentinel `JSONUtil.toJsonStr("")` written for an id the database does not have. */
  const NullSentinel: Doc := Raw("")

  /** The value and expiry of the mutex key taken by `tryLock`. */
  const LockValue: Doc := Raw("1")
  const LockTtl: Ttl := Seconds(10)

  // ------------------------------------------------------------------ writes

  /** `set(key, value, time, unit)`: the JSON of the value with a store-level expiry. */
  function Put(s: Store, key: string, value: Record, seconds: int): Store
  {
    RedisStore.Set(s, key, Json(value), Seconds(seconds))
  }

  /** `setWithLogicalExpire`: an envelope expiring `seconds` after `now`, with no store-level expiry. */
  function PutLogical(s: Store, key: string, value: Option<Record>, seconds: int, now: int): Store
  {
    RedisStore.Set(s, key, Envelope(now + seconds, value), Persistent)
  }

  /** `tryLock(key)`: set-if-absent of "1" for 10 seconds. */
  function TryLock(s: Store, lockKey: string): (r: (bool, Store))
    ensures r.0 <==> lockKey !in s.strings
    ensures r.0 ==> r.1.strings == s.strings[lockKey := Entry(LockValue, LockTtl)]
    ensures !r.0 ==> r.1 == s
  {
    SetIfAbsent(s, lockKey, LockValue, LockTtl)
  }

  /** `unlock(key)`: an unconditional delete. */
  function Unlock(s: Store, lockKey: string): (r: Store)
    ensures lockKey !in r.strings
    ensures forall k :: k != lockKey ==> (k in r.strings <==> k in s.strings)
  {
    Delete(s, lockKey)
  }

  method SetValue(redis: Redis, key: string, value: Record, seconds: int)
    modifies redis
    ensures redis.State() == Put(old(redis.State()), key, value, seconds)
  {
    redis.Set(key, Json(value), Seconds(seconds));
  }

  method SetWithLogicalExpire(redis: Redis, key: string, value: Option<Record>, seconds: int, now: int)
    modifies redis
    ensures redis.State() == PutLogical(old(redis.State()), key, value, seconds, now)
  {
    redis.Set(key, Envelope(now + seconds, value), Persistent);
  }

  method AcquireMutex(redis: Redis, lockKey: string) returns (won: bool)
    modifies redis
    ensures (won, redis.State()) == TryLock(old(redis.State()), lockKey)
  {
    won := redis.SetIfAbsent(lockKey, LockValue, LockTtl);
  }

  method ReleaseMutex(redis: Redis, lockKey: string)
    modifies redis
    ensures redis.State() == Unlock(old(redis.State()), lockKey)
  {
    redis.Delete(lockKey);
  }

  // ------------------------------------------------------------------ pass-through

  /** The result of a pass-through read, whether it called the loader, and the store after it. */
  datatype PassRead = PassRead(result: Lookup, loaded: bool, store: Store)

  /** `queryWithPassThrough`, with the loader `DBFallBack` as a lookup in `db`. */
  function PassThrough(s: Store, key: string, db: map<int, Record>, id: int, seconds: int): PassRead
  {
    match Get(s, key)
    case Some(d) =>
      if !Blank(d) then PassRead(Decode(d), false, s) else PassRead(NotFound, false, s)
    case None =>
      if id !in db then PassRead(NotFound, true, RedisStore.Set(s, key, NullSentinel, Seconds(Minutes(CACHE_NULL_TTL))))
      else PassRead(Found(db[id]), true, Put(s, key, db[id], seconds))
  }

  method QueryWithPassThrough(redis: Redis, keyPrefix: string, id: int, db: map<int, Record>, seconds: int)
    returns (result: Lookup, loaded: bool)
    modifies redis
    ensures PassRead(result, loaded, redis.State()) == PassThrough(old(redis.State()), keyPrefix + IntToString(id), db, id, seconds)
  {
    var key := keyPrefix + IntToString(id);
    var entityJson := redis.Get(key);
    if entityJson.Some? && !Blank(entityJson.value) {
      return Decode(entityJson.value), false;
    }
    if entityJson.Some? {
      return NotFound, false;
    }
    loaded := true;
    if id !in db {
      redis.Set(key, NullSentinel, Seconds(Minutes(CACHE_NULL_TTL)));
      return NotFound, loaded;
    }
    var entity := db[id];
    SetValue(redis, key, entity, seconds);
    result := Found(entity);
  }

  /** A non-blank cached value is returned deserialised; the loader is not called and nothing is written. */
  lemma PassThroughHit(s: Store, key: string, db: map<int, Record>, id: int, seconds: int)
    requires Get(s, key).Some? && !Blank(Get(s, key).value)
    ensures PassThrough(s, key, db, id, seconds) == PassRead(Decode(Get(s, key).value), false, s)
  {
  }

  /** A blank entry (the sentinel) answers `null` without calling the loader. */
  lemma PassThroughSentinel(s: Store, key: string, db: map<int, Record>, id: int, seconds: int)
    requires Get(s, key).Some? && Blank(Get(s, key).value)
    ensures PassThrough(s, key, db, id, seconds) == PassRead(NotFound, false, s)
  {
  }

  /** A miss the database cannot answer caches the sentinel for CACHE_NULL_TTL and returns `null`;
      the next read of the key then returns `null` without calling the loader again. */
  lemma PassThroughMissNull(s: Store, key: string, db: map<int, Record>, id: int, seconds: int)
    requires key !in s.strings && id !in db
    ensures var r := PassThrough(s, key, db, id, seconds);
      && r.result == NotFound && r.loaded
      && r.store == RedisStore.Set(s, key, Raw(""), Seconds(120))
      && PassThrough(r.store, key, db, id, seconds) == PassRead(NotFound, false, r.store)
  {
    assert IsBlank("");
  }

  /** A miss the database answers sets exactly that key to the value with the caller's expiry and
      returns it; the next read returns the same value from the cache. */
  lemma PassThroughMissLoaded(s: Store, key: string, db: map<int, Record>, id: int, seconds: int)
    requires key !in s.strings && id in db
    ensures var r := PassThrough(s, key, db, id, seconds);
      && r.result == Found(db[id]) && r.loaded
      && r.store.strings == s.strings[key := Entry(Json(db[id]), Seconds(seconds))]
      && r.store == s.(strings := r.store.strings)
      && PassThrough(r.store, key, db, id, seconds) == PassRead(Found(db[id]), false, r.store)
  {
  }

  // ------------------------------------------------------------------ logical expiry

  /** The result of a logical-expiry read, whether it submitted a rebuild, and the store after it. */
  datatype LogicalRead = LogicalRead(result: Lookup, rebuild: bool, store: Store)

  /** `queryWithLogicalExpire` up to the submission of the rebuild task. */
  function LogicalExpire(s: Store, key: string, lockKey: string, now: int): LogicalRead
  {
    match Get(s, key)
    case None => LogicalRead(NotFound, false, s)
    case Some(d) =>
      if Blank(d) then LogicalRead(NotFound, false, s)
      else match d
        case Envelope(expireTime, data) =>
          if expireTime > now then LogicalRead(Unwrap(data), false, s)
          else
            var (won, s1) := TryLock(s, lockKey);
            LogicalRead(Unwrap(data), won, s1)
        case _ => LogicalRead(Failed(MalformedEntry), false, s)
  }

  /** What the loader did inside the rebuild task. */
  datatype LoadOutcome = Loaded(data: Option<Record>) | LoaderThrew

  /** The rebuild task: write a fresh envelope (unless the loader threw), then always unlock. */
  function Rebuild(s: Store, key: string, lockKey: string, outcome: LoadOutcome, seconds: int, now: int): Store
  {
    match outcome
    case Loaded(data) => Unlock(PutLogical(s, key, data, seconds, now), lockKey)
    case LoaderThrew => Unlock(s, lockKey)
  }

  method QueryWithLogicalExpire(redis: Redis, keyPrefix: string, lockKeyPrefix: string, id: int, now: int)
    returns (result: Lookup, rebuild: bool)
    modifies redis
    ensures LogicalRead(result, rebuild, redis.State())
         == LogicalExpire(old(redis.State()), keyPrefix + IntToString(id), lockKeyPrefix + IntToString(id), now)
  {
    var key := keyPrefix + IntToString(id);
    var entityJson := redis.Get(key);
    if entityJson.None? || Blank(entityJson.value) {
      return NotFound, false;
    }
    if !entityJson.value.Envelope? {
      return Failed(MalformedEntry), false;
    }
    var entity := Unwrap(entityJson.value.data);
    var expireTime := entityJson.value.expireTime;
    if expireTime > now {
      return entity, false;
    }
    var lockKey := lockKeyPrefix + IntToString(id);
    rebuild := AcquireMutex(redis, lockKey);
    result := entity;
  }

  /** The job `queryWithLogicalExpire` submits when it wins the lock, run as a step of its own
      at time `now` with the loader's outcome as a parameter. */
  method RunRebuild(redis: Redis, keyPrefix: string, lockKeyPrefix: string, id: int, outcome: LoadOutcome, seconds: int, now: int)
    modifies redis
    ensures redis.State() == Rebuild(old(redis.State()), keyPrefix + IntToString(id), lockKeyPrefix + IntToString(id), outcome, seconds, now)
  {
    var key := keyPrefix + IntToString(id);
    var lockKey := lockKeyPrefix + IntToString(id);
    if outcome.Loaded? {
      SetWithLogicalExpire(redis, key, outcome.data, seconds, now);
    }
    ReleaseMutex(redis, lockKey);
  }

  /** An absent or blank key returns `null`, takes no lock and starts no rebuild. */
  lemma LogicalMiss(s: Store, key: string, lockKey: string, now: int)
    requires Get(s, key).None? || Blank(Get(s, key).value)
    ensures LogicalExpire(s, key, lockKey, now) == LogicalRead(NotFound, false, s)
  {
  }

  /** An envelope whose expiry is strictly after `now` is returned as is, with no lock attempt. */
  lemma LogicalFresh(s: Store, key: string, lockKey: string, now: int, expireTime: int, data: Option<Record>)
    requires Get(s, key) == Some(Envelope(expireTime, data)) && expireTime > now
    ensures LogicalExpire(s, key, lockKey, now) == LogicalRead(Unwrap(data), false, s)
  {
  }

  /** An expired envelope always returns its stale value; a rebuild is submitted exactly when the
      lock key was absent, and then the lock key holds "1" for 10 seconds. */
  lemma LogicalStale(s: Store, key: string, lockKey: string, now: int, expireTime: int, data: Option<Record>)
    requires Get(s, key) == Some(Envelope(expireTime, data)) && expireTime <= now
    ensures var r := LogicalExpire(s, key, lockKey, now);
      && r.result == Unwrap(data)
      && (r.rebuild <==> lockKey !in s.strings)
      && r.store == if r.rebuild then RedisStore.Set(s, lockKey, Raw("1"), Seconds(10)) else s
  {
  }

  /** While the lock taken by one stale read is held, any later stale read of the key also returns
      the stale value and submits no second rebuild. */
  lemma LogicalSingleRebuild(s: Store, key: string, lockKey: string, now: int, later: int, expireTime: int, data: Option<Record>)
    requires key != lockKey
    requires Get(s, key) == Some(Envelope(expireTime, data)) && expireTime <= now <= later
    requires LogicalExpire(s, key, lockKey, now).rebuild
    ensures var s1 := LogicalExpire(s, key, lockKey, now).store;
      LogicalExpire(s1, key, lockKey, later) == LogicalRead(Unwrap(data), false, s1)
  {
  }

  /** The rebuild writes an envelope expiring `seconds` after `now` with no store-level expiry and
      then removes the lock; if the loader throws, the entry is untouched and the lock still goes. */
  lemma RebuildEffect(s: Store, key: string, lockKey: string, outcome: LoadOutcome, seconds: int, now: int)
    requires key != lockKey
    ensures var s1 := Rebuild(s, key, lockKey, outcome, seconds, now);
      && lockKey !in s1.strings
      && (outcome.Loaded? ==> Get(s1, key) == Some(Envelope(now + seconds, outcome.data)) && s1.strings[key].ttl == Persistent)
      && (outcome.LoaderThrew? ==> Get(s1, key) == Get(s, key))
  {
  }

  /** After a rebuild at `now`, a read strictly before the new expiry is fresh again and returns the loaded data. */
  lemma RebuildThenFresh(s: Store, key: string, lockKey: string, data: Option<Record>, seconds: int, now: int, later: int)
    requires key != lockKey && now <= later < now + seconds
    ensures var s1 := Rebuild(s, key, lockKey, Loaded(data), seconds, now);
      LogicalExpire(s1, key, lockKey, later) == LogicalRead(Unwrap(data), false, s1)
  {
  }
}
