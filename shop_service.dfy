/** `ShopServiceImpl`: the shop lookup through the pass-through cache, the write-then-evict update,
    and the service's own copies of the cache strategies (pass-through, mutex rebuild with retry,
    logical expiry with a 30-second rebuild). */
module ShopService {
  import opened Wrappers
  import opened Text
  import opened RedisStore
  import opened RedisClient
  import opened RedisConstants
  import opened Database
  import opened CacheClient

  /** What a controller receives: `Result.ok(...)`, `Result.fail(message)`, or an exception. */
  datatype Reply = Succeeded(shop: Option<Record>) | Refused(message: string) | Threw(why: Failure)

  function ShopKey(id: int): string
  {
    CACHE_SHOP_KEY + IntToString(id)
  }

  function ShopLockKey(id: int): string
  {
    LOCK_SHOP_KEY + IntToString(id)
  }

  /** The cache entry and the mutex of one shop never share a key. */
  lemma KeysDistinct(id: int, other: int)
    ensures ShopKey(id) != ShopLockKey(other)
  {
    assert ShopKey(id)[0] == 'c' && ShopLockKey(other)[0] == 'l';
  }

  const ShopSeconds := Minutes(CACHE_SHOP_TTL)

  // ------------------------------------------------------------------ queryById and update

  /** `queryById`: the pass-through read; `null` becomes a failure, an exception passes through. */
  function QueryById(s: Store, shops: map<int, Record>, id: int): (Reply, Store)
  {
    var r := PassThrough(s, ShopKey(id), shops, id, ShopSeconds);
    (match r.result
     case Found(shop) => Succeeded(Some(shop))
     case NotFound => Refused("shop does not exist")
     case Failed(why) => Threw(why), r.store)
  }

  method QueryByIdAt(redis: Redis, db: Db, id: int) returns (reply: Reply)
    modifies redis
    ensures (reply, redis.State()) == QueryById(old(redis.State()), db.shops, id)
  {
    var shop, _ := CacheClient.QueryWithPassThrough(redis, CACHE_SHOP_KEY, id, db.shops, ShopSeconds);
    reply := match shop
      case Found(r) => Succeeded(Some(r))
      case NotFound => Refused("shop does not exist")
      case Failed(why) => Threw(why);
  }

  /** `queryById` fails exactly when the pass-through read yields `null`, and answers the cached or
      loaded shop otherwise. */
  lemma QueryByIdFailsIffNull(s: Store, shops: map<int, Record>, id: int)
    ensures var p := PassThrough(s, ShopKey(id), shops, id, ShopSeconds);
      && (QueryById(s, shops, id).0.Refused? <==> p.result == NotFound)
      && (QueryById(s, shops, id).0.Succeeded? <==> p.result.Found?)
      && QueryById(s, shops, id).1 == p.store
  {
  }

  /** `update(shop)`: a shop without an id fails; otherwise `updateById`, then evict the cache entry.
      The result is the reply, the shop table and the store. */
  function Update(s: Store, shops: map<int, Record>, id: Option<int>, body: string): (Reply, map<int, Record>, Store)
  {
    match id
    case None => (Refused("shop id must not be empty"), shops, s)
    case Some(i) =>
      var shop := Record(i, body);
      (Succeeded(None), if i in shops then shops[i := shop] else shops, RedisStore.Delete(s, ShopKey(i)))
  }

  method UpdateShop(redis: Redis, db: Db, id: Option<int>, body: string) returns (reply: Reply)
    modifies redis, db`shops
    ensures (reply, db.shops, redis.State()) == Update(old(redis.State()), old(db.shops), id, body)
  {
    if id.None? {
      return Refused("shop id must not be empty");
    }
    db.UpdateShop(Record(id.value, body));
    redis.Delete(ShopKey(id.value));
    reply := Succeeded(None);
  }

  /** A shop without an id changes neither the database nor the cache. */
  lemma UpdateWithoutId(s: Store, shops: map<int, Record>, body: string)
    ensures Update(s, shops, None, body) == (Refused("shop id must not be empty"), shops, s)
  {
  }

  /** After an update of an existing shop, the next pass-through read misses, loads the new row and
      caches it for CACHE_SHOP_TTL. */
  lemma {:induction false} UpdateThenReload(s: Store, shops: map<int, Record>, i: int, body: string)
    requires i in shops
    ensures var (_, shops1, s1) := Update(s, shops, Some(i), body);
      var r := PassThrough(s1, ShopKey(i), shops1, i, ShopSeconds);
      && r.loaded && r.result == Found(Record(i, body))
      && Get(r.store, ShopKey(i)) == Some(Json(Record(i, body)))
  {
    var (_, shops1, s1) := Update(s, shops, Some(i), body);
    assert ShopKey(i) !in s1.strings;
    assert shops1[i] == Record(i, body);
  }

  // ------------------------------------------------------------------ pass-through

  /** The service's private `queryWithPassThrough` is the cache client's read of `cache:shop:<id>`. */
  method QueryWithPassThrough(redis: Redis, db: Db, id: int) returns (shop: Lookup)
    modifies redis
    ensures var r := PassThrough(old(redis.State()), ShopKey(id), db.shops, id, ShopSeconds);
      shop == r.result && redis.State() == r.store
  {
    var key := ShopKey(id);
    var shopJson := redis.Get(key);
    if shopJson.Some? && !Blank(shopJson.value) {
      return Decode(shopJson.value);
    }
    if shopJson.Some? {
      return NotFound;
    }
    if id !in db.shops {
      redis.Set(key, NullSentinel, Seconds(Minutes(CACHE_NULL_TTL)));
      return NotFound;
    }
    redis.Set(key, Json(db.shops[id]), Seconds(ShopSeconds));
    shop := Found(db.shops[id]);
  }

  // ------------------------------------------------------------------ mutex

  /** `queryWithMutex`. A retry after losing the lock sees the store other clients have left after
      the back-off; `later` lists those stores, one per retry, and when it runs out the recursion
      ends in an exception (the stack overflow of endless retries). Every level that got past the
      cache check deletes the lock in `finally`, whether it took the lock or not. */
  function Mutex(s: Store, shops: map<int, Record>, id: int, later: seq<Store>): PassRead
    decreases |later|
  {
    var key := ShopKey(id);
    var lockKey := ShopLockKey(id);
    match Get(s, key)
    case Some(d) =>
      PassRead(if !Blank(d) then Decode(d) else NotFound, false, s)
    case None =>
      var (isLock, s1) := TryLock(s, lockKey);
      if !isLock then
        if later == [] then PassRead(Failed(RetriesExhausted), false, Unlock(s1, lockKey))
        else
          var r := Mutex(later[0], shops, id, later[1..]);
          PassRead(r.result, r.loaded, Unlock(r.store, lockKey))
      else if id !in shops then
        PassRead(NotFound, true, Unlock(RedisStore.Set(s1, key, NullSentinel, Seconds(Minutes(CACHE_NULL_TTL))), lockKey))
      else
        PassRead(Found(shops[id]), true, Unlock(Put(s1, key, shops[id], ShopSeconds), lockKey))
  }

  /** `Thread.sleep(50)`: meanwhile the other clients' commands leave the store as `st`. */
  method Sleep(redis: Redis, st: Store)
    modifies redis
    ensures redis.State() == st
  {
    redis.strings, redis.counters, redis.sets := st.strings, st.counters, st.sets;
    redis.zsets, redis.bitmaps, redis.lists := st.zsets, st.bitmaps, st.lists;
  }

  method QueryWithMutex(redis: Redis, db: Db, id: int, later: seq<Store>) returns (shop: Lookup, loaded: bool)
    modifies redis
    ensures PassRead(shop, loaded, redis.State()) == Mutex(old(redis.State()), db.shops, id, later)
    decreases |later|
  {
    var key := ShopKey(id);
    var shopJson := redis.Get(key);
    if shopJson.Some? && !Blank(shopJson.value) {
      return Decode(shopJson.value), false;
    }
    if shopJson.Some? {
      return NotFound, false;
    }
    var lockKey := ShopLockKey(id);
    var isLock := AcquireMutex(redis, lockKey);
    if !isLock {
      if later == [] {
        ReleaseMutex(redis, lockKey);
        return Failed(RetriesExhausted), false;
      }
      Sleep(redis, later[0]);
      shop, loaded := QueryWithMutex(redis, db, id, later[1..]);
      ReleaseMutex(redis, lockKey);
      return;
    }
    loaded := true;
    if id !in db.shops {
      redis.Set(key, NullSentinel, Seconds(Minutes(CACHE_NULL_TTL)));
      ReleaseMutex(redis, lockKey);
      return NotFound, loaded;
    }
    shop := Found(db.shops[id]);
    SetValue(redis, key, db.shops[id], ShopSeconds);
    ReleaseMutex(redis, lockKey);
  }

  /** A cached entry is answered exactly as by the pass-through read, with no lock taken. */
  lemma MutexHit(s: Store, shops: map<int, Record>, id: int, later: seq<Store>)
    requires Get(s, ShopKey(id)).Some?
    ensures Mutex(s, shops, id, later) == PassThrough(s, ShopKey(id), shops, id, ShopSeconds)
  {
  }

  /** A miss that wins the lock loads once and caches the shop for CACHE_SHOP_TTL or the sentinel for
      CACHE_NULL_TTL, as the pass-through read would, and leaves the lock released. */
  lemma MutexMissWithLock(s: Store, shops: map<int, Record>, id: int, later: seq<Store>)
    requires ShopKey(id) !in s.strings && ShopLockKey(id) !in s.strings
    ensures var r := Mutex(s, shops, id, later);
      var p := PassThrough(s, ShopKey(id), shops, id, ShopSeconds);
      && r.loaded && r.result == p.result
      && ShopLockKey(id) !in r.store.strings
      && Get(r.store, ShopKey(id)) == Get(p.store, ShopKey(id))
      && r.store.strings[ShopKey(id)].ttl == Seconds(if id in shops then ShopSeconds else Minutes(CACHE_NULL_TTL))
  {
    KeysDistinct(id, id);
  }

  /** On a miss the lock key is gone at the end on every path, including retries that never held it. */
  lemma {:induction false} MutexReleasesLock(s: Store, shops: map<int, Record>, id: int, later: seq<Store>)
    requires ShopKey(id) !in s.strings
    ensures ShopLockKey(id) !in Mutex(s, shops, id, later).store.strings
    decreases |later|
  {
    var lockKey := ShopLockKey(id);
    var s1 := TryLock(s, lockKey).1;
    if lockKey in s.strings && later != [] {
      var r := Mutex(later[0], shops, id, later[1..]);
      assert Mutex(s, shops, id, later).store == Unlock(r.store, lockKey);
    }
  }

  /** A retry that finds the lock still held and has no back-off left throws; the lock key, which
      another client held, is deleted anyway, and nothing else changes. */
  lemma MutexExhausted(s: Store, shops: map<int, Record>, id: int)
    requires ShopKey(id) !in s.strings && ShopLockKey(id) in s.strings
    ensures Mutex(s, shops, id, []) == PassRead(Failed(RetriesExhausted), false, RedisStore.Delete(s, ShopLockKey(id)))
  {
  }

  /** A call loads from the database only when the cache held nothing for the shop, and a call
      that runs out of retries never loads. */
  lemma {:induction false} MutexLoadsOnlyOnMiss(s: Store, shops: map<int, Record>, id: int, later: seq<Store>)
    ensures Mutex(s, shops, id, later).loaded ==> ShopKey(id) !in s.strings
    ensures Mutex(s, shops, id, later).result.Failed? && Mutex(s, shops, id, later).result.why == RetriesExhausted
            ==> !Mutex(s, shops, id, later).loaded
    decreases |later|
  {
    if ShopKey(id) !in s.strings && ShopLockKey(id) in s.strings && later != [] {
      MutexLoadsOnlyOnMiss(later[0], shops, id, later[1..]);
    }
  }

  // ------------------------------------------------------------------ logical expiry

  /** The service's `queryWithLogicalExpire` is the cache client's, on `cache:shop:` and `lock:shop:`. */
  method QueryWithLogicalExpire(redis: Redis, id: int, now: int) returns (shop: Lookup, rebuild: bool)
    modifies redis
    ensures LogicalRead(shop, rebuild, redis.State()) == LogicalExpire(old(redis.State()), ShopKey(id), ShopLockKey(id), now)
  {
    var key := ShopKey(id);
    var shopJson := redis.Get(key);
    if shopJson.None? || Blank(shopJson.value) {
      return NotFound, false;
    }
    if !shopJson.value.Envelope? {
      return Failed(MalformedEntry), false;
    }
    shop := Unwrap(shopJson.value.data);
    if shopJson.value.expireTime > now {
      return shop, false;
    }
    var lockKey := ShopLockKey(id);
    rebuild := AcquireMutex(redis, lockKey);
  }

  /** `saveShopToRedis(id, expireSeconds)`: the row, or `null`, in an envelope expiring
      `expireSeconds` after `now`, with no store-level expiry. */
  function SaveShop(s: Store, shops: map<int, Record>, id: int, expireSeconds: int, now: int): Store
  {
    PutLogical(s, ShopKey(id), if id in shops then Some(shops[id]) else None, expireSeconds, now)
  }

  method SaveShopToRedis(redis: Redis, db: Db, id: int, expireSeconds: int, now: int)
    modifies redis
    ensures redis.State() == SaveShop(old(redis.State()), db.shops, id, expireSeconds, now)
  {
    var shop := if id in db.shops then Some(db.shops[id]) else None;
    SetWithLogicalExpire(redis, ShopKey(id), shop, expireSeconds, now);
  }

  /** The submitted task: `saveShopToRedis(id, 30)`, then unlock in `finally`. */
  method RunShopRebuild(redis: Redis, db: Db, id: int, now: int)
    modifies redis
    ensures redis.State() == Unlock(SaveShop(old(redis.State()), db.shops, id, 30, now), ShopLockKey(id))
  {
    SaveShopToRedis(redis, db, id, 30, now);
    ReleaseMutex(redis, ShopLockKey(id));
  }

  /** The saved envelope expires exactly `expireSeconds` after `now`, has no store-level TTL, holds the
      row, and no other key changes. */
  lemma SaveShopEnvelope(s: Store, shops: map<int, Record>, id: int, expireSeconds: int, now: int)
    ensures var s1 := SaveShop(s, shops, id, expireSeconds, now);
      && s1.strings[ShopKey(id)] == Entry(Envelope(now + expireSeconds, if id in shops then Some(shops[id]) else None), Persistent)
      && (forall k :: k != ShopKey(id) && k in s.strings ==> k in s1.strings && s1.strings[k] == s.strings[k])
      && s1.counters == s.counters && s1.sets == s.sets
  {
  }

  /** Fresh or stale, a cached envelope is returned; a rebuild is submitted only when the lock was won,
      and after it the entry is fresh for 30 seconds and the lock is gone. */
  lemma LogicalShopRead(s: Store, shops: map<int, Record>, id: int, now: int, expireTime: int, data: Option<Record>)
    requires Get(s, ShopKey(id)) == Some(Envelope(expireTime, data))
    ensures var r := LogicalExpire(s, ShopKey(id), ShopLockKey(id), now);
      && r.result == Unwrap(data)
      && (r.rebuild <==> expireTime <= now && ShopLockKey(id) !in s.strings)
      && (r.rebuild ==>
            var s2 := Unlock(SaveShop(r.store, shops, id, 30, now), ShopLockKey(id));
            && ShopLockKey(id) !in s2.strings
            && LogicalExpire(s2, ShopKey(id), ShopLockKey(id), now).rebuild == false)
  {
    KeysDistinct(id, id);
    if expireTime <= now {
      LogicalStale(s, ShopKey(id), ShopLockKey(id), now, expireTime, data);
    }
  }
}
