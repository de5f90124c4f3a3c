# hm-dianping core, modelled in Dafny

hm-dianping is a local-reviews back end: shops, vouchers, blogs, follows and users, stored in a
relational database and cached in Redis. This project models the core decision logic of that
back end, sequential and branch by branch, and proves properties of the model. The source is Java
(Spring Boot, MyBatis-Plus, Spring Data Redis, Redisson).

The modelled core:

- **`CacheClient`**: cache-aside reads.
  - A pass-through read caches an empty-string "not found" sentinel.
  - A logical-expiry read wraps the value in a `RedisData` envelope with an `expireTime` and
    rebuilds it behind a set-if-absent mutex.
- **`SimpleRedisLock`**: owner-token lock. Acquire is set-if-absent of `uuid-threadId`. Release
  deletes the key only when it still holds the caller's token.
- **`RedisIdWorker`**: the id is `(now - 1693526400) << 32 | count`, where `count` is a per-day
  `INCR` counter.
- **`VoucherOrderServiceImpl`**:
  - the conditional `stock > 0` decrement and the order insert;
  - the per-user Redisson lock around them;
  - `seckillVoucher`, which only returns a fresh id.
- **`ShopServiceImpl`**:
  - `queryById` through the pass-through cache;
  - write-then-evict `update`;
  - the service's own pass-through, mutex-with-retry and logical-expiry reads;
  - `saveShopToRedis`.
- **`UserServiceImpl`**:
  - the phone and verification-code gate of `sendCode` and `login`;
  - the monthly sign-in bitmap (`sign`) and the streak read from it (`signCount`).
- **`BlogServiceImpl`**:
  - the like toggle;
  - the top-five likers;
  - the fan-out of a new blog into its followers' feeds;
  - the scroll cursor over a feed page.
- **`FollowServiceImpl`**: follow and unfollow mirrored into a Redis set, `followOrNot`, and the
  common-follows intersection.
- **`ShopTypeServiceImpl`**: the shop-type list cache.

Layout:

- `store.dfy` (`RedisStore`): the Redis keyspace as a value. It holds strings with TTLs,
  counters, sets, sorted sets in rank order, bitmaps and lists, with one pure function per
  command. `sorted_set.dfy` proves that the rank order is kept and how `ZSCORE` answers after
  `ZADD`/`ZREM`.
- `redis.dfy` (`RedisClient.Redis`): the shared `StringRedisTemplate`. It is a class with one map
  field per kind of value, and each command method ends in exactly the state the pure function
  gives.
- `database.dfy`: the tables as fields of class `Db`, one method per MyBatis call, plus class
  `Redisson`, which holds the set of held lock names.
- Text, clock and constants:
  - `text.dfy`: decimal rendering of ids, proved injective, so numbered keys never collide.
  - `clock.dfy`: calendar dates, epoch seconds, and the `yyyy:MM:dd` and `yyyy/MM` stamps.
  - `constants.dfy`: the `RedisConstants` values.
- One module per source class. Each service method calls the Redis and table methods in the
  source's order and is tied to a pure function of the old state. The properties are lemmas about
  those functions.

JSON is abstract:

- A cached string is `Json(record)`, `Envelope(expireTime, data)` or `Raw(text)`.
- Serialising is the constructor, and deserialising is a match.
- A cached string the read cannot use ends the read in `Failed(MalformedEntry)`, which stands for an exception.
  - Text that is not JSON makes hutool throw.
  - A plain record read as an envelope leaves `expireTime` null, so the following `isAfter` throws.
  - An envelope read as a plain record is the one case that does not throw in the source (see "## Left out").
- Entities (shop, shop type) are `Record(id, body)`.

Parameters stand in for external inputs:

- the clock (`now`, as a `DateTime` or in epoch seconds, and `nowMillis`);
- the random UUID and verification code;
- the logged-in user's id (`Option<int>`; `None` is a null id);
- `RegexUtils.isPhoneInvalid` (`phoneInvalid`);
- whether an insert throws or reports success (`insertFails`, `saved`, `saveOk`);
- what the loader did inside a rebuild task (`LoadOutcome`).

Several behaviours differ from what a reader might expect of a flash-sale back end. The model follows the code in each case:

- The atomic admission script (stock and one-order-per-user check in Redis) is commented out.
  `seckillVoucher` therefore returns an id for every request.
- The database side does not re-check uniqueness: `createVoucherOrder` only logs a duplicate or a
  failed decrement, then inserts anyway (`SecondOrderOfUserStored`).
- The release of `SimpleRedisLock` is a separate get and delete, not one atomic step.
- The owner token is fixed per thread (`uuid-threadId`), not fresh per acquisition.

## Model

| member | source | states |
|---|---|---|
| CacheClient.SetValue | src/main/java/com/hmdp/utils/CacheClient.java:41-43 | the key holds the value's JSON with the caller's store-level expiry |
| CacheClient.SetWithLogicalExpire | src/main/java/com/hmdp/utils/CacheClient.java:53-58 | the key holds an envelope expiring `seconds` after `now`, with no store-level expiry |
| CacheClient.TryLock | src/main/java/com/hmdp/utils/CacheClient.java:149-154 | the lock is won iff the key was absent; a win stores "1" for 10 s; a loss changes nothing (the identical private `tryLock` at ShopServiceImpl.java:210-215 is modelled by this member too) |
| CacheClient.Unlock | src/main/java/com/hmdp/utils/CacheClient.java:161-163 | the lock key is gone and no other key appears or disappears (the identical private `unlock` at ShopServiceImpl.java:222-224 is modelled by this member too) |
| CacheClient.AcquireMutex | src/main/java/com/hmdp/utils/CacheClient.java:149-154 | the set-if-absent on the shared store gives the result and state of `TryLock` |
| CacheClient.ReleaseMutex | src/main/java/com/hmdp/utils/CacheClient.java:161-163 | the delete on the shared store gives the state of `Unlock` |
| CacheClient.QueryWithPassThrough | src/main/java/com/hmdp/utils/CacheClient.java:68-89 | the returned value, whether the loader ran, and the new store are those of the pass-through read |
| CacheClient.PassThroughHit | src/main/java/com/hmdp/utils/CacheClient.java:72-76 | a non-blank entry is returned deserialised; no load, no write |
| CacheClient.PassThroughSentinel | src/main/java/com/hmdp/utils/CacheClient.java:78 | a blank entry returns null without loading or writing |
| CacheClient.PassThroughMissNull | src/main/java/com/hmdp/utils/CacheClient.java:80-85 | a miss the loader cannot answer writes "" for CACHE_NULL_TTL (120 s) and returns null; the next read returns null without loading |
| CacheClient.PassThroughMissLoaded | src/main/java/com/hmdp/utils/CacheClient.java:80-88 | a loaded miss sets exactly that key to the value with the caller's TTL and returns it; the next read hits |
| CacheClient.QueryWithLogicalExpire | src/main/java/com/hmdp/utils/CacheClient.java:102-141 | the result, the rebuild decision and the new store are those of the logical-expiry read |
| CacheClient.RunRebuild | src/main/java/com/hmdp/utils/CacheClient.java:126-137 | the rebuild task writes the loaded envelope unless the loader threw, then deletes the lock |
| CacheClient.LogicalMiss | src/main/java/com/hmdp/utils/CacheClient.java:106-108 | an absent or blank key returns null and touches neither the lock nor the loader |
| CacheClient.LogicalFresh | src/main/java/com/hmdp/utils/CacheClient.java:113-118 | an envelope with `expireTime` strictly after now is returned with no lock attempt |
| CacheClient.LogicalStale | src/main/java/com/hmdp/utils/CacheClient.java:120-140 | an expired envelope returns its stale value; a rebuild starts iff the lock key was absent, and the lock then holds "1" for 10 s |
| CacheClient.LogicalSingleRebuild | src/main/java/com/hmdp/utils/CacheClient.java:121-138 | while one rebuild's lock is held, a later stale read returns stale data and starts no second rebuild |
| CacheClient.RebuildEffect | src/main/java/com/hmdp/utils/CacheClient.java:126-137 | the rebuild writes `expireTime = now + seconds` with no store TTL and removes the lock even if the loader throws |
| CacheClient.RebuildThenFresh | src/main/java/com/hmdp/utils/CacheClient.java:113-137 | after a rebuild, reads before the new expiry are fresh and return the loaded data |
| SimpleRedisLock.Lock.constructor | src/main/java/com/hmdp/utils/SimpleRedisLock.java:15-18 | the lock keeps its name, its store and the process's UUID |
| SimpleRedisLock.Lock.TryLock | src/main/java/com/hmdp/utils/SimpleRedisLock.java:29-38 | set-if-absent of `uuid-threadId` under `lock:name` for `timeOutSec` seconds |
| SimpleRedisLock.Lock.UnLock | src/main/java/com/hmdp/utils/SimpleRedisLock.java:44-52 | the store after `unLock` is the compare-then-delete `Release` |
| SimpleRedisLock.AcquireWhenFree | src/main/java/com/hmdp/utils/SimpleRedisLock.java:31-37 | acquire returns true iff the key was absent, and the key then holds the caller's token with the given TTL |
| SimpleRedisLock.AcquireWhenHeld | src/main/java/com/hmdp/utils/SimpleRedisLock.java:34-37 | acquiring a held key returns false and leaves the store unchanged |
| SimpleRedisLock.ReleaseOnlyByOwner | src/main/java/com/hmdp/utils/SimpleRedisLock.java:45-51 | release removes the key iff it holds the caller's token |
| SimpleRedisLock.StaleOwnerRelease | src/main/java/com/hmdp/utils/SimpleRedisLock.java:47-50 | after expiry and re-acquisition by another token, the old owner's release leaves the new holder's entry |
| SimpleRedisLock.AcquireThenRelease | src/main/java/com/hmdp/utils/SimpleRedisLock.java:31-50 | acquire then release by the same thread restores the store exactly |
| SimpleRedisLock.TokensDistinct | src/main/java/com/hmdp/utils/SimpleRedisLock.java:21-31 | different threads of one process have different tokens |
| SimpleRedisLock.NamesIndependent | src/main/java/com/hmdp/utils/SimpleRedisLock.java:20-46 | different names use different keys; acquiring or releasing one never changes the other's entry |
| RedisIdWorker.OrShifted | src/main/java/com/hmdp/utils/RedisIdWorker.java:41 | OR of a value shifted left by k with a number below 2^k is their sum |
| RedisIdWorker.ComposeIdPacks | src/main/java/com/hmdp/utils/RedisIdWorker.java:31-41 | for 0 ≤ timeStamp < 2^31 and 0 ≤ count < 2^32: id = timeStamp·2^32 + count, id >> 32 = timeStamp, and the low 32 bits = count |
| RedisIdWorker.ComposeIdMonotonic | src/main/java/com/hmdp/utils/RedisIdWorker.java:41 | ids order by time stamp first and count second |
| RedisIdWorker.NextIdAt | src/main/java/com/hmdp/utils/RedisIdWorker.java:28-42 | the id and the store are those of `NextId` at that clock reading |
| RedisIdWorker.NextIdIncrementsOneCounter | src/main/java/com/hmdp/utils/RedisIdWorker.java:36-38 | a call adds 1 to the `"icr"+prefix+yyyy:MM:dd` counter and changes nothing else |
| RedisIdWorker.CounterKeyInjective | src/main/java/com/hmdp/utils/RedisIdWorker.java:36-38 | two counter keys coincide iff they have the same prefix and the same year, month and day |
| RedisIdWorker.OtherDayCounterUntouched | src/main/java/com/hmdp/utils/RedisIdWorker.java:36-38 | a call for another prefix or on another date leaves this day's counter, and whether it exists, as it was |
| RedisIdWorker.FirstIdOfDay | src/main/java/com/hmdp/utils/RedisIdWorker.java:36-41 | from a keyspace with no counters, after any calls for other prefixes or on other dates, the first call of the day for a prefix uses count 1 |
| RedisIdWorker.SuccessiveIdsIncrease | src/main/java/com/hmdp/utils/RedisIdWorker.java:31-41 | two successive calls for one prefix on one day give strictly increasing ids |
| Clock.DayStampInjective | src/main/java/com/hmdp/utils/RedisIdWorker.java:36 | two valid dates have the same `yyyy:MM:dd` stamp iff they have the same year, month and day |
| Clock.MonthStampInjective | src/main/java/com/hmdp/service/impl/UserServiceImpl.java:108 | two valid dates have the same `yyyy/MM` stamp iff they have the same year and month |
| Text.PadInjective | src/main/java/com/hmdp/utils/RedisIdWorker.java:36 | zero padding to a width the numbers fit: equal padded renderings only for equal numbers |
| Database.Db.UpdateStock | src/main/java/com/hmdp/service/impl/VoucherOrderServiceImpl.java:213-216 | the conditional `stock = stock - 1 where stock > 0` and whether a row changed |
| Database.Db.SaveOrder | src/main/java/com/hmdp/service/impl/VoucherOrderServiceImpl.java:221 | the order is appended to the order table |
| Database.Redisson.TryLock | src/main/java/com/hmdp/service/impl/VoucherOrderServiceImpl.java:157-158 | `tryLock()` succeeds iff the name was not held; the name is then held |
| Database.Redisson.Unlock | src/main/java/com/hmdp/service/impl/VoucherOrderServiceImpl.java:167 | the name is no longer held |
| VoucherOrderService.CreateVoucherOrder | src/main/java/com/hmdp/service/impl/VoucherOrderServiceImpl.java:204-222 | the tables after the conditional decrement and the insert; an insert that throws rolls the transaction back |
| VoucherOrderService.HandleVoucherOrder | src/main/java/com/hmdp/service/impl/VoucherOrderServiceImpl.java:155-169 | with the service's proxy in place: busy if the user's lock is held, otherwise create; the held locks end as they began |
| VoucherOrderService.HandleVoucherOrderAsWritten | src/main/java/com/hmdp/service/impl/VoucherOrderServiceImpl.java:155-172 | with `proxy` null: the call throws under the lock, the lock is released, no table changes |
| VoucherOrderService.SeckillVoucher | src/main/java/com/hmdp/service/impl/VoucherOrderServiceImpl.java:180-196 | the reply is the fresh `nextId("order")`; only the store changes, and no table |
| VoucherOrderService.DecrementStockExact | src/main/java/com/hmdp/service/impl/VoucherOrderServiceImpl.java:213-216 | the update takes exactly 1 iff the voucher has stock > 0, is otherwise a no-op, and touches no other voucher |
| VoucherOrderService.DecrementStockNonNegative | src/main/java/com/hmdp/service/impl/VoucherOrderServiceImpl.java:213-216 | non-negative stock stays non-negative |
| VoucherOrderService.CreateSavesOnEveryPath | src/main/java/com/hmdp/service/impl/VoucherOrderServiceImpl.java:208-221 | unless the insert throws, the order is saved whatever the duplicate and stock checks found |
| VoucherOrderService.SecondOrderOfUserStored | src/main/java/com/hmdp/service/impl/VoucherOrderServiceImpl.java:208-221 | a second order by one user for one voucher is stored as well |
| VoucherOrderService.HandleWhenBusy | src/main/java/com/hmdp/service/impl/VoucherOrderServiceImpl.java:157-162 | a held lock means no order and no stock change |
| VoucherOrderService.HandleWhenFree | src/main/java/com/hmdp/service/impl/VoucherOrderServiceImpl.java:163-168 | a free lock means the order is created, or rolled back with an exception when the insert throws |
| VoucherOrderService.DifferentUsersNeverContend | src/main/java/com/hmdp/service/impl/VoucherOrderServiceImpl.java:157 | one user's held lock never blocks another user's order |
| VoucherOrderService.NullProxyLosesOrder | src/main/java/com/hmdp/service/impl/VoucherOrderServiceImpl.java:164-172 | as written no order is persisted; the corrected handler persists it |
| Database.Db.UpdateShop | src/main/java/com/hmdp/service/impl/ShopServiceImpl.java:72 | `updateById` replaces an existing row and adds none |
| ShopService.KeysDistinct | src/main/java/com/hmdp/service/impl/ShopServiceImpl.java:117-125 | a shop's cache key and any mutex key differ |
| ShopService.QueryByIdAt | src/main/java/com/hmdp/service/impl/ShopServiceImpl.java:44-59 | the reply and the store are those of `queryById` over the pass-through read |
| ShopService.QueryByIdFailsIffNull | src/main/java/com/hmdp/service/impl/ShopServiceImpl.java:46-58 | `queryById` fails exactly when the pass-through read yields null, and succeeds exactly when it finds a shop |
| ShopService.UpdateShop | src/main/java/com/hmdp/service/impl/ShopServiceImpl.java:68-75 | the reply, table and store of `update` |
| ShopService.UpdateWithoutId | src/main/java/com/hmdp/service/impl/ShopServiceImpl.java:69-70 | a null id fails and changes neither the table nor the cache |
| ShopService.UpdateThenReload | src/main/java/com/hmdp/service/impl/ShopServiceImpl.java:72-73 | after an update the next pass-through read misses, loads the new row and caches it |
| ShopService.QueryWithPassThrough | src/main/java/com/hmdp/service/impl/ShopServiceImpl.java:85-105 | the private copy agrees with the cache client's pass-through read on `cache:shop:id` with CACHE_SHOP_TTL |
| ShopService.QueryWithMutex | src/main/java/com/hmdp/service/impl/ShopServiceImpl.java:115-154 | the result, loader use and store are those of `Mutex`, retries included |
| ShopService.MutexHit | src/main/java/com/hmdp/service/impl/ShopServiceImpl.java:117-122 | a cached entry is answered as by the pass-through read, with no lock |
| ShopService.MutexMissWithLock | src/main/java/com/hmdp/service/impl/ShopServiceImpl.java:136-145 | a miss that wins the lock loads once, caches the shop for CACHE_SHOP_TTL or "" for CACHE_NULL_TTL, and releases the lock |
| ShopService.MutexReleasesLock | src/main/java/com/hmdp/service/impl/ShopServiceImpl.java:128-151 | on a miss the lock key is gone at the end on every path, including retries that never held it |
| ShopService.MutexExhausted | src/main/java/com/hmdp/service/impl/ShopServiceImpl.java:129-134 | with no retry left, a held lock ends in an exception, and the other holder's lock is deleted by `finally` |
| ShopService.MutexLoadsOnlyOnMiss | src/main/java/com/hmdp/service/impl/ShopServiceImpl.java:115-145 | the loader runs only when the cache had nothing, and never on the exhausted path |
| ShopService.QueryWithLogicalExpire | src/main/java/com/hmdp/service/impl/ShopServiceImpl.java:164-202 | agrees with the cache client's logical-expiry read on `cache:shop:` and `lock:shop:` |
| ShopService.SaveShopToRedis | src/main/java/com/hmdp/service/impl/ShopServiceImpl.java:232-242 | the store after `saveShopToRedis` is `SaveShop` |
| ShopService.RunShopRebuild | src/main/java/com/hmdp/service/impl/ShopServiceImpl.java:189-198 | the submitted task saves with 30 s and then unlocks |
| ShopService.SaveShopEnvelope | src/main/java/com/hmdp/service/impl/ShopServiceImpl.java:234-241 | the entry is an envelope with `expireTime = now + expireSeconds` and no store TTL; no other key changes |
| ShopService.LogicalShopRead | src/main/java/com/hmdp/service/impl/ShopServiceImpl.java:177-201 | the cached shop is returned, fresh or stale; a rebuild is submitted iff stale and the lock is won; afterwards the entry is fresh and the lock gone |
| UserService.SendCodeAt | src/main/java/com/hmdp/service/impl/UserServiceImpl.java:48-61 | the reply and store of `sendCode` |
| UserService.LoginAt | src/main/java/com/hmdp/service/impl/UserServiceImpl.java:64-75 | the gate of `login` is `Login` over the current store |
| UserService.InvalidPhoneRejected | src/main/java/com/hmdp/service/impl/UserServiceImpl.java:49-69 | an invalid phone is refused by both `sendCode` and `login`, and nothing is written |
| UserService.LoginAdmitsIffCodeMatches | src/main/java/com/hmdp/service/impl/UserServiceImpl.java:72-75 | a valid phone passes iff a stored code exists and equals the submitted one |
| UserService.SendThenLogin | src/main/java/com/hmdp/service/impl/UserServiceImpl.java:56-75 | after a code is sent, login passes with that code and fails with any other |
| UserService.SignKeyInjective | src/main/java/com/hmdp/service/impl/UserServiceImpl.java:108-109 | two sign-in keys coincide iff they are for the same user in the same year and month |
| UserService.SignAt | src/main/java/com/hmdp/service/impl/UserServiceImpl.java:103-113 | the store after `sign` is `Sign` |
| UserService.SignSetsOneBit | src/main/java/com/hmdp/service/impl/UserServiceImpl.java:107-111 | exactly bit `day-1` of `sign:userId yyyy/MM` is set; other bitmaps are unchanged; signing twice is idempotent |
| UserService.Streak | src/main/java/com/hmdp/service/impl/UserServiceImpl.java:153 | a streak ending on day d is at most d |
| UserService.CountTrailingOnes | src/main/java/com/hmdp/service/impl/UserServiceImpl.java:141-154 | the shift-and-test loop returns the number of consecutive 1 bits from the least significant bit |
| UserService.TrailingOnesIsStreak | src/main/java/com/hmdp/service/impl/UserServiceImpl.java:124-154 | the trailing ones of the `u<day>` field are the run of signed days ending today |
| UserService.SignCountAt | src/main/java/com/hmdp/service/impl/UserServiceImpl.java:116-157 | the reply of `signCount` is `SignCount`, which is 0 when the field is 0 |
| UserService.SignCountIsStreak | src/main/java/com/hmdp/service/impl/UserServiceImpl.java:124-156 | `signCount` answers the streak ending today, which never exceeds the day of the month |
| UserService.StreakAfterSign | src/main/java/com/hmdp/service/impl/UserServiceImpl.java:107-154 | after signing today, the count is one more than yesterday's streak |
| Database.Db.UpdateLiked | src/main/java/com/hmdp/service/impl/BlogServiceImpl.java:101-108 | `liked` changes by delta iff the row exists |
| Database.Db.SaveBlog | src/main/java/com/hmdp/service/impl/BlogServiceImpl.java:146 | a successful insert stores the blog |
| BlogService.LikeBlog | src/main/java/com/hmdp/service/impl/BlogServiceImpl.java:91-116 | the reply, table and store of `likeBlog` |
| BlogService.LikeWhenNotLiked | src/main/java/com/hmdp/service/impl/BlogServiceImpl.java:98-105 | a user not in the set adds one like and enters the set at the current time; no other score changes |
| BlogService.LikeWhenLiked | src/main/java/com/hmdp/service/impl/BlogServiceImpl.java:106-113 | a user in the set takes one like off and leaves the set; no other score changes |
| BlogService.LikeWithoutRow | src/main/java/com/hmdp/service/impl/BlogServiceImpl.java:92-112 | with no logged-in user, or a failed row update, neither the table nor the set changes |
| BlogService.LikeTwiceRestores | src/main/java/com/hmdp/service/impl/BlogServiceImpl.java:98-113 | two likes restore the count and set membership, and every score when the first one was a like |
| BlogService.IsBlogLiked | src/main/java/com/hmdp/service/impl/BlogServiceImpl.java:225-235 | `isLike` becomes whether the user is in the liked set; with no user, the blog is untouched |
| BlogService.QueryBlogLikes | src/main/java/com/hmdp/service/impl/BlogServiceImpl.java:124-137 | the likers are `ZRANGE key 0 4` |
| BlogService.TopFiveLikers | src/main/java/com/hmdp/service/impl/BlogServiceImpl.java:126-129 | at most five likers, the first-ranked in rank order; none iff the set is empty |
| BlogService.FanOutTo | src/main/java/com/hmdp/service/impl/BlogServiceImpl.java:155-159 | the loop leaves the store as `FanOut` over the fans |
| BlogService.FanOutScores | src/main/java/com/hmdp/service/impl/BlogServiceImpl.java:155-159 | after fan-out, a feed scores the blog at the shared time iff it is a fan's feed; every other score is unchanged |
| BlogService.SaveBlog | src/main/java/com/hmdp/service/impl/BlogServiceImpl.java:143-161 | a failed save returns failure with no fan-out; otherwise the blog row is stored and fanned out to the author's followers |
| BlogService.SaveBlogReachesFollowers | src/main/java/com/hmdp/service/impl/BlogServiceImpl.java:151-159 | a user's feed gets the blog iff that user follows the author |
| BlogService.CursorStep | src/main/java/com/hmdp/service/impl/BlogServiceImpl.java:190-200 | one turn of the corrected loop extends the intended cursor by one entry |
| BlogService.ScrollCursor | src/main/java/com/hmdp/service/impl/BlogServiceImpl.java:186-200 | the corrected loop computes `Cursor`: ids in page order, the last score, and the run of entries with that score |
| BlogService.CursorShape | src/main/java/com/hmdp/service/impl/BlogServiceImpl.java:186-200 | one id per entry, in order; offset ≥ 1; minTime is the page's last score |
| BlogService.ScrollCursorAsWritten | src/main/java/com/hmdp/service/impl/BlogServiceImpl.java:186-200 | the loop as written gives one id per entry in order and `os ≥ 1` throughout |
| BlogService.AsWrittenCursorMiscounts | src/main/java/com/hmdp/service/impl/BlogServiceImpl.java:194-199 | concrete pages where the as-written loop gives the wrong offset or minTime and the corrected loop does not |
| BlogService.QueryBlogOfFollow | src/main/java/com/hmdp/service/impl/BlogServiceImpl.java:170-219 | as written: fail on an empty page, otherwise the page's cursor from the loop that compares `os` with each score |
| BlogService.QueryBlogOfFollowIntended | src/main/java/com/hmdp/service/impl/BlogServiceImpl.java:170-219 | the corrected service, with the loop comparing `minTime`: fail on an empty page, otherwise `Cursor` of the page |
| BlogService.FeedPagesShareIds | src/main/java/com/hmdp/service/impl/BlogServiceImpl.java:176-200 | both versions fail on the same pages and return the page's ids in order; only `minTime` and `offset` can differ |
| BlogService.FeedPageBounds | src/main/java/com/hmdp/service/impl/BlogServiceImpl.java:176-182 | both versions fail iff the page is empty; a page has at most two entries, all scored in [0, max] |
| Database.Db.SaveFollow | src/main/java/com/hmdp/service/impl/FollowServiceImpl.java:45-48 | a successful insert appends the row |
| Database.Db.RemoveFollow | src/main/java/com/hmdp/service/impl/FollowServiceImpl.java:54-56 | deletes the matching rows and reports whether there were any |
| FollowService.FollowAt | src/main/java/com/hmdp/service/impl/FollowServiceImpl.java:38-62 | the reply, table and store of `follow` |
| FollowService.FollowAdds | src/main/java/com/hmdp/service/impl/FollowServiceImpl.java:43-51 | a successful follow adds the id to `follows:userId` and nothing else; a failed save changes nothing |
| FollowService.UnfollowRemoves | src/main/java/com/hmdp/service/impl/FollowServiceImpl.java:52-60 | unfollow deletes every matching row, and removes the id from the set iff a row was deleted |
| FollowService.WithoutElements | src/main/java/com/hmdp/service/impl/FollowServiceImpl.java:54-56 | the remove deletes exactly the rows of that pair |
| FollowService.FollowsKeyInjective | src/main/java/com/hmdp/service/impl/FollowServiceImpl.java:40 | distinct users have distinct follow-set keys |
| FollowService.FollowKeepsMirror | src/main/java/com/hmdp/service/impl/FollowServiceImpl.java:38-62 | every `follow` call keeps each user's set equal to the ids the table says they follow |
| FollowService.MatchingNonEmpty | src/main/java/com/hmdp/service/impl/FollowServiceImpl.java:67-68 | the row count is positive iff the pair is in the table |
| FollowService.FollowOrNot | src/main/java/com/hmdp/service/impl/FollowServiceImpl.java:65-69 | answers whether the pair is in the table |
| FollowService.FollowCommons | src/main/java/com/hmdp/service/impl/FollowServiceImpl.java:72-87 | exactly the ids in both follow sets, and empty when there are none |
| FollowService.CommonsAreSharedFollows | src/main/java/com/hmdp/service/impl/FollowServiceImpl.java:72-81 | with mirrored sets, an id is common iff both users follow it in the table |
| ShopTypeService.DecodeAll | src/main/java/com/hmdp/service/impl/ShopTypeServiceImpl.java:39-40 | decoding keeps one element per cached entry |
| ShopTypeService.EncodeAll | src/main/java/com/hmdp/service/impl/ShopTypeServiceImpl.java:47 | one cached string per shop type |
| ShopTypeService.DecodeEncode | src/main/java/com/hmdp/service/impl/ShopTypeServiceImpl.java:40-47 | decoding the pushed strings gives back the list |
| ShopTypeService.SortByIdCorrect | src/main/java/com/hmdp/service/impl/ShopTypeServiceImpl.java:41 | the sort orders by id and is a permutation |
| ShopTypeService.SortByIdOfSorted | src/main/java/com/hmdp/service/impl/ShopTypeServiceImpl.java:41 | a list in id order comes out unchanged |
| ShopTypeService.QueryTypeListAt | src/main/java/com/hmdp/service/impl/ShopTypeServiceImpl.java:35-51 | the reply and store are those of `queryTypeList` |
| ShopTypeService.HitIsSortedCache | src/main/java/com/hmdp/service/impl/ShopTypeServiceImpl.java:37-44 | a hit returns the cached entries, one each and sorted by id, without consulting the table or changing the cache |
| ShopTypeService.MissFillsCache | src/main/java/com/hmdp/service/impl/ShopTypeServiceImpl.java:46-50 | a miss returns the table in id order and appends it to the list in that order; the next call answers the same list from the cache |

## Left out

- Database.Db.UpdateShop: replaces the whole row. MyBatis-Plus `updateById` with its default not-null field strategy writes only the non-null columns, so a partial shop is merged into the row in the source. `ShopService.UpdateThenReload` therefore reloads the argument, not the merged row. Column-level nullability is not modelled.
- CacheClient.Decode: reading an envelope with `JSONUtil.toBean(json, Shop.class)`, as `queryById` and `queryWithMutex` do after `saveShopToRedis` wrote that key, gives `Failed(MalformedEntry)` here. hutool ignores the unknown fields and returns a shop whose fields are all null, so the source answers that empty shop instead. The model has no record with null fields.

- Concurrency:
  - Thread pools and the asynchronous rebuild tasks are not modelled. A rebuild is a separate step (`RunRebuild`, `RunShopRebuild`) run whenever the caller chooses.
  - Parallel requests and the races between Redis commands are not modelled; each call runs alone.
  - The atomicity of Redis commands is not modelled, including the get-then-delete race of `SimpleRedisLock.unLock`.
- TTLs are recorded on each string entry (`Seconds(n)` or `Persistent`), but keys never expire by themselves. An expiry is modelled only where a lemma deletes the key explicitly (`StaleOwnerRelease`).
- The keyspace is split into one map per kind of value. The model therefore does not capture a command applied to a key of the wrong kind (a `WRONGTYPE` error).
- The commented-out stream consumer and the Lua admission-script call in `VoucherOrderServiceImpl` are not live code, and the script's source is not part of this model.
- Redisson's lock is a set of held names. Re-entrancy, lease time and the watchdog are not modelled.
- JSON serialisation is an abstract, invertible pair. The exact text hutool produces is not modelled, nor whether a hand-written string would parse.
- `StrUtil.isBlank` covers the common whitespace characters of Java and Unicode, not every category hutool checks.
- Clocks:
  - The logical-expiry clock is whole epoch seconds; `LocalDateTime` sub-second precision is not modelled.
  - `nowMillis` is passed in as a plain integer.
  - `LocalDateTime.now` is passed as a `DateTime` in years 1..9999.
- `RedisConstants` is not part of this model. Its values are the project's usual ones:
  - CACHE_NULL_TTL 2 min, CACHE_SHOP_TTL 30 min, LOGIN_CODE_TTL 2 min;
  - key prefixes `cache:shop:`, `lock:shop:`, `cache:shopType`, `login:code:`, `sign:`, `blog:liked:`, `feed:`.
- `RegexUtils.isPhoneInvalid` is a parameter. `RandomUtil`, `UUID` and the thread id are parameters too.
- `login` after the code check is left out: the user lookup or creation and the token hash in Redis copy bean fields and have no logic of their own. The model stops at `Admitted`.
- Enrichment and parsing steps that call other services are left out:
  - the user lookups of `queryBlogLikes` and `followCommons` (their results are the id strings);
  - the database fetch and `queryBlogUser`/`isBlogLiked` enrichment of `queryBlogOfFollow`;
  - `Long.valueOf` on member strings.
- `Thread.sleep(50)` in `queryWithMutex` is replaced by the store that other clients leave during the back-off, given as a list, one store per retry. When the list runs out, the call ends in `Failed(RetriesExhausted)`. This stands for the `StackOverflowError` that endless retries cause. A retry chain longer than the list is not modelled.
- `UserService.SignCount`: the BITFIELD reply is always one value here, so the "empty result" branch is present but unreachable.
- `VoucherOrderService.SeckillVoucher`: the reply type is `Result<int>`. The `voucherId` and `userId` only fed the disabled script and are unused.
- A request with no logged-in user, where `UserHolder.getUser()` itself is null and the call throws before the null-id check, is not modelled. The user id is a parameter.

## Findings

| source | as written | input that shows it | evidently intended | confidence | as-written member | corrected member |
|---|---|---|---|---|---|---|
| src/main/java/com/hmdp/service/impl/VoucherOrderServiceImpl.java:164-172 | the field `proxy` is declared but never assigned. `handleVoucherOrder` calls `proxy.createVoucherOrder(...)` under the lock, which throws a NullPointerException, so no order is ever persisted | any order whose user's lock is free | `proxy` refers to the transactional service (e.g. `AopContext.currentProxy()`), so that `createVoucherOrder` runs in its transaction | not executed | VoucherOrderService.HandleVoucherOrderAsWritten, VoucherOrderService.NullProxyLosesOrder | VoucherOrderService.HandleVoucherOrder |
| src/main/java/com/hmdp/service/impl/BlogServiceImpl.java:194-199 | the scroll loop compares the offset counter `os` with each score, instead of the running `minTime` | page `[("11", 5), ("12", 5)]` gives offset 1, so the next request shows "12" again; page `[("11", 1)]` gives minTime 0 and offset 2 | `if (time == minTime) os++; else { minTime = time; os = 1; }`, so the next page skips every entry sharing the lowest score | not executed | BlogService.QueryBlogOfFollow, BlogService.ScrollCursorAsWritten, BlogService.AsWrittenCursorMiscounts | BlogService.QueryBlogOfFollowIntended, BlogService.ScrollCursor |
