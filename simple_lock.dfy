/** `SimpleRedisLock` (the `ILock` contract): a named lock stored under `"lock:" + name`,
    taken by set-if-absent of the owner token and released only by the owner. */
module SimpleRedisLock {
  import opened Wrappers
  import opened Text
  import opened RedisStore
  import opened RedisClient

  const KEY_PREFIX: string := "lock:"

  function LockKey(name: string): string
  {
    KEY_PREFIX + name
  }

  /** `ID_PREFIX + threadId`, where `ID_PREFIX` is the process's random UUID followed by "-". */
  function Token(uuid: string, threadId: int): string
  {
    uuid + "-" + IntToString(threadId)
  }

  /** `tryLock(timeOutSec)`: set-if-absent of the token, expiring after `timeOutSec` seconds. */
  function Acquire(s: Store, key: string, token: string, timeOutSec: int): (bool, Store)
  {
    SetIfAbsent(s, key, Raw(token), Seconds(timeOutSec))
  }

  /** `unLock()`: read the key and delete it only when it holds the caller's token. */
  function Release(s: Store, key: string, token: string): Store
  {
    if Get(s, key) == Some(Raw(token)) then Delete(s, key) else s
  }

  class Lock {
    const name: string
    const redis: Redis
    /** The random UUID `ID_PREFIX` is built from; one per process, shared by all locks. */
    const uuid: string

    constructor (name: string, redis: Redis, uuid: string)
      ensures this.name == name && this.redis == redis && this.uuid == uuid
    {
      this.name := name;
      this.redis := redis;
      this.uuid := uuid;
    }

    method TryLock(timeOutSec: int, threadId: int) returns (success: bool)
      modifies redis
      ensures (success, redis.State()) == Acquire(old(redis.State()), LockKey(name), Token(uuid, threadId), timeOutSec)
    {
      var id := uuid + "-" + IntToString(threadId);
      var key := KEY_PREFIX + name;
      success := redis.SetIfAbsent(key, Raw(id), Seconds(timeOutSec));
    }

    method UnLock(threadId: int)
      modifies redis
      ensures redis.State() == Release(old(redis.State()), LockKey(name), Token(uuid, threadId))
    {
      var threadToken := uuid + "-" + IntToString(threadId);
      var key := KEY_PREFIX + name;
      var id := redis.Get(key);
      if id == Some(Raw(threadToken)) {
        redis.Delete(key);
      }
    }
  }

  /** Acquiring succeeds exactly when the key is absent, and the key then holds the caller's token. */
  lemma AcquireWhenFree(s: Store, key: string, token: string, ttl: int)
    ensures var (won, s1) := Acquire(s, key, token, ttl);
      && (won <==> key !in s.strings)
      && (won ==> Get(s1, key) == Some(Raw(token)) && s1.strings[key].ttl == Seconds(ttl))
  {
  }

  /** Acquiring a held key fails and leaves the holder's token in place. */
  lemma AcquireWhenHeld(s: Store, key: string, token: string, ttl: int)
    requires key in s.strings
    ensures Acquire(s, key, token, ttl) == (false, s)
  {
  }

  /** Releasing deletes the key exactly when it holds the caller's token. */
  lemma ReleaseOnlyByOwner(s: Store, key: string, token: string)
    ensures key in Release(s, key, token).strings <==> key in s.strings && Get(s, key) != Some(Raw(token))
  {
  }

  /** After the lock expired and another thread took it, a release by the old owner is a no-op
      and the new holder's entry stays. */
  lemma StaleOwnerRelease(s: Store, key: string, mine: string, theirs: string, ttl: int)
    requires mine != theirs
    ensures var expired := Delete(s, key);
      var (_, retaken) := Acquire(expired, key, theirs, ttl);
      Release(retaken, key, mine) == retaken && Get(retaken, key) == Some(Raw(theirs))
  {
  }

  /** Acquire followed by release from the same thread restores the store it started from. */
  lemma AcquireThenRelease(s: Store, key: string, token: string, ttl: int)
    requires key !in s.strings
    ensures var (won, s1) := Acquire(s, key, token, ttl);
      won && Release(s1, key, token) == s
  {
    var (_, s1) := Acquire(s, key, token, ttl);
    assert Release(s1, key, token).strings == s.strings;
  }

  /** Two threads of one process never share a token. */
  lemma TokensDistinct(uuid: string, t1: int, t2: int)
    requires t1 != t2
    ensures Token(uuid, t1) != Token(uuid, t2)
  {
    if Token(uuid, t1) == Token(uuid, t2) {
      assert (uuid + "-") + IntToString(t1) == (uuid + "-") + IntToString(t2);
      NumberedKeyInjective(uuid + "-", t1, t2);
    }
  }

  /** Locks with different names use different keys, so acquiring or releasing one leaves the
      other's entry as it was. */
  lemma NamesIndependent(s: Store, name: string, other: string, token: string, ttl: int)
    requires name != other
    ensures LockKey(name) != LockKey(other)
    ensures Get(Acquire(s, LockKey(other), token, ttl).1, LockKey(name)) == Get(s, LockKey(name))
    ensures Get(Release(s, LockKey(other), token), LockKey(name)) == Get(s, LockKey(name))
  {
    if LockKey(name) == LockKey(other) {
      PrefixInjective(KEY_PREFIX, name, other);
    }
  }
}
