/** `RedisIdWorker.nextId`: a Java `long` made of the seconds since a fixed epoch in the high
    32 bits and a per-day counter, incremented in the store, in the low bits. */
module RedisIdWorker {
  import opened Text
  import opened Clock
  import opened RedisStore
  import opened RedisClient

  /** 2023-09-01T00:00:00Z */
  const BEGIN_TIMESTAMP: int := 1693526400
  const COUNT_BITS: nat := 32

  function Pow2(k: nat): (p: nat)
    ensures p >= 1
  {
    if k == 0 then 1 else 2 * Pow2(k - 1)
  }

  const TWO_31: nat := 0x8000_0000
  const TWO_32: nat := 0x1_0000_0000
  const TWO_63: nat := 0x8000_0000_0000_0000
  const TWO_64: nat := 0x1_0000_0000_0000_0000

  /** The 64 bits of a Java `long`, read as an unsigned number. */
  function Unsigned64(x: int): (u: nat)
    ensures u < TWO_64
  {
    x % TWO_64
  }

  /** A 64-bit pattern read back as a two's-complement `long`. */
  function Signed64(u: int): int
  {
    var v := u % TWO_64;
    if v >= TWO_63 then v - TWO_64 else v
  }

  /** Bitwise OR of two non-negative numbers. */
  function Or(a: nat, b: nat): nat
    decreases a + b
  {
    if a == 0 && b == 0 then 0
    else 2 * Or(a / 2, b / 2) + (if a % 2 == 1 || b % 2 == 1 then 1 else 0)
  }

  /** `timeStamp << COUNT_BITS | count` on Java `long`s. */
  function ComposeId(timeStamp: int, count: int): int
  {
    Signed64(Or(Unsigned64(Unsigned64(timeStamp) * TWO_32), Unsigned64(count)))
  }

  lemma {:induction false} OrZero(a: nat)
    ensures Or(a, 0) == a
  {
    if a != 0 {
      OrZero(a / 2);
    }
  }

  /** OR with an even number works on the halves. */
  lemma OrEven(h: nat, c: nat)
    ensures Or(2 * h, c) == 2 * Or(h, c / 2) + c % 2
  {
    assert (2 * h) / 2 == h && (2 * h) % 2 == 0;
  }

  /** OR-ing a number into the zero low bits of a shifted one is addition. */
  lemma {:induction false} OrShifted(a: nat, c: nat, k: nat)
    requires c < Pow2(k)
    ensures Or(a * Pow2(k), c) == a * Pow2(k) + c
  {
    if k == 0 {
      OrZero(a);
    } else {
      var p := Pow2(k - 1);
      var half := a * p;
      assert a * Pow2(k) == 2 * half by {
        assert Pow2(k) == 2 * p;
      }
      OrEven(half, c);
      OrShifted(a, c / 2, k - 1);
    }
  }

  lemma {:induction false} Pow2Add(i: nat, j: nat)
    ensures Pow2(i + j) == Pow2(i) * Pow2(j)
  {
    if i > 0 {
      Pow2Add(i - 1, j);
    }
  }

  lemma Pow2Is32Bits()
    ensures Pow2(32) == TWO_32
  {
    assert Pow2(4) == 16;
    Pow2Add(4, 4);
    Pow2Add(8, 8);
    Pow2Add(16, 16);
  }

  /** With a non-negative time stamp below 2^31 and a count below 2^32, the id is
      `timeStamp * 2^32 + count`: its high 32 bits are the time stamp and its low 32 bits the count. */
  lemma ComposeIdPacks(timeStamp: int, count: int)
    requires 0 <= timeStamp < TWO_31 && 0 <= count < TWO_32
    ensures ComposeId(timeStamp, count) == timeStamp * TWO_32 + count
    ensures ComposeId(timeStamp, count) / TWO_32 == timeStamp
    ensures ComposeId(timeStamp, count) % TWO_32 == count
  {
    var shifted := timeStamp * TWO_32;
    ShiftFits(timeStamp);
    Unsigned64Small(timeStamp);
    Unsigned64Small(count);
    Unsigned64Small(shifted);
    Pow2Is32Bits();
    OrShifted(timeStamp, count, 32);
    Signed64Small(shifted + count);
    PackDivMod(timeStamp, count);
  }

  lemma Unsigned64Small(x: int)
    requires 0 <= x < TWO_64
    ensures Unsigned64(x) == x
  {
  }

  lemma Signed64Small(x: int)
    requires 0 <= x < TWO_63
    ensures Signed64(x) == x
  {
  }

  lemma ShiftFits(t: int)
    requires 0 <= t < TWO_31
    ensures 0 <= t * TWO_32 && t * TWO_32 + TWO_32 <= TWO_63
  {
    assert t * TWO_32 <= (TWO_31 - 1) * TWO_32;
  }

  lemma PackDivMod(t: int, c: int)
    requires 0 <= c < TWO_32
    ensures (t * TWO_32 + c) / TWO_32 == t && (t * TWO_32 + c) % TWO_32 == c
  {
  }

  /** Ids of one second are ordered by their counts, and an id of a later second exceeds every id
      of an earlier one; in particular different (second, count) pairs give different ids. */
  lemma ComposeIdMonotonic(t1: int, c1: int, t2: int, c2: int)
    requires 0 <= t1 < TWO_31 && 0 <= c1 < TWO_32
    requires 0 <= t2 < TWO_31 && 0 <= c2 < TWO_32
    requires t1 < t2 || (t1 == t2 && c1 < c2)
    ensures ComposeId(t1, c1) < ComposeId(t2, c2)
  {
    ComposeIdPacks(t1, c1);
    ComposeIdPacks(t2, c2);
    if t1 < t2 {
      assert (t1 + 1) * TWO_32 <= t2 * TWO_32;
    }
  }

  /** The counter `"icr" + keyPrefix + yyyy:MM:dd`. */
  function CounterKey(keyPrefix: string, now: DateTime): string
    requires Valid(now)
  {
    "icr" + keyPrefix + DayStamp(now)
  }

  function TimeStamp(now: DateTime): int
    requires Valid(now)
  {
    EpochSecond(now) - BEGIN_TIMESTAMP
  }

  /** `nextId(keyPrefix)` at clock reading `now`: the id and the store after the increment. */
  function NextId(s: Store, keyPrefix: string, now: DateTime): (int, Store)
    requires Valid(now)
  {
    var (count, s1) := Incr(s, CounterKey(keyPrefix, now));
    (ComposeId(TimeStamp(now), count), s1)
  }

  method NextIdAt(redis: Redis, keyPrefix: string, now: DateTime) returns (id: int)
    requires Valid(now)
    modifies redis
    ensures (id, redis.State()) == NextId(old(redis.State()), keyPrefix, now)
  {
    var nowSecond := EpochSecond(now);
    var timeStamp := nowSecond - BEGIN_TIMESTAMP;
    var date := DayStamp(now);
    var count := redis.Increment("icr" + keyPrefix + date);
    id := ComposeId(timeStamp, count);
  }

  /** Each call adds exactly 1 to its own day counter and changes nothing else in the store. */
  lemma NextIdIncrementsOneCounter(s: Store, keyPrefix: string, now: DateTime)
    requires Valid(now)
    ensures var key := CounterKey(keyPrefix, now);
      NextId(s, keyPrefix, now).1 == s.(counters := s.counters[key := Counter(s, key) + 1])
  {
  }

  /** Counter keys coincide exactly for the same prefix on the same day: the date is the key's
      fixed-width tail. */
  lemma CounterKeyInjective(p1: string, t1: DateTime, p2: string, t2: DateTime)
    requires Valid(t1) && Valid(t2)
    ensures CounterKey(p1, t1) == CounterKey(p2, t2)
        <==> p1 == p2 && t1.year == t2.year && t1.month == t2.month && t1.day == t2.day
  {
    DayStampInjective(t1, t2);
    if CounterKey(p1, t1) == CounterKey(p2, t2) {
      var k := CounterKey(p1, t1);
      var n := |k| - 10;
      assert k == ("icr" + p1) + DayStamp(t1) && k == ("icr" + p2) + DayStamp(t2);
      assert k[..n] == "icr" + p1 && k[..n] == "icr" + p2;
      assert k[n..] == DayStamp(t1) && k[n..] == DayStamp(t2);
      PrefixInjective("icr", p1, p2);
    }
  }

  /** A call for another prefix or on another date leaves this day's counter as it was. */
  lemma OtherDayCounterUntouched(s: Store, keyPrefix: string, now: DateTime, otherPrefix: string, other: DateTime)
    requires Valid(now) && Valid(other)
    requires otherPrefix != keyPrefix || other.year != now.year || other.month != now.month || other.day != now.day
    ensures var key := CounterKey(keyPrefix, now);
      var s1 := NextId(s, otherPrefix, other).1;
      (key in s1.counters <==> key in s.counters) && Counter(s1, key) == Counter(s, key)
  {
    CounterKeyInjective(keyPrefix, now, otherPrefix, other);
  }

  /** One `nextId(keyPrefix)` call at clock reading `at`. */
  datatype Call = Call(keyPrefix: string, at: DateTime)

  predicate ValidCalls(calls: seq<Call>)
  {
    forall i :: 0 <= i < |calls| ==> Valid(calls[i].at)
  }

  /** The store after the calls, in order. */
  function Replay(s: Store, calls: seq<Call>): Store
    requires ValidCalls(calls)
    decreases |calls|
  {
    if calls == [] then s
    else
      var last := calls[|calls| - 1];
      NextId(Replay(s, calls[..|calls| - 1]), last.keyPrefix, last.at).1
  }

  /** None of the calls is for `keyPrefix` on the date of `now`. */
  predicate NoCallThatDay(calls: seq<Call>, keyPrefix: string, now: DateTime)
  {
    forall i :: 0 <= i < |calls| ==>
      calls[i].keyPrefix != keyPrefix || calls[i].at.year != now.year || calls[i].at.month != now.month || calls[i].at.day != now.day
  }

  lemma {:induction false} ReplayKeepsAbsent(s: Store, calls: seq<Call>, keyPrefix: string, now: DateTime)
    requires Valid(now) && ValidCalls(calls) && NoCallThatDay(calls, keyPrefix, now)
    requires CounterKey(keyPrefix, now) !in s.counters
    ensures CounterKey(keyPrefix, now) !in Replay(s, calls).counters
    decreases |calls|
  {
    if calls != [] {
      var init, last := calls[..|calls| - 1], calls[|calls| - 1];
      assert ValidCalls(init) && NoCallThatDay(init, keyPrefix, now) by {
        forall i | 0 <= i < |init|
          ensures init[i] == calls[i]
        {
        }
      }
      ReplayKeepsAbsent(s, init, keyPrefix, now);
      OtherDayCounterUntouched(Replay(s, init), keyPrefix, now, last.keyPrefix, last.at);
    }
  }

  /** Starting from a keyspace with no counters, after any calls for other prefixes or on other
      dates, the first call of the day for `keyPrefix` uses count 1. */
  lemma FirstIdOfDay(s: Store, calls: seq<Call>, keyPrefix: string, now: DateTime)
    requires s.counters == map[]
    requires Valid(now) && ValidCalls(calls) && NoCallThatDay(calls, keyPrefix, now)
    requires 0 <= TimeStamp(now) < TWO_31
    ensures NextId(Replay(s, calls), keyPrefix, now).0 == TimeStamp(now) * TWO_32 + 1
  {
    ReplayKeepsAbsent(s, calls, keyPrefix, now);
    ComposeIdPacks(TimeStamp(now), 1);
  }

  /** Two successive calls for one prefix on one day get successive counts, so the second id is
      larger: by count within a second, by time stamp across seconds. */
  lemma SuccessiveIdsIncrease(s: Store, keyPrefix: string, now1: DateTime, now2: DateTime)
    requires Valid(now1) && Valid(now2)
    requires DayStamp(now1) == DayStamp(now2)
    requires 0 <= TimeStamp(now1) <= TimeStamp(now2) < TWO_31
    requires 0 <= Counter(s, CounterKey(keyPrefix, now1)) && Counter(s, CounterKey(keyPrefix, now1)) + 2 < TWO_32
    ensures var (id1, s1) := NextId(s, keyPrefix, now1);
      var (id2, _) := NextId(s1, keyPrefix, now2);
      id1 < id2
  {
    var key := CounterKey(keyPrefix, now1);
    var c := Counter(s, key);
    var (id1, s1) := NextId(s, keyPrefix, now1);
    assert Counter(s1, CounterKey(keyPrefix, now2)) == c + 1;
    ComposeIdMonotonic(TimeStamp(now1), c + 1, TimeStamp(now2), c + 2);
  }
}
