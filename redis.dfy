/** The `StringRedisTemplate` every service shares: a mutable store whose fields are the maps of
    `RedisStore.Store`. Each command changes the fields exactly as the matching `RedisStore` function says. */
module RedisClient {
  import opened Wrappers
  import opened RedisStore

  class Redis {
    var strings: map<string, Entry>
    var counters: map<string, int>
    var sets: map<string, set<string>>
    var zsets: map<string, seq<ZMember>>
    var bitmaps: map<string, set<nat>>
    var lists: map<string, seq<Doc>>

    /** The whole store as a value. */
    function State(): Store
      reads this
    {
      Store(strings, counters, sets, zsets, bitmaps, lists)
    }

    constructor ()
      ensures State() == Empty
    {
      strings, counters, sets, zsets, bitmaps, lists := map[], map[], map[], map[], map[], map[];
    }

    method Get(key: string) returns (r: Option<Doc>)
      ensures r == RedisStore.Get(State(), key)
    {
      r := if key in strings then Some(strings[key].doc) else None;
    }

    method Set(key: string, doc: Doc, ttl: Ttl)
      modifies this
      ensures State() == RedisStore.Set(old(State()), key, doc, ttl)
    {
      strings := strings[key := Entry(doc, ttl)];
    }

    method SetIfAbsent(key: string, doc: Doc, ttl: Ttl) returns (won: bool)
      modifies this
      ensures (won, State()) == RedisStore.SetIfAbsent(old(State()), key, doc, ttl)
    {
      won := key !in strings;
      if won {
        strings := strings[key := Entry(doc, ttl)];
      }
    }

    method Delete(key: string)
      modifies this
      ensures State() == RedisStore.Delete(old(State()), key)
    {
      strings := strings - {key};
    }

    method Increment(key: string) returns (v: int)
      modifies this
      ensures (v, State()) == Incr(old(State()), key)
    {
      v := (if key in counters then counters[key] else 0) + 1;
      counters := counters[key := v];
    }

    method SetAdd(key: string, m: string)
      modifies this
      ensures State() == SAdd(old(State()), key, m)
    {
      sets := sets[key := (if key in sets then sets[key] else {}) + {m}];
    }

    method SetRemove(key: string, m: string)
      modifies this
      ensures State() == SRem(old(State()), key, m)
    {
      sets := sets[key := (if key in sets then sets[key] else {}) - {m}];
    }

    method Intersect(k1: string, k2: string) returns (r: set<string>)
      ensures r == SInter(State(), k1, k2)
    {
      r := Members(State(), k1) * Members(State(), k2);
    }

    method Score(key: string, m: string) returns (r: Option<int>)
      ensures r == ZScore(State(), key, m)
    {
      r := Find(Ranking(State(), key), m);
    }

    method SortedAdd(key: string, m: string, score: int)
      modifies this
      ensures State() == ZAdd(old(State()), key, m, score)
    {
      zsets := zsets[key := Insert(Remove(Ranking(State(), key), m), ZMember(m, score))];
    }

    method SortedRemove(key: string, m: string)
      modifies this
      ensures State() == ZRem(old(State()), key, m)
    {
      zsets := zsets[key := Remove(Ranking(State(), key), m)];
    }

    method Range(key: string, stop: nat) returns (r: seq<string>)
      ensures r == ZRangeFromStart(State(), key, stop)
    {
      r := ZRangeFromStart(State(), key, stop);
    }

    method ReverseRangeByScore(key: string, min: int, max: int, offset: int, count: nat) returns (r: seq<ZMember>)
      ensures r == ZRevRangeByScore(State(), key, min, max, offset, count)
    {
      r := ZRevRangeByScore(State(), key, min, max, offset, count);
    }

    method SetBitOn(key: string, offset: nat)
      modifies this
      ensures State() == SetBit(old(State()), key, offset)
    {
      bitmaps := bitmaps[key := Bits(State(), key) + {offset}];
    }

    method BitField(key: string, width: nat) returns (r: seq<int>)
      ensures r == BitFieldGet(State(), key, width)
    {
      r := [BitsValue(Bits(State(), key), width)];
    }

    method ListRange(key: string) returns (r: seq<Doc>)
      ensures r == Elements(State(), key)
    {
      r := if key in lists then lists[key] else [];
    }

    method RightPushAll(key: string, docs: seq<Doc>)
      modifies this
      ensures State() == RPushAll(old(State()), key, docs)
    {
      lists := lists[key := Elements(State(), key) + docs];
    }
  }
}
