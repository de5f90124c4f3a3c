/** The key-value store as a value: one map per kind of Redis value the services use, and the
    Redis commands they issue as functions from one store to the next. */
module RedisStore {
  import opened Wrappers
  import opened Text

  /** The store-level expiry a string key is written with. */
  datatype Ttl = Persistent | Seconds(seconds: int)

  /** An entity bean (shop, shop type, ...): its primary key and the rest of its columns. */
  datatype Record = Record(id: int, body: string)

  /** A string value. `JSONUtil.toJsonStr` of a bean is `Json`, of a `RedisData` envelope is
      `Envelope` (its `expireTime`, in epoch seconds, and its `data`); any other text is `Raw`.
      Serialising is applying the constructor and deserialising is matching on it. */
  datatype Doc = Raw(text: string) | Json(rec: Record) | Envelope(expireTime: int, data: Option<Record>)

  /** `StrUtil.isBlank` on a stored value. JSON text always starts with `{`, so only raw text can be blank. */
  predicate Blank(d: Doc)
  {
    d.Raw? && IsBlank(d.text)
  }

  datatype Entry = Entry(doc: Doc, ttl: Ttl)

  /** One member of a sorted set with its score. */
  datatype ZMember = ZMember(member: string, score: int)

  datatype Store = Store(
    strings: map<string, Entry>,
    counters: map<string, int>,
    sets: map<string, set<string>>,
    zsets: map<string, seq<ZMember>>,
    bitmaps: map<string, set<nat>>,
    lists: map<string, seq<Doc>>)

  const Empty := Store(map[], map[], map[], map[], map[], map[])

  // ---------------------------------------------------------------- strings

  /** GET */
  function Get(s: Store, key: string): Option<Doc>
  {
    if key in s.strings then Some(s.strings[key].doc) else None
  }

  /** SET key value [EX ttl] */
  function Set(s: Store, key: string, doc: Doc, ttl: Ttl): Store
  {
    s.(strings := s.strings[key := Entry(doc, ttl)])
  }

  /** SET key value EX ttl NX: writes only when the key is absent and reports whether it did. */
  function SetIfAbsent(s: Store, key: string, doc: Doc, ttl: Ttl): (r: (bool, Store))
    ensures r.0 <==> key !in s.strings
    ensures r.1 == if r.0 then Set(s, key, doc, ttl) else s
  {
    if key in s.strings then (false, s) else (true, Set(s, key, doc, ttl))
  }

  /** DEL */
  function Delete(s: Store, key: string): Store
  {
    s.(strings := s.strings - {key})
  }

  // ---------------------------------------------------------------- counters

  function Counter(s: Store, key: string): int
  {
    if key in s.counters then s.counters[key] else 0
  }

  /** INCR: a missing counter counts from 0, so the first increment yields 1. */
  function Incr(s: Store, key: string): (r: (int, Store))
    ensures r.0 == Counter(s, key) + 1
    ensures r.1.counters == s.counters[key := r.0]
    ensures r.1 == s.(counters := r.1.counters)
  {
    var v := Counter(s, key) + 1;
    (v, s.(counters := s.counters[key := v]))
  }

  // ---------------------------------------------------------------- sets

  /** SMEMBERS; a missing key is the empty set. */
  function Members(s: Store, key: string): set<string>
  {
    if key in s.sets then s.sets[key] else {}
  }

  /** SADD */
  function SAdd(s: Store, key: string, m: string): Store
  {
    s.(sets := s.sets[key := Members(s, key) + {m}])
  }

  /** SREM */
  function SRem(s: Store, key: string, m: string): Store
  {
    s.(sets := s.sets[key := Members(s, key) - {m}])
  }

  /** SINTER of two keys. */
  function SInter(s: Store, k1: string, k2: string): (r: set<string>)
    ensures forall m :: m in r <==> m in Members(s, k1) && m in Members(s, k2)
  {
    Members(s, k1) * Members(s, k2)
  }

  // ---------------------------------------------------------------- sorted sets

  /** Byte-wise lexicographic order on members, which Redis uses to rank equal scores. */
  predicate StrLess(a: string, b: string)
  {
    if |a| == 0 then |b| > 0
    else if |b| == 0 then false
    else a[0] < b[0] || (a[0] == b[0] && StrLess(a[1..], b[1..]))
  }

  /** Redis rank order: by score, then by member. */
  predicate ZLess(x: ZMember, y: ZMember)
  {
    x.score < y.score || (x.score == y.score && StrLess(x.member, y.member))
  }

  /** A sorted set as Redis keeps it: members in strictly increasing rank order. */
  predicate Ranked(z: seq<ZMember>)
  {
    forall i, j :: 0 <= i < j < |z| ==> ZLess(z[i], z[j])
  }

  /** The members of a sorted set in rank order; a missing key is empty. */
  function Ranking(s: Store, key: string): seq<ZMember>
  {
    if key in s.zsets then s.zsets[key] else []
  }

  function Find(z: seq<ZMember>, m: string): Option<int>
  {
    if z == [] then None else if z[0].member == m then Some(z[0].score) else Find(z[1..], m)
  }

  /** ZSCORE */
  function ZScore(s: Store, key: string, m: string): Option<int>
  {
    Find(Ranking(s, key), m)
  }

  function Remove(z: seq<ZMember>, m: string): seq<ZMember>
  {
    if z == [] then [] else if z[0].member == m then Remove(z[1..], m) else [z[0]] + Remove(z[1..], m)
  }

  /** Places a member before the first one it ranks below. */
  function Insert(z: seq<ZMember>, x: ZMember): seq<ZMember>
  {
    if z == [] then [x] else if ZLess(z[0], x) then [z[0]] + Insert(z[1..], x) else [x] + z
  }

  /** ZADD: adds the member, or moves it to its new score. */
  function ZAdd(s: Store, key: string, m: string, score: int): Store
  {
    s.(zsets := s.zsets[key := Insert(Remove(Ranking(s, key), m), ZMember(m, score))])
  }

  /** ZREM */
  function ZRem(s: Store, key: string, m: string): Store
  {
    s.(zsets := s.zsets[key := Remove(Ranking(s, key), m)])
  }

  /** ZRANGE key 0 stop: the members of rank 0 to stop. */
  function ZRangeFromStart(s: Store, key: string, stop: nat): seq<string>
  {
    var z := Ranking(s, key);
    var n := if stop + 1 < |z| then stop + 1 else |z|;
    seq(n, i requires 0 <= i < n => z[i].member)
  }

  function InScore(z: seq<ZMember>, min: int, max: int): (r: seq<ZMember>)
    ensures |r| <= |z|
  {
    if z == [] then []
    else (if min <= z[0].score <= max then [z[0]] else []) + InScore(z[1..], min, max)
  }

  function Reverse(z: seq<ZMember>): (r: seq<ZMember>)
    ensures |r| == |z|
  {
    if z == [] then [] else Reverse(z[1..]) + [z[0]]
  }

  /** ZREVRANGEBYSCORE key max min WITHSCORES LIMIT offset count: the members scored in
      [min, max], highest rank first, after skipping `offset` of them; a negative offset skips all. */
  function ZRevRangeByScore(s: Store, key: string, min: int, max: int, offset: int, count: nat): seq<ZMember>
  {
    var desc := Reverse(InScore(Ranking(s, key), min, max));
    if offset < 0 || offset >= |desc| then []
    else
      var rest := desc[offset..];
      if count < |rest| then rest[..count] else rest
  }

  // ---------------------------------------------------------------- bitmaps

  /** The offsets of the 1 bits; every other offset reads 0. */
  function Bits(s: Store, key: string): set<nat>
  {
    if key in s.bitmaps then s.bitmaps[key] else {}
  }

  /** SETBIT key offset 1 */
  function SetBit(s: Store, key: string, offset: nat): Store
  {
    s.(bitmaps := s.bitmaps[key := Bits(s, key) + {offset}])
  }

  /** The unsigned number formed by bits 0 .. width-1, bit 0 the most significant. */
  function BitsValue(bits: set<nat>, width: nat): (v: nat)
  {
    if width == 0 then 0 else 2 * BitsValue(bits, width - 1) + (if width - 1 in bits then 1 else 0)
  }

  /** BITFIELD key GET u<width> 0: one reply, the field's value (a missing key reads as zeros). */
  function BitFieldGet(s: Store, key: string, width: nat): seq<int>
  {
    [BitsValue(Bits(s, key), width)]
  }

  // ---------------------------------------------------------------- lists

  /** LRANGE key 0 -1 */
  function Elements(s: Store, key: string): seq<Doc>
  {
    if key in s.lists then s.lists[key] else []
  }

  /** RPUSH key v1 v2 ... */
  function RPushAll(s: Store, key: string, docs: seq<Doc>): Store
  {
    s.(lists := s.lists[key := Elements(s, key) + docs])
  }
}
