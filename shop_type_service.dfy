/** `ShopTypeServiceImpl.queryTypeList`: the shop types from the cached list `cache:shopType`,
    decoded and sorted by id; on a miss, the table ordered by id, pushed to the list in order. */
module ShopTypeService {
  import opened Wrappers
  import opened RedisStore
  import opened RedisClient
  import opened RedisConstants
  import opened Database

  /** The list returned, or the exception that escapes. */
  datatype TypeList = Listed(types: seq<Record>) | Threw(message: string)

  const MALFORMED := "a cached shop type is not a shop type"
  const EMPTY_PUSH := "values must not be empty"

  /** `JSONUtil.toBean` of every cached string; one that is not a shop type throws. */
  function DecodeAll(docs: seq<Doc>): (r: Option<seq<Record>>)
    ensures r.Some? ==> |r.value| == |docs|
  {
    if docs == [] then Some([])
    else if !docs[0].Json? then None
    else match DecodeAll(docs[1..])
      case None => None
      case Some(rest) => Some([docs[0].rec] + rest)
  }

  /** `JSONUtil.toJsonStr` of every element. */
  function EncodeAll(types: seq<Record>): (r: seq<Doc>)
    ensures |r| == |types|
  {
    if types == [] then [] else [Json(types[0])] + EncodeAll(types[1..])
  }

  lemma {:induction false} DecodeEncode(types: seq<Record>)
    ensures DecodeAll(EncodeAll(types)) == Some(types)
  {
    if types != [] {
      DecodeEncode(types[1..]);
      var docs := EncodeAll(types);
      assert docs == [Json(types[0])] + EncodeAll(types[1..]);
      assert docs[0].Json? && docs[1..] == EncodeAll(types[1..]);
      assert types == [types[0]] + types[1..];
    }
  }

  predicate SortedById(rs: seq<Record>)
  {
    forall i, j :: 0 <= i < j < |rs| ==> rs[i].id <= rs[j].id
  }

  /** Places `x` before the first element whose id is not smaller, keeping equal ids in order. */
  function InsertById(x: Record, rs: seq<Record>): seq<Record>
  {
    if rs == [] || x.id <= rs[0].id then [x] + rs else [rs[0]] + InsertById(x, rs[1..])
  }

  /** `sorted(Comparator.comparing(ShopType::getId))`: a stable sort by id. */
  function SortById(rs: seq<Record>): seq<Record>
  {
    if rs == [] then [] else InsertById(rs[0], SortById(rs[1..]))
  }

  lemma {:induction false} InsertByIdPermutes(x: Record, rs: seq<Record>)
    ensures multiset(InsertById(x, rs)) == multiset(rs) + multiset{x}
  {
    if rs != [] && x.id > rs[0].id {
      InsertByIdPermutes(x, rs[1..]);
      assert rs == [rs[0]] + rs[1..];
    }
  }

  /** Every id in `InsertById(x, rs)` is at least any lower bound of `x` and of `rs`. */
  lemma {:induction false} InsertByIdBound(x: Record, rs: seq<Record>, lo: int)
    requires lo <= x.id && forall i :: 0 <= i < |rs| ==> lo <= rs[i].id
    ensures |InsertById(x, rs)| == |rs| + 1
    ensures forall i :: 0 <= i < |InsertById(x, rs)| ==> lo <= InsertById(x, rs)[i].id
  {
    if rs != [] && x.id > rs[0].id {
      InsertByIdBound(x, rs[1..], lo);
    }
  }

  lemma {:induction false} InsertByIdSorted(x: Record, rs: seq<Record>)
    requires SortedById(rs)
    ensures SortedById(InsertById(x, rs))
  {
    if rs != [] && x.id > rs[0].id {
      InsertByIdSorted(x, rs[1..]);
      InsertByIdBound(x, rs[1..], rs[0].id);
      var t := InsertById(x, rs[1..]);
      forall i, j | 0 <= i < j < |[rs[0]] + t|
        ensures ([rs[0]] + t)[i].id <= ([rs[0]] + t)[j].id
      {
        if i == 0 {
          assert ([rs[0]] + t)[j] == t[j - 1];
        } else {
          assert ([rs[0]] + t)[i] == t[i - 1] && ([rs[0]] + t)[j] == t[j - 1];
        }
      }
    }
  }

  lemma {:induction false} SortByIdCorrect(rs: seq<Record>)
    ensures SortedById(SortById(rs))
    ensures multiset(SortById(rs)) == multiset(rs)
  {
    if rs != [] {
      SortByIdCorrect(rs[1..]);
      InsertByIdSorted(rs[0], SortById(rs[1..]));
      InsertByIdPermutes(rs[0], SortById(rs[1..]));
      assert rs == [rs[0]] + rs[1..];
    }
  }

  /** A list already in id order comes out of the sort unchanged. */
  lemma {:induction false} SortByIdOfSorted(rs: seq<Record>)
    requires SortedById(rs)
    ensures SortById(rs) == rs
  {
    if rs != [] {
      assert SortedById(rs[1..]) by {
        forall i, j | 0 <= i < j < |rs[1..]|
          ensures rs[1..][i].id <= rs[1..][j].id
        {
          assert rs[1..][i] == rs[i + 1] && rs[1..][j] == rs[j + 1];
        }
      }
      SortByIdOfSorted(rs[1..]);
      assert rs == [rs[0]] + rs[1..];
    }
  }

  /** `queryTypeList` over the store and the `tb_shop_type` rows in `table`. */
  function QueryTypeList(s: Store, table: seq<Record>): (TypeList, Store)
  {
    var list := Elements(s, CACHE_SHOP_TYPE_KEY);
    if |list| > 0 then
      match DecodeAll(list)
      case None => (Threw(MALFORMED), s)
      case Some(rs) => (Listed(SortById(rs)), s)
    else
      var shopTypes := SortById(table);
      if shopTypes == [] then (Threw(EMPTY_PUSH), s)
      else (Listed(shopTypes), RPushAll(s, CACHE_SHOP_TYPE_KEY, EncodeAll(shopTypes)))
  }

  method QueryTypeListAt(redis: Redis, db: Db) returns (r: TypeList)
    modifies redis
    ensures (r, redis.State()) == QueryTypeList(old(redis.State()), db.shopTypes)
  {
    var list := redis.ListRange(CACHE_SHOP_TYPE_KEY);
    if |list| > 0 {
      var decoded := DecodeAll(list);
      if decoded.None? {
        return Threw(MALFORMED);
      }
      return Listed(SortById(decoded.value));
    }
    var shopTypes := SortById(db.shopTypes);
    var stringList := EncodeAll(shopTypes);
    if stringList == [] {
      return Threw(EMPTY_PUSH);
    }
    redis.RightPushAll(CACHE_SHOP_TYPE_KEY, stringList);
    r := Listed(shopTypes);
  }

  /** On a hit the table is not consulted, the store is unchanged, and the result is the cached
      entries, one each, sorted by id. */
  lemma HitIsSortedCache(s: Store, table: seq<Record>, other: seq<Record>)
    requires |Elements(s, CACHE_SHOP_TYPE_KEY)| > 0
    requires DecodeAll(Elements(s, CACHE_SHOP_TYPE_KEY)).Some?
    ensures var (r, s1) := QueryTypeList(s, table);
      var cached := DecodeAll(Elements(s, CACHE_SHOP_TYPE_KEY)).value;
      && s1 == s && r.Listed?
      && SortedById(r.types) && multiset(r.types) == multiset(cached)
      && |r.types| == |Elements(s, CACHE_SHOP_TYPE_KEY)|
      && QueryTypeList(s, other) == QueryTypeList(s, table)
  {
    var cached := DecodeAll(Elements(s, CACHE_SHOP_TYPE_KEY)).value;
    SortByIdCorrect(cached);
    assert |SortById(cached)| == |multiset(SortById(cached))| == |multiset(cached)| == |cached|;
  }

  /** On a miss the table, ordered by id, is returned and appended to the cached list in that order;
      the next call then answers the same list from the cache. */
  lemma MissFillsCache(s: Store, table: seq<Record>, later: seq<Record>)
    requires Elements(s, CACHE_SHOP_TYPE_KEY) == [] && table != []
    ensures var (r, s1) := QueryTypeList(s, table);
      && r == Listed(SortById(table))
      && SortedById(r.types) && multiset(r.types) == multiset(table)
      && Elements(s1, CACHE_SHOP_TYPE_KEY) == EncodeAll(SortById(table))
      && QueryTypeList(s1, later) == (r, s1)
  {
    SortByIdCorrect(table);
    var sorted := SortById(table);
    assert sorted != [] by {
      assert |multiset(sorted)| == |multiset(table)| > 0;
    }
    DecodeEncode(sorted);
    SortByIdOfSorted(sorted);
  }
}
