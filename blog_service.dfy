/** `BlogServiceImpl`: the like toggle over the `liked` column and the `blog:liked:<id>` sorted set,
    the top-five likers, the fan-out of a new blog into its author's followers' feeds, and the
    scroll cursor over a feed page. */
module BlogService {
  import opened Wrappers
  import opened Text
  import opened RedisStore
  import opened RedisClient
  import opened RedisConstants
  import opened Database
  import opened SortedSet

  const LOGIN_FIRST := "log in before liking"
  const SAVE_FAILED := "saving the blog failed"
  const NO_NEWS := "no new messages"

  function LikedKey(blogId: int): string
  {
    BLOG_LIKED_KEY + IntToString(blogId)
  }

  function FeedKey(userId: int): string
  {
    FEED_KEY + IntToString(userId)
  }

  // ------------------------------------------------------------------ likeBlog

  /** `likeBlog` for the logged-in user's id `userId` at `nowMillis`: the reply, the blog table and the
      store. A user not yet in the liked set adds one like; one already there takes it back; the set
      follows only when the row update succeeded. */
  function Like(s: Store, blogs: map<int, Blog>, id: int, userId: Option<int>, nowMillis: int)
    : (Result<()>, map<int, Blog>, Store)
  {
    if userId.None? then (Fail(LOGIN_FIRST), blogs, s)
    else
      var key := LikedKey(id);
      var m := IntToString(userId.value);
      var liked := ZScore(s, key, m).Some?;
      if id !in blogs then (Ok(()), blogs, s)
      else
        var delta := if liked then -1 else 1;
        (Ok(()), blogs[id := blogs[id].(liked := blogs[id].liked + delta)],
         if liked then ZRem(s, key, m) else ZAdd(s, key, m, nowMillis))
  }

  method LikeBlog(redis: Redis, db: Db, id: int, userId: Option<int>, nowMillis: int) returns (r: Result<()>)
    modifies redis, db`blogs
    ensures (r, db.blogs, redis.State()) == Like(old(redis.State()), old(db.blogs), id, userId, nowMillis)
  {
    if userId.None? {
      return Fail(LOGIN_FIRST);
    }
    var key := LikedKey(id);
    var member := IntToString(userId.value);
    var score := redis.Score(key, member);
    if score.None? {
      var success := db.UpdateLiked(id, 1);
      if success {
        redis.SortedAdd(key, member, nowMillis);
      }
    } else {
      var success := db.UpdateLiked(id, -1);
      if success {
        redis.SortedRemove(key, member);
      }
    }
    r := Ok(());
  }

  /** A first like adds one to `liked` and puts the user in the set, scored by the time. */
  lemma LikeWhenNotLiked(s: Store, blogs: map<int, Blog>, id: int, u: int, nowMillis: int, k: string, m: string)
    requires id in blogs && ZScore(s, LikedKey(id), IntToString(u)).None?
    ensures var (r, blogs1, s1) := Like(s, blogs, id, Some(u), nowMillis);
      && r == Ok(()) && blogs1 == blogs[id := blogs[id].(liked := blogs[id].liked + 1)]
      && ZScore(s1, k, m) == if k == LikedKey(id) && m == IntToString(u) then Some(nowMillis) else ZScore(s, k, m)
  {
    ZScoreAfterZAdd(s, LikedKey(id), IntToString(u), nowMillis, k, m);
  }

  /** A second like takes one off `liked` and removes the user from the set. */
  lemma LikeWhenLiked(s: Store, blogs: map<int, Blog>, id: int, u: int, nowMillis: int, k: string, m: string)
    requires id in blogs && ZScore(s, LikedKey(id), IntToString(u)).Some?
    ensures var (r, blogs1, s1) := Like(s, blogs, id, Some(u), nowMillis);
      && r == Ok(()) && blogs1 == blogs[id := blogs[id].(liked := blogs[id].liked - 1)]
      && ZScore(s1, k, m) == if k == LikedKey(id) && m == IntToString(u) then None else ZScore(s, k, m)
  {
    ZScoreAfterZRem(s, LikedKey(id), IntToString(u), k, m);
  }

  /** When the row update fails (no such blog), or nobody is logged in, nothing changes. */
  lemma LikeWithoutRow(s: Store, blogs: map<int, Blog>, id: int, userId: Option<int>, nowMillis: int)
    requires id !in blogs || userId.None?
    ensures Like(s, blogs, id, userId, nowMillis).1 == blogs && Like(s, blogs, id, userId, nowMillis).2 == s
  {
  }

  /** Two likes by the same user restore the count and whether the user is in the set; when the
      first one was a like, every score is as it was. */
  lemma LikeTwiceRestores(s: Store, blogs: map<int, Blog>, id: int, u: int, t1: int, t2: int, k: string, m: string)
    requires id in blogs
    ensures var (_, blogs1, s1) := Like(s, blogs, id, Some(u), t1);
      var (_, blogs2, s2) := Like(s1, blogs1, id, Some(u), t2);
      && blogs2 == blogs
      && ZScore(s2, k, m).Some? == ZScore(s, k, m).Some?
      && (ZScore(s, LikedKey(id), IntToString(u)).None? ==> ZScore(s2, k, m) == ZScore(s, k, m))
  {
    var key, member := LikedKey(id), IntToString(u);
    var (_, blogs1, s1) := Like(s, blogs, id, Some(u), t1);
    if ZScore(s, key, member).None? {
      ZScoreAfterZAdd(s, key, member, t1, key, member);
      ZScoreAfterZAdd(s, key, member, t1, k, m);
      ZScoreAfterZRem(s1, key, member, k, m);
    } else {
      ZScoreAfterZRem(s, key, member, key, member);
      ZScoreAfterZRem(s, key, member, k, m);
      ZScoreAfterZAdd(s1, key, member, t2, k, m);
    }
  }

  // ------------------------------------------------------------------ isBlogLiked / queryBlogLikes

  /** `isBlogLiked`: with a logged-in user, `isLike` becomes whether that user is in the liked set;
      without one the blog is left as it is. */
  method IsBlogLiked(redis: Redis, blog: Blog, userId: Option<int>) returns (b: Blog)
    ensures userId.None? ==> b == blog
    ensures userId.Some? ==> b == blog.(isLike := b.isLike)
    ensures userId.Some? ==> (b.isLike <==> ZScore(redis.State(), LikedKey(blog.id), IntToString(userId.value)).Some?)
  {
    if userId.None? {
      return blog;
    }
    var score := redis.Score(LikedKey(blog.id), IntToString(userId.value));
    b := blog.(isLike := score != None);
  }

  /** `queryBlogLikes`: the first five members of the liked set (`ZRANGE key 0 4`). */
  method QueryBlogLikes(redis: Redis, id: int) returns (r: Result<seq<string>>)
    ensures r == Ok(ZRangeFromStart(redis.State(), LikedKey(id), 4))
  {
    var likers := redis.Range(LikedKey(id), 4);
    if likers == [] {
      return Ok([]);
    }
    r := Ok(likers);
  }

  /** At most five likers, the earliest-ranked ones in rank order, none exactly when the set is empty. */
  lemma TopFiveLikers(s: Store, id: int)
    ensures var r := ZRangeFromStart(s, LikedKey(id), 4);
      var z := Ranking(s, LikedKey(id));
      && |r| == (if |z| < 5 then |z| else 5)
      && (forall i :: 0 <= i < |r| ==> r[i] == z[i].member)
      && (r == [] <==> z == [])
  {
  }

  // ------------------------------------------------------------------ saveBlog

  /** Adds `blogId` to the feed of every fan, all with one score. */
  function FanOut(s: Store, fans: seq<int>, blogId: int, time: int): Store
    decreases |fans|
  {
    if fans == [] then s
    else ZAdd(FanOut(s, fans[..|fans| - 1], blogId, time), FeedKey(fans[|fans| - 1]), IntToString(blogId), time)
  }

  /** The feed keys of the given fans. */
  function FeedKeys(fans: seq<int>): set<string>
  {
    set u | u in fans :: FeedKey(u)
  }

  lemma FeedKeysSnoc(fans: seq<int>)
    requires fans != []
    ensures FeedKeys(fans) == FeedKeys(fans[..|fans| - 1]) + {FeedKey(fans[|fans| - 1])}
  {
    assert fans == fans[..|fans| - 1] + [fans[|fans| - 1]];
  }

  lemma FeedKeyDistinct(u: int, v: int)
    requires u != v
    ensures FeedKey(u) != FeedKey(v)
  {
    if FeedKey(u) == FeedKey(v) {
      NumberedKeyInjective(FEED_KEY, u, v);
    }
  }

  /** A user's feed is among the fan-out targets exactly when the user is a fan. */
  lemma FeedKeysMembers(fans: seq<int>, u: int)
    ensures FeedKey(u) in FeedKeys(fans) <==> u in fans
  {
    if FeedKey(u) in FeedKeys(fans) {
      var v :| v in fans && FeedKey(v) == FeedKey(u);
      if v != u {
        FeedKeyDistinct(v, u);
      }
    }
  }

  lemma {:induction false} FollowersMembers(follows: seq<Follow>, authorId: int, u: int)
    ensures u in Followers(follows, authorId) <==> Follow(u, authorId) in follows
  {
    if follows != [] {
      FollowersMembers(follows[1..], authorId, u);
      assert follows == [follows[0]] + follows[1..];
    }
  }

  /** After the fan-out, a feed holds the blog at the shared score exactly when it is a fan's feed;
      every other score is untouched. */
  lemma {:induction false} FanOutScores(s: Store, fans: seq<int>, blogId: int, time: int, k: string, m: string)
    ensures ZScore(FanOut(s, fans, blogId, time), k, m)
         == if m == IntToString(blogId) && k in FeedKeys(fans) then Some(time) else ZScore(s, k, m)
    decreases |fans|
  {
    if fans != [] {
      var init := fans[..|fans| - 1];
      FanOutScores(s, init, blogId, time, k, m);
      FeedKeysSnoc(fans);
      ZScoreAfterZAdd(FanOut(s, init, blogId, time), FeedKey(fans[|fans| - 1]), IntToString(blogId), time, k, m);
    }
  }

  method FanOutTo(redis: Redis, fans: seq<int>, blogId: int, time: int)
    modifies redis
    ensures redis.State() == FanOut(old(redis.State()), fans, blogId, time)
  {
    var i := 0;
    while i < |fans|
      invariant 0 <= i <= |fans|
      invariant redis.State() == FanOut(old(redis.State()), fans[..i], blogId, time)
    {
      redis.SortedAdd(FeedKey(fans[i]), IntToString(blogId), time);
      assert fans[..i + 1][..i] == fans[..i];
      i := i + 1;
    }
    assert fans[..i] == fans;
  }

  /** `saveBlog` by `authorId` at `nowMillis`; `saved` is what the insert reported. */
  method SaveBlog(redis: Redis, db: Db, blog: Blog, authorId: int, saved: bool, nowMillis: int) returns (r: Result<int>)
    modifies redis, db`blogs
    ensures r == if saved then Ok(blog.id) else Fail(SAVE_FAILED)
    ensures db.blogs == if saved then old(db.blogs)[blog.id := blog.(userId := authorId)] else old(db.blogs)
    ensures redis.State() == if saved then FanOut(old(redis.State()), Followers(db.follows, authorId), blog.id, nowMillis)
                             else old(redis.State())
  {
    var b := blog.(userId := authorId);
    db.SaveBlog(b, saved);
    if !saved {
      return Fail(SAVE_FAILED);
    }
    var fans := Followers(db.follows, authorId);
    FanOutTo(redis, fans, b.id, nowMillis);
    r := Ok(b.id);
  }

  /** A saved blog lands, with the one shared score, in the feed of exactly the author's followers. */
  lemma SaveBlogReachesFollowers(s: Store, follows: seq<Follow>, blogId: int, authorId: int, time: int, u: int, m: string)
    ensures ZScore(FanOut(s, Followers(follows, authorId), blogId, time), FeedKey(u), m)
         == if m == IntToString(blogId) && Follow(u, authorId) in follows then Some(time) else ZScore(s, FeedKey(u), m)
  {
    FanOutScores(s, Followers(follows, authorId), blogId, time, FeedKey(u), m);
    FeedKeysMembers(Followers(follows, authorId), u);
    FollowersMembers(follows, authorId, u);
  }

  // ------------------------------------------------------------------ queryBlogOfFollow

  /** One page of a feed: the blog ids, the smallest score seen, and how many entries carry it. */
  datatype ScrollResult = ScrollResult(ids: seq<string>, minTime: int, offset: int)

  function Ids(ts: seq<ZMember>): (r: seq<string>)
    ensures |r| == |ts| && forall i :: 0 <= i < |ts| ==> r[i] == ts[i].member
  {
    seq(|ts|, i requires 0 <= i < |ts| => ts[i].member)
  }

  /** How many entries at the end of the page share the last entry's score. */
  function Run(ts: seq<ZMember>): (n: nat)
    ensures ts != [] ==> 1 <= n <= |ts|
    decreases |ts|
  {
    if |ts| == 0 then 0
    else if |ts| >= 2 && ts[|ts| - 2].score == ts[|ts| - 1].score then 1 + Run(ts[..|ts| - 1])
    else 1
  }

  predicate AllZero(ts: seq<ZMember>)
  {
    forall i :: 0 <= i < |ts| ==> ts[i].score == 0
  }

  /** The cursor the loop means to compute: the last score, and the number of entries at the end of
      the page with that score, which the next request skips. The loop starts from `minTime = 0`, so
      a page scored 0 throughout counts one more. */
  function Cursor(ts: seq<ZMember>): ScrollResult
  {
    if ts == [] then ScrollResult([], 0, 1)
    else ScrollResult(Ids(ts), ts[|ts| - 1].score, Run(ts) + if AllZero(ts) then 1 else 0)
  }

  /** `Cursor` extended by one entry, as one turn of the loop. */
  lemma CursorStep(ts: seq<ZMember>, x: ZMember)
    ensures var c := Cursor(ts);
      Cursor(ts + [x]) == if c.minTime == x.score then ScrollResult(c.ids + [x.member], c.minTime, c.offset + 1)
                          else ScrollResult(c.ids + [x.member], x.score, 1)
  {
    var q := ts + [x];
    assert q[..|q| - 1] == ts;
    assert Ids(q) == Ids(ts) + [x.member];
    if ts != [] && !AllZero(ts) {
      var i :| 0 <= i < |ts| && ts[i].score != 0;
      assert q[i] == ts[i];
    }
  }

  lemma CursorStepAt(ts: seq<ZMember>, i: int)
    requires 0 <= i < |ts|
    ensures var c := Cursor(ts[..i]);
      Cursor(ts[..i + 1]) == if c.minTime == ts[i].score then ScrollResult(c.ids + [ts[i].member], c.minTime, c.offset + 1)
                             else ScrollResult(c.ids + [ts[i].member], ts[i].score, 1)
  {
    CursorStep(ts[..i], ts[i]);
    assert ts[..i + 1] == ts[..i] + [ts[i]];
  }

  /** The loop of `queryBlogOfFollow` with the comparison against `minTime`. */
  method ScrollCursor(ts: seq<ZMember>) returns (ids: seq<string>, minTime: int, os: int)
    ensures ScrollResult(ids, minTime, os) == Cursor(ts)
  {
    ids, minTime, os := [], 0, 1;
    var i := 0;
    while i < |ts|
      invariant 0 <= i <= |ts|
      invariant ScrollResult(ids, minTime, os) == Cursor(ts[..i])
    {
      CursorStepAt(ts, i);
      ids := ids + [ts[i].member];
      var time := ts[i].score;
      if minTime == time {
        os := os + 1;
      } else {
        minTime := time;
        os := 1;
      }
      i := i + 1;
    }
    assert ts[..i] == ts;
  }

  /** The cursor has one id per entry in page order, an offset of at least one, and the page's last score. */
  lemma CursorShape(ts: seq<ZMember>)
    ensures var c := Cursor(ts);
      && c.ids == Ids(ts) && c.offset >= 1
      && (ts != [] ==> c.minTime == ts[|ts| - 1].score)
      && (ts != [] && ts[0].score != 0 ==> c.offset == Run(ts))
  {
  }

  /** The loop as written compares the offset, not `minTime`, with each score. */
  function AsWrittenCursor(ts: seq<ZMember>): ScrollResult
    decreases |ts|
  {
    if ts == [] then ScrollResult([], 0, 1)
    else
      var c := AsWrittenCursor(ts[..|ts| - 1]);
      var x := ts[|ts| - 1];
      if c.offset == x.score then ScrollResult(c.ids + [x.member], c.minTime, c.offset + 1)
      else ScrollResult(c.ids + [x.member], x.score, 1)
  }

  /** The as-written cursor still lists one id per entry in page order, with an offset of at least one. */
  lemma {:induction false} AsWrittenCursorIds(ts: seq<ZMember>)
    ensures AsWrittenCursor(ts).ids == Ids(ts) && AsWrittenCursor(ts).offset >= 1
    decreases |ts|
  {
    if ts != [] {
      var init := ts[..|ts| - 1];
      AsWrittenCursorIds(init);
      assert Ids(ts) == Ids(init) + [ts[|ts| - 1].member];
    }
  }

  method ScrollCursorAsWritten(ts: seq<ZMember>) returns (ids: seq<string>, minTime: int, os: int)
    ensures ScrollResult(ids, minTime, os) == AsWrittenCursor(ts)
    ensures ids == Ids(ts) && os >= 1
  {
    ids, minTime, os := [], 0, 1;
    var i := 0;
    while i < |ts|
      invariant 0 <= i <= |ts|
      invariant ScrollResult(ids, minTime, os) == AsWrittenCursor(ts[..i])
      invariant ids == Ids(ts[..i]) && os >= 1
    {
      assert ts[..i + 1][..i] == ts[..i];
      ids := ids + [ts[i].member];
      var time := ts[i].score;
      if os == time {
        os := os + 1;
      } else {
        minTime := time;
        os := 1;
      }
      i := i + 1;
    }
    assert ts[..i] == ts;
  }

  /** Two entries with the same timestamp: as written the next request skips one, not two, so the
      second entry is delivered again; a single entry scored 1 keeps `minTime` at 0. */
  lemma AsWrittenCursorMiscounts()
    ensures AsWrittenCursor([ZMember("11", 5), ZMember("12", 5)]) == ScrollResult(["11", "12"], 5, 1)
    ensures Cursor([ZMember("11", 5), ZMember("12", 5)]) == ScrollResult(["11", "12"], 5, 2)
    ensures AsWrittenCursor([ZMember("11", 1)]) == ScrollResult(["11"], 0, 2)
    ensures Cursor([ZMember("11", 1)]) == ScrollResult(["11"], 1, 1)
  {
    var p := [ZMember("11", 5), ZMember("12", 5)];
    assert p[..1] == [ZMember("11", 5)];
    assert [ZMember("11", 5)][..0] == [];
    assert [ZMember("11", 1)][..0] == [];
    assert !AllZero(p) by { assert p[0].score != 0; }
    assert !AllZero([ZMember("11", 1)]) by { assert [ZMember("11", 1)][0].score != 0; }
  }

  /** `queryBlogOfFollow` as written: up to two feed entries scored in [0, max], after skipping
      `offset`, with the cursor of the loop that compares `os` with each score. */
  function FeedPage(s: Store, userId: int, max: int, offset: int): Result<ScrollResult>
  {
    var tuples := ZRevRangeByScore(s, FeedKey(userId), 0, max, offset, 2);
    if tuples == [] then Fail(NO_NEWS) else Ok(AsWrittenCursor(tuples))
  }

  method QueryBlogOfFollow(redis: Redis, userId: int, max: int, offset: int) returns (r: Result<ScrollResult>)
    ensures r == FeedPage(redis.State(), userId, max, offset)
  {
    var typedTuples := redis.ReverseRangeByScore(FeedKey(userId), 0, max, offset, 2);
    if typedTuples == [] {
      return Fail(NO_NEWS);
    }
    var ids, minTime, os := ScrollCursorAsWritten(typedTuples);
    r := Ok(ScrollResult(ids, minTime, os));
  }

  /** `queryBlogOfFollow` with the loop comparing `minTime`, as its comments describe. */
  function FeedPageIntended(s: Store, userId: int, max: int, offset: int): Result<ScrollResult>
  {
    var tuples := ZRevRangeByScore(s, FeedKey(userId), 0, max, offset, 2);
    if tuples == [] then Fail(NO_NEWS) else Ok(Cursor(tuples))
  }

  method QueryBlogOfFollowIntended(redis: Redis, userId: int, max: int, offset: int) returns (r: Result<ScrollResult>)
    ensures r == FeedPageIntended(redis.State(), userId, max, offset)
  {
    var typedTuples := redis.ReverseRangeByScore(FeedKey(userId), 0, max, offset, 2);
    if typedTuples == [] {
      return Fail(NO_NEWS);
    }
    var ids, minTime, os := ScrollCursor(typedTuples);
    r := Ok(ScrollResult(ids, minTime, os));
  }

  /** Both versions fail on the same pages and list the same blog ids in page order; they differ
      only in `minTime` and `offset`. */
  lemma FeedPagesShareIds(s: Store, userId: int, max: int, offset: int)
    ensures var tuples := ZRevRangeByScore(s, FeedKey(userId), 0, max, offset, 2);
      var r, q := FeedPage(s, userId, max, offset), FeedPageIntended(s, userId, max, offset);
      && (r.Fail? <==> q.Fail?)
      && (r.Ok? ==> r.data.ids == q.data.ids == Ids(tuples))
  {
    var tuples := ZRevRangeByScore(s, FeedKey(userId), 0, max, offset, 2);
    CursorShape(tuples);
    AsWrittenCursorIds(tuples);
  }

  /** An empty page fails; otherwise the page holds one or two entries, all scored within [0, max]. */
  lemma {:induction false} FeedPageBounds(s: Store, userId: int, max: int, offset: int)
    ensures var tuples := ZRevRangeByScore(s, FeedKey(userId), 0, max, offset, 2);
      && (FeedPage(s, userId, max, offset).Fail? <==> tuples == [])
      && (FeedPageIntended(s, userId, max, offset).Fail? <==> tuples == [])
      && |tuples| <= 2
      && (forall i :: 0 <= i < |tuples| ==> 0 <= tuples[i].score <= max)
  {
    var z := Ranking(s, FeedKey(userId));
    var desc := Reverse(InScore(z, 0, max));
    InScoreBounds(z, 0, max);
    ReverseElements(InScore(z, 0, max));
    forall i | 0 <= i < |desc|
      ensures 0 <= desc[i].score <= max
    {
      assert desc[i] in desc;
    }
    var tuples := ZRevRangeByScore(s, FeedKey(userId), 0, max, offset, 2);
    if tuples != [] {
      assert forall i :: 0 <= i < |tuples| ==> tuples[i] == desc[offset + i];
    }
  }

  lemma {:induction false} InScoreBounds(z: seq<ZMember>, min: int, max: int)
    ensures forall y :: y in InScore(z, min, max) ==> min <= y.score <= max
  {
    if z != [] {
      InScoreBounds(z[1..], min, max);
    }
  }

  lemma {:induction false} ReverseElements(z: seq<ZMember>)
    ensures forall y :: y in Reverse(z) <==> y in z
  {
    if z != [] {
      ReverseElements(z[1..]);
      assert z == [z[0]] + z[1..];
    }
  }
}
