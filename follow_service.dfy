/** `FollowServiceImpl`: follow and unfollow write `tb_follow` and mirror it into the set
    `follows:<userId>`; `followOrNot` counts rows; `followCommons` intersects two users' sets. */
module FollowService {
  import opened Wrappers
  import opened Text
  import opened RedisStore
  import opened RedisClient
  import opened Database

  const LOGIN_FIRST := "log in before following"

  function FollowsKey(userId: int): string
  {
    "follows:" + IntToString(userId)
  }

  /** `follow(followUserId, isFollow)` for the logged-in `userId`; `saveOk` is what the insert
      reported. The reply, the follow table and the store. */
  function FollowStep(s: Store, follows: seq<Follow>, userId: Option<int>, followUserId: int, isFollow: bool, saveOk: bool)
    : (Result<()>, seq<Follow>, Store)
  {
    if userId.None? then (Fail(LOGIN_FIRST), follows, s)
    else
      var u := userId.value;
      var key, m := FollowsKey(u), IntToString(followUserId);
      if isFollow then
        if saveOk then (Ok(()), follows + [Follow(u, followUserId)], SAdd(s, key, m))
        else (Ok(()), follows, s)
      else
        var removed := |Matching(follows, u, followUserId)| > 0;
        (Ok(()), Without(follows, u, followUserId), if removed then SRem(s, key, m) else s)
  }

  method FollowAt(redis: Redis, db: Db, userId: Option<int>, followUserId: int, isFollow: bool, saveOk: bool)
    returns (r: Result<()>)
    modifies redis, db`follows
    ensures (r, db.follows, redis.State()) == FollowStep(old(redis.State()), old(db.follows), userId, followUserId, isFollow, saveOk)
  {
    if userId.None? {
      return Fail(LOGIN_FIRST);
    }
    var key := FollowsKey(userId.value);
    if isFollow {
      db.SaveFollow(Follow(userId.value, followUserId), saveOk);
      if saveOk {
        redis.SetAdd(key, IntToString(followUserId));
      }
    } else {
      var success := db.RemoveFollow(userId.value, followUserId);
      if success {
        redis.SetRemove(key, IntToString(followUserId));
      }
    }
    r := Ok(());
  }

  lemma {:induction false} MatchingNonEmpty(follows: seq<Follow>, u: int, t: int)
    ensures |Matching(follows, u, t)| > 0 <==> Follow(u, t) in follows
  {
    if follows != [] {
      MatchingNonEmpty(follows[1..], u, t);
      assert follows == [follows[0]] + follows[1..];
    }
  }

  lemma {:induction false} WithoutElements(follows: seq<Follow>, u: int, t: int)
    ensures forall f :: f in Without(follows, u, t) <==> f in follows && f != Follow(u, t)
  {
    if follows != [] {
      WithoutElements(follows[1..], u, t);
      assert follows == [follows[0]] + follows[1..];
    }
  }

  /** `followOrNot`: whether `count()` of the `(userId, followUserId)` rows is positive. */
  method FollowOrNot(db: Db, userId: int, followUserId: int) returns (r: Result<bool>)
    ensures r == Ok(Follow(userId, followUserId) in db.follows)
  {
    var count := |Matching(db.follows, userId, followUserId)|;
    MatchingNonEmpty(db.follows, userId, followUserId);
    r := Ok(count > 0);
  }

  /** `followCommons(id)`: the ids in both users' follow sets (the user lookup that follows is left out). */
  method FollowCommons(redis: Redis, userId: int, id: int) returns (r: Result<set<string>>)
    ensures r.Ok? && (forall m :: m in r.data <==> m in Members(redis.State(), FollowsKey(userId)) && m in Members(redis.State(), FollowsKey(id)))
  {
    var idSet := redis.Intersect(FollowsKey(userId), FollowsKey(id));
    if idSet == {} {
      return Ok({});
    }
    r := Ok(idSet);
  }

  // ------------------------------------------------------------------ the set mirrors the table

  /** The ids a user follows according to `tb_follow`, as the decimal strings the set stores. */
  function FollowedIds(follows: seq<Follow>, u: int): set<string>
  {
    set f | f in follows && f.userId == u :: IntToString(f.followUserId)
  }

  /** The follow set of `u` holds exactly the ids the table says `u` follows. */
  predicate Mirrors(s: Store, follows: seq<Follow>, u: int)
  {
    Members(s, FollowsKey(u)) == FollowedIds(follows, u)
  }

  /** A successful follow adds the id to the set and changes nothing else; a failed save changes nothing. */
  lemma FollowAdds(s: Store, follows: seq<Follow>, u: int, t: int, saveOk: bool, k: string)
    ensures var (r, follows1, s1) := FollowStep(s, follows, Some(u), t, true, saveOk);
      && r == Ok(())
      && Members(s1, k) == (if saveOk && k == FollowsKey(u) then Members(s, k) + {IntToString(t)} else Members(s, k))
      && s1.strings == s.strings && s1.zsets == s.zsets && s1.counters == s.counters
      && follows1 == if saveOk then follows + [Follow(u, t)] else follows
  {
  }

  /** An unfollow removes the id from the set exactly when a row was deleted, and deletes all of them. */
  lemma UnfollowRemoves(s: Store, follows: seq<Follow>, u: int, t: int, k: string)
    ensures var (r, follows1, s1) := FollowStep(s, follows, Some(u), t, false, false);
      && r == Ok(())
      && Members(s1, k) == (if Follow(u, t) in follows && k == FollowsKey(u) then Members(s, k) - {IntToString(t)} else Members(s, k))
      && (forall f :: f in follows1 <==> f in follows && f != Follow(u, t))
      && (Follow(u, t) !in follows ==> s1 == s)
  {
    MatchingNonEmpty(follows, u, t);
    WithoutElements(follows, u, t);
  }

  /** Keys of different users differ. */
  lemma FollowsKeyInjective(u: int, v: int)
    requires FollowsKey(u) == FollowsKey(v)
    ensures u == v
  {
    NumberedKeyInjective("follows:", u, v);
  }

  /** A stored follow by `u` keeps the set of `v` in step with the table. */
  lemma FollowKeepsMirrorOnFollow(s: Store, follows: seq<Follow>, u: int, t: int, v: int)
    requires Mirrors(s, follows, v)
    ensures Mirrors(SAdd(s, FollowsKey(u), IntToString(t)), follows + [Follow(u, t)], v)
  {
    var follows1 := follows + [Follow(u, t)];
    if u == v {
      assert FollowedIds(follows1, v) == FollowedIds(follows, v) + {IntToString(t)} by {
        assert Follow(u, t) in follows1;
      }
    } else {
      if FollowsKey(u) == FollowsKey(v) {
        FollowsKeyInjective(u, v);
      }
      assert FollowedIds(follows1, v) == FollowedIds(follows, v);
    }
  }

  /** Removing the rows of `(u, t)`, and the id when there were any, keeps the set of `v` in step. */
  lemma FollowKeepsMirrorOnUnfollow(s: Store, follows: seq<Follow>, u: int, t: int, v: int)
    requires Mirrors(s, follows, v)
    ensures var s1 := if Follow(u, t) in follows then SRem(s, FollowsKey(u), IntToString(t)) else s;
      Mirrors(s1, Without(follows, u, t), v)
  {
    var follows1 := Without(follows, u, t);
    WithoutElements(follows, u, t);
    if u == v {
      assert FollowedIds(follows1, v) == FollowedIds(follows, v) - {IntToString(t)} by {
        forall f | f in follows && f.userId == v && IntToString(f.followUserId) == IntToString(t)
          ensures f == Follow(u, t)
        {
          IntToStringInjective(f.followUserId, t);
        }
      }
      if Follow(u, t) !in follows {
        assert IntToString(t) !in FollowedIds(follows, v) by {
          forall f | f in follows && f.userId == v
            ensures IntToString(f.followUserId) != IntToString(t)
          {
            if IntToString(f.followUserId) == IntToString(t) {
              IntToStringInjective(f.followUserId, t);
            }
          }
        }
      }
    } else {
      if FollowsKey(u) == FollowsKey(v) {
        FollowsKeyInjective(u, v);
      }
      assert FollowedIds(follows1, v) == FollowedIds(follows, v);
    }
  }

  /** Every `follow` call keeps every user's set in step with the table. */
  lemma FollowKeepsMirror(s: Store, follows: seq<Follow>, userId: Option<int>, t: int, isFollow: bool, saveOk: bool, v: int)
    requires Mirrors(s, follows, v)
    ensures var (_, follows1, s1) := FollowStep(s, follows, userId, t, isFollow, saveOk);
      Mirrors(s1, follows1, v)
  {
    if userId.Some? {
      if isFollow && saveOk {
        FollowKeepsMirrorOnFollow(s, follows, userId.value, t, v);
      } else if !isFollow {
        MatchingNonEmpty(follows, userId.value, t);
        FollowKeepsMirrorOnUnfollow(s, follows, userId.value, t, v);
      }
    }
  }

  /** With both sets in step with the table, the common follows are exactly the users both follow. */
  lemma CommonsAreSharedFollows(s: Store, follows: seq<Follow>, u: int, w: int, t: int)
    requires Mirrors(s, follows, u) && Mirrors(s, follows, w)
    ensures IntToString(t) in SInter(s, FollowsKey(u), FollowsKey(w))
        <==> Follow(u, t) in follows && Follow(w, t) in follows
  {
    if IntToString(t) in FollowedIds(follows, u) {
      var f :| f in follows && f.userId == u && IntToString(f.followUserId) == IntToString(t);
      IntToStringInjective(f.followUserId, t);
    }
    if IntToString(t) in FollowedIds(follows, w) {
      var f :| f in follows && f.userId == w && IntToString(f.followUserId) == IntToString(t);
      IntToStringInjective(f.followUserId, t);
    }
  }
}
