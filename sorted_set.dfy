/** Facts about the sorted-set commands of `Store`: ZADD and ZREM keep a set in rank order,
    and ZSCORE afterwards sees exactly the change the command made. */
module SortedSet {
  import opened Wrappers
  import opened RedisStore

  lemma {:induction false} StrLessIrreflexive(a: string)
    ensures !StrLess(a, a)
  {
    if |a| > 0 {
      StrLessIrreflexive(a[1..]);
    }
  }

  lemma {:induction false} StrLessTransitive(a: string, b: string, c: string)
    requires StrLess(a, b) && StrLess(b, c)
    ensures StrLess(a, c)
  {
    if |a| > 0 && a[0] == b[0] && b[0] == c[0] {
      StrLessTransitive(a[1..], b[1..], c[1..]);
    }
  }

  lemma {:induction false} StrLessTotal(a: string, b: string)
    requires a != b
    ensures StrLess(a, b) || StrLess(b, a)
  {
    if |a| > 0 && |b| > 0 && a[0] == b[0] {
      assert a == [a[0]] + a[1..] && b == [b[0]] + b[1..];
      StrLessTotal(a[1..], b[1..]);
    }
  }

  lemma ZLessTransitive(x: ZMember, y: ZMember, w: ZMember)
    requires ZLess(x, y) && ZLess(y, w)
    ensures ZLess(x, w)
  {
    if x.score == y.score == w.score {
      StrLessTransitive(x.member, y.member, w.member);
    }
  }

  lemma RankedCons(a: ZMember, w: seq<ZMember>)
    requires Ranked(w)
    requires forall y :: y in w ==> ZLess(a, y)
    ensures Ranked([a] + w)
  {
    var z := [a] + w;
    forall i, j | 0 <= i < j < |z| ensures ZLess(z[i], z[j]) {
      if i > 0 {
        assert z[i] == w[i - 1] && z[j] == w[j - 1];
      } else {
        assert z[j] == w[j - 1] && z[j] in w;
      }
    }
  }

  lemma {:induction false} RemoveElements(z: seq<ZMember>, m: string)
    ensures forall y :: y in Remove(z, m) <==> y in z && y.member != m
  {
    if z != [] {
      RemoveElements(z[1..], m);
      assert z == [z[0]] + z[1..];
    }
  }

  lemma {:induction false} InsertElements(z: seq<ZMember>, x: ZMember)
    ensures forall y :: y in Insert(z, x) <==> y in z || y == x
  {
    if z != [] && ZLess(z[0], x) {
      InsertElements(z[1..], x);
      assert z == [z[0]] + z[1..];
    }
  }

  lemma {:induction false} RemoveRanked(z: seq<ZMember>, m: string)
    requires Ranked(z)
    ensures Ranked(Remove(z, m))
  {
    if z != [] {
      assert Ranked(z[1..]) by {
        forall i, j | 0 <= i < j < |z| - 1 ensures ZLess(z[1..][i], z[1..][j]) {
          assert z[1..][i] == z[i + 1] && z[1..][j] == z[j + 1];
        }
      }
      RemoveRanked(z[1..], m);
      if z[0].member != m {
        RemoveElements(z[1..], m);
        forall y | y in Remove(z[1..], m) ensures ZLess(z[0], y) {
          var k :| 0 <= k < |z[1..]| && z[1..][k] == y;
          assert z[k + 1] == y;
        }
        RankedCons(z[0], Remove(z[1..], m));
      }
    }
  }

  lemma {:induction false} InsertRanked(z: seq<ZMember>, x: ZMember)
    requires Ranked(z)
    requires forall y :: y in z ==> y.member != x.member
    ensures Ranked(Insert(z, x))
  {
    if z == [] {
    } else if ZLess(z[0], x) {
      assert Ranked(z[1..]) by {
        forall i, j | 0 <= i < j < |z| - 1 ensures ZLess(z[1..][i], z[1..][j]) {
          assert z[1..][i] == z[i + 1] && z[1..][j] == z[j + 1];
        }
      }
      assert forall y :: y in z[1..] ==> y in z;
      InsertRanked(z[1..], x);
      InsertElements(z[1..], x);
      forall y | y in Insert(z[1..], x) ensures ZLess(z[0], y) {
        if y != x {
          var k :| 0 <= k < |z[1..]| && z[1..][k] == y;
          assert z[k + 1] == y;
        }
      }
      RankedCons(z[0], Insert(z[1..], x));
    } else {
      assert z[0] in z;
      StrLessTotal(z[0].member, x.member);
      assert ZLess(x, z[0]);
      forall y | y in z ensures ZLess(x, y) {
        var k :| 0 <= k < |z| && z[k] == y;
        if k > 0 {
          ZLessTransitive(x, z[0], y);
        }
      }
      RankedCons(x, z);
    }
  }

  /** ZADD keeps a sorted set in rank order. */
  lemma ZAddKeepsRanked(s: Store, key: string, m: string, score: int)
    requires Ranked(Ranking(s, key))
    ensures Ranked(Ranking(ZAdd(s, key, m, score), key))
  {
    var z := Ranking(s, key);
    RemoveRanked(z, m);
    RemoveElements(z, m);
    InsertRanked(Remove(z, m), ZMember(m, score));
  }

  /** ZREM keeps a sorted set in rank order. */
  lemma ZRemKeepsRanked(s: Store, key: string, m: string)
    requires Ranked(Ranking(s, key))
    ensures Ranked(Ranking(ZRem(s, key, m), key))
  {
    RemoveRanked(Ranking(s, key), m);
  }

  lemma {:induction false} FindRemove(z: seq<ZMember>, m: string, m2: string)
    ensures Find(Remove(z, m), m2) == if m2 == m then None else Find(z, m2)
  {
    if z != [] {
      FindRemove(z[1..], m, m2);
      if z[0].member != m {
        assert ([z[0]] + Remove(z[1..], m))[1..] == Remove(z[1..], m);
      }
    }
  }

  lemma {:induction false} FindInsert(z: seq<ZMember>, x: ZMember, m2: string)
    requires Find(z, x.member) == None
    ensures Find(Insert(z, x), m2) == if m2 == x.member then Some(x.score) else Find(z, m2)
  {
    if z != [] && ZLess(z[0], x) {
      FindInsert(z[1..], x, m2);
      assert ([z[0]] + Insert(z[1..], x))[1..] == Insert(z[1..], x);
    } else if z != [] {
      assert ([x] + z)[1..] == z;
    }
  }

  /** After ZADD the member has the new score; every other member and key reads as before. */
  lemma ZScoreAfterZAdd(s: Store, key: string, m: string, score: int, k2: string, m2: string)
    ensures ZScore(ZAdd(s, key, m, score), k2, m2)
         == if k2 == key && m2 == m then Some(score) else ZScore(s, k2, m2)
  {
    if k2 == key {
      var z := Ranking(s, key);
      FindRemove(z, m, m);
      FindRemove(z, m, m2);
      FindInsert(Remove(z, m), ZMember(m, score), m2);
    }
  }

  /** After ZREM the member is gone; every other member and key reads as before. */
  lemma ZScoreAfterZRem(s: Store, key: string, m: string, k2: string, m2: string)
    ensures ZScore(ZRem(s, key, m), k2, m2)
         == if k2 == key && m2 == m then None else ZScore(s, k2, m2)
  {
    if k2 == key {
      FindRemove(Ranking(s, key), m, m2);
    }
  }
}
