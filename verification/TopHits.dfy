/**
 The query's "order by score, limit k" as a relation, ties being the database's choice: a result is a
 best selection of the candidates. Limiting two branches before their union loses nothing.
 */
module TopHits {
  import opened Common

  ghost predicate Descending<T>(s: seq<T>, score: T -> real) {
    forall i, j :: 0 <= i < j < |s| ==> score(s[i]) >= score(s[j])
  }

  /** `s` has `min(k, all)` of the candidates, and none that was left out scores higher than any in it. */
  ghost predicate BestOf<T(!new)>(s: multiset<T>, all: multiset<T>, k: nat, score: T -> real) {
    && s <= all && |s| == Min(k, |all|)
    && forall x, y :: x in s && y in all - s ==> score(x) >= score(y)
  }

  ghost predicate IsTop<T(!new)>(s: seq<T>, all: multiset<T>, k: nat, score: T -> real) {
    Descending(s, score) && BestOf(multiset(s), all, k, score)
  }

  lemma SameSize<T>(a: multiset<T>, b: multiset<T>)
    requires a <= b && |a| == |b|
    ensures a == b
  {
    assert b == a + (b - a);
    assert |b - a| == 0;
  }

  /** If `x` made it into the result, no candidate that its branch left out beats it. */
  lemma BranchLosesNothing<T(!new)>(
    r: multiset<T>, f: multiset<T>, both: multiset<T>, all: multiset<T>, k: nat, score: T -> real, x: T, h: T)
    requires BestOf(f, all, k, score) && BestOf(r, both, k, score) && f <= both
    requires x in r && h in all - f
    ensures score(x) >= score(h)
  {
    assert |f| == k by {
      assert all == f + (all - f);
      assert |all| == |f| + |all - f|;
    }
    assert |r| == k by {
      assert both == f + (both - f);
      assert |both| == |f| + |both - f|;
    }
    if x !in f {
      assert !(f <= r) by {
        if f <= r {
          SameSize(f, r);
        }
      }
      var y :| f[y] > r[y];
      assert y in both - r && y in f;
    }
  }

  /**
   The best k of the two branches' best k are a best k of everything both branches could offer: there
   are min(k, total) of them and each scores at least as high as every candidate left out.
   */
  lemma TopOfTops<T(!new)>(
    r: seq<T>, f: seq<T>, l: seq<T>, frozen: multiset<T>, live: multiset<T>, k: nat, score: T -> real)
    requires IsTop(f, frozen, k, score) && IsTop(l, live, k, score)
    requires IsTop(r, multiset(f) + multiset(l), k, score)
    ensures IsTop(r, frozen + live, k, score)
  {
    var mr, mf, ml := multiset(r), multiset(f), multiset(l);
    var both, all := mf + ml, frozen + live;
    assert |both| == |mf| + |ml| && |all| == |frozen| + |live|;
    forall x, h | x in mr && h in all - mr ensures score(x) >= score(h) {
      if h in frozen - mf {
        BranchLosesNothing(mr, mf, both, frozen, k, score, x, h);
      } else if h in live - ml {
        BranchLosesNothing(mr, ml, both, live, k, score, x, h);
      } else {
        assert h in both - mr;
      }
    }
  }

  // ---- such results exist -----------------------------------------------------------------------

  function Insert<T>(x: T, s: seq<T>, score: T -> real): seq<T> {
    if s == [] then [x]
    else if score(x) >= score(s[0]) then [x] + s
    else [s[0]] + Insert(x, s[1..], score)
  }

  function Sorted<T>(s: seq<T>, score: T -> real): seq<T> {
    if s == [] then [] else Insert(s[0], Sorted(s[1..], score), score)
  }

  lemma {:induction false} InsertKeeps<T>(x: T, s: seq<T>, score: T -> real)
    ensures multiset(Insert(x, s, score)) == multiset{x} + multiset(s)
  {
    if s != [] {
      assert s == [s[0]] + s[1..];
      InsertKeeps(x, s[1..], score);
    }
  }

  ghost predicate AtMost<T>(s: seq<T>, bound: real, score: T -> real) {
    forall i :: 0 <= i < |s| ==> score(s[i]) <= bound
  }

  /** Descending, element by element. */
  ghost predicate Falling<T>(s: seq<T>, score: T -> real) {
    s != [] ==> AtMost(s[1..], score(s[0]), score) && Falling(s[1..], score)
  }

  lemma {:induction false} InsertAtMost<T>(x: T, s: seq<T>, bound: real, score: T -> real)
    requires AtMost(s, bound, score) && score(x) <= bound
    ensures AtMost(Insert(x, s, score), bound, score)
  {
    if s != [] {
      InsertAtMost(x, s[1..], bound, score);
    }
  }

  lemma {:induction false} InsertFalls<T>(x: T, s: seq<T>, score: T -> real)
    requires Falling(s, score)
    ensures Falling(Insert(x, s, score), score)
  {
    if s != [] {
      if score(x) >= score(s[0]) {
        assert ([x] + s)[1..] == s;
        assert AtMost(s, score(x), score) by {
          forall i | 0 <= i < |s| ensures score(s[i]) <= score(x) {
            assert i > 0 ==> s[i] == s[1..][i - 1];
          }
        }
      } else {
        InsertFalls(x, s[1..], score);
        InsertAtMost(x, s[1..], score(s[0]), score);
        assert Insert(x, s, score)[1..] == Insert(x, s[1..], score);
      }
    }
  }

  lemma {:induction false} SortedKeeps<T>(s: seq<T>, score: T -> real)
    ensures multiset(Sorted(s, score)) == multiset(s) && Falling(Sorted(s, score), score)
  {
    if s != [] {
      SortedKeeps(s[1..], score);
      InsertKeeps(s[0], Sorted(s[1..], score), score);
      InsertFalls(s[0], Sorted(s[1..], score), score);
      assert s == [s[0]] + s[1..];
    }
  }

  lemma {:induction false} FallingDescends<T>(s: seq<T>, score: T -> real, i: nat, j: nat)
    requires Falling(s, score) && i < j < |s|
    ensures score(s[i]) >= score(s[j])
  {
    if i == 0 {
      assert s[j] == s[1..][j - 1];
    } else {
      FallingDescends(s[1..], score, i - 1, j - 1);
    }
  }

  lemma HeadBeatsTail<T>(head: seq<T>, tail: seq<T>, score: T -> real, x: T, y: T)
    requires Falling(head + tail, score) && x in head && y in tail
    ensures score(x) >= score(y)
  {
    var i :| 0 <= i < |head| && head[i] == x;
    var j :| 0 <= j < |tail| && tail[j] == y;
    FallingDescends(head + tail, score, i, |head| + j);
  }

  lemma HeadDescends<T>(head: seq<T>, tail: seq<T>, score: T -> real)
    requires Falling(head + tail, score)
    ensures Descending(head, score)
  {
    forall i, j | 0 <= i < j < |head| ensures score(head[i]) >= score(head[j]) {
      FallingDescends(head + tail, score, i, j);
    }
  }

  lemma PrefixIsTop<T(!new)>(head: seq<T>, tail: seq<T>, score: T -> real)
    requires Falling(head + tail, score)
    ensures IsTop(head, multiset(head + tail), |head|, score)
  {
    HeadDescends(head, tail, score);
    var mh, mt := multiset(head), multiset(tail);
    assert multiset(head + tail) == mh + mt && (mh + mt) - mh == mt;
    forall x, y | x in mh && y in mt ensures score(x) >= score(y) {
      HeadBeatsTail(head, tail, score, x, y);
    }
  }

  /** For any candidates and any limit there is a result. */
  lemma TopExists<T(!new)>(s: seq<T>, k: nat, score: T -> real)
    ensures exists r: seq<T> :: IsTop(r, multiset(s), k, score)
  {
    SortedKeeps(s, score);
    var all, n := Sorted(s, score), Min(k, |s|);
    assert |all| == |s| by {
      assert |multiset(all)| == |multiset(s)|;
    }
    assert all[..n] + all[n..] == all;
    PrefixIsTop(all[..n], all[n..], score);
    assert IsTop(all[..n], multiset(s), k, score);
  }
}
