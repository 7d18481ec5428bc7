/**
 * `filtered_lounges.sort(key=lambda x: x['rating'], reverse=True)` (`app.py`, line 95).
 * Python's sort is stable also with `reverse=True`: records of equal rating keep their order.
 * `RankByRating` is insertion sort written as a function; `StableSortIsUnique` shows that every
 * stable descending sort (Python's Timsort included) produces exactly that list.
 */
module Ranking {
  import opened Lounges

  /** Ratings never increase from left to right. */
  predicate NonIncreasing(s: seq<Lounge>)
  {
    forall i, j :: 0 <= i < j < |s| ==> s[i].rating >= s[j].rating
  }

  /** Places `x` after every record of `t` whose rating is at least its own, scanning from the right. */
  function InsertByRating(t: seq<Lounge>, x: Lounge): (r: seq<Lounge>)
    ensures |r| == |t| + 1
  {
    if t == [] then [x]
    else if t[|t| - 1].rating >= x.rating then t + [x]
    else InsertByRating(t[..|t| - 1], x) + [t[|t| - 1]]
  }

  /** The list sorted by rating, highest first, ties in their original order. */
  function RankByRating(s: seq<Lounge>): (r: seq<Lounge>)
    ensures |r| == |s|
  {
    if s == [] then []
    else InsertByRating(RankByRating(s[..|s| - 1]), s[|s| - 1])
  }

  lemma {:induction false} InsertIsPermutation(t: seq<Lounge>, x: Lounge)
    ensures multiset(InsertByRating(t, x)) == multiset(t) + multiset{x}
  {
    if t != [] && t[|t| - 1].rating < x.rating {
      InsertIsPermutation(t[..|t| - 1], x);
      assert t == t[..|t| - 1] + [t[|t| - 1]];
    }
  }

  /** The sort neither adds, drops nor duplicates a record. */
  lemma {:induction false} RankIsPermutation(s: seq<Lounge>)
    ensures multiset(RankByRating(s)) == multiset(s)
  {
    if s != [] {
      var init, last := s[..|s| - 1], s[|s| - 1];
      RankIsPermutation(init);
      InsertIsPermutation(RankByRating(init), last);
      assert s == init + [last];
      assert multiset(s) == multiset(init) + multiset{last};
    }
  }

  /** The records of `s` with rating `k`, in the order of `s`. */
  function WithRating(s: seq<Lounge>, k: int): seq<Lounge>
  {
    if s == [] then []
    else (if s[0].rating == k then [s[0]] else []) + WithRating(s[1..], k)
  }

  lemma {:induction false} WithRatingAppend(a: seq<Lounge>, b: seq<Lounge>, k: int)
    ensures WithRating(a + b, k) == WithRating(a, k) + WithRating(b, k)
  {
    if a == [] {
      assert a + b == b;
    } else {
      var h := if a[0].rating == k then [a[0]] else [];
      assert (a + b)[0] == a[0] && (a + b)[1..] == a[1..] + b;
      assert WithRating(a + b, k) == h + WithRating(a[1..] + b, k);
      WithRatingAppend(a[1..], b, k);
      assert WithRating(a, k) == h + WithRating(a[1..], k);
    }
  }

  /** Inserting keeps the order among records of one rating and puts `x` after its equals. */
  lemma {:induction false} InsertKeepsTies(t: seq<Lounge>, x: Lounge, k: int)
    ensures WithRating(InsertByRating(t, x), k) == WithRating(t, k) + WithRating([x], k)
  {
    if t == [] {
    } else if t[|t| - 1].rating >= x.rating {
      WithRatingAppend(t, [x], k);
    } else {
      var init, last := t[..|t| - 1], t[|t| - 1];
      assert t == init + [last];
      InsertKeepsTies(init, x, k);
      WithRatingAppend(InsertByRating(init, x), [last], k);
      WithRatingAppend(init, [last], k);
      assert WithRating([x], k) == [] || WithRating([last], k) == [];
    }
  }

  /** Stability: the sort keeps the relative order of the records that share a rating. */
  lemma {:induction false} RankIsStable(s: seq<Lounge>, k: int)
    ensures WithRating(RankByRating(s), k) == WithRating(s, k)
  {
    if s != [] {
      var init, last := s[..|s| - 1], s[|s| - 1];
      assert s == init + [last];
      RankIsStable(init, k);
      InsertKeepsTies(RankByRating(init), last, k);
      WithRatingAppend(init, [last], k);
    }
  }

  lemma {:induction false} InsertKeepsOrder(t: seq<Lounge>, x: Lounge)
    requires NonIncreasing(t)
    ensures NonIncreasing(InsertByRating(t, x))
  {
    if t != [] && t[|t| - 1].rating < x.rating {
      var init, last := t[..|t| - 1], t[|t| - 1];
      InsertKeepsOrder(init, x);
      InsertIsPermutation(init, x);
      var u := InsertByRating(init, x);
      forall i | 0 <= i < |u| ensures u[i].rating >= last.rating {
        assert u[i] in multiset(u);
        if u[i] != x {
          assert u[i] in multiset(init);
          var k :| 0 <= k < |init| && init[k] == u[i];
        }
      }
    }
  }

  /** The sort's result is ordered by rating, highest first. */
  lemma {:induction false} RankIsOrdered(s: seq<Lounge>)
    ensures NonIncreasing(RankByRating(s))
  {
    if s != [] {
      RankIsOrdered(s[..|s| - 1]);
      InsertKeepsOrder(RankByRating(s[..|s| - 1]), s[|s| - 1]);
    }
  }

  /** A non-empty `WithRating` comes from a record of that rating. */
  lemma {:induction false} WithRatingHas(s: seq<Lounge>, k: int)
    requires WithRating(s, k) != []
    ensures exists i :: 0 <= i < |s| && s[i].rating == k
  {
    if s[0].rating != k {
      WithRatingHas(s[1..], k);
      var i :| 0 <= i < |s[1..]| && s[1..][i].rating == k;
      assert s[i + 1].rating == k;
    }
  }

  /** Two ordered lists that agree on the records of every rating start with the same record. */
  lemma HeadsAgree(r1: seq<Lounge>, r2: seq<Lounge>)
    requires NonIncreasing(r1) && NonIncreasing(r2)
    requires forall k :: WithRating(r1, k) == WithRating(r2, k)
    requires r1 != [] && r2 != []
    ensures r1[0] == r2[0]
  {
    var k1, k2 := r1[0].rating, r2[0].rating;
    assert WithRating(r1, k1) != [];
    WithRatingHas(r2, k1);
    assert WithRating(r2, k2) != [];
    WithRatingHas(r1, k2);
    assert k1 == k2;
    assert WithRating(r1, k1)[0] == r1[0] && WithRating(r2, k1)[0] == r2[0];
  }

  /** Dropping the same first record from both lists keeps them agreeing on every rating. */
  lemma TailsAgree(r1: seq<Lounge>, r2: seq<Lounge>)
    requires r1 != [] && r2 != [] && r1[0] == r2[0]
    requires forall k :: WithRating(r1, k) == WithRating(r2, k)
    ensures forall k :: WithRating(r1[1..], k) == WithRating(r2[1..], k)
  {
    forall k ensures WithRating(r1[1..], k) == WithRating(r2[1..], k) {
      var w1, w2 := WithRating(r1, k), WithRating(r2, k);
      assert w1 == w2;
      if k == r1[0].rating {
        assert w1[1..] == WithRating(r1[1..], k);
        assert w2[1..] == WithRating(r2[1..], k);
      } else {
        assert w1 == WithRating(r1[1..], k);
        assert w2 == WithRating(r2[1..], k);
      }
    }
  }

  /** Lists that agree on the records of every rating are both empty or both not. */
  lemma EmptyTogether(r1: seq<Lounge>, r2: seq<Lounge>)
    requires forall k :: WithRating(r1, k) == WithRating(r2, k)
    ensures r1 == [] <==> r2 == []
  {
    if r1 != [] { assert WithRating(r2, r1[0].rating) == WithRating(r1, r1[0].rating) != []; }
    if r2 != [] { assert WithRating(r1, r2[0].rating) == WithRating(r2, r2[0].rating) != []; }
  }

  /** The tail of an ordered list is ordered. */
  lemma TailOrdered(r: seq<Lounge>)
    requires r != [] && NonIncreasing(r)
    ensures NonIncreasing(r[1..])
  {
    forall i, j | 0 <= i < j < |r| - 1 ensures r[1..][i].rating >= r[1..][j].rating {
      assert r[1..][i] == r[i + 1] && r[1..][j] == r[j + 1];
    }
  }

  /** Two lists ordered by rating that agree on the records of every rating are equal. */
  lemma {:induction false} OrderedByTiesIsUnique(r1: seq<Lounge>, r2: seq<Lounge>)
    requires NonIncreasing(r1) && NonIncreasing(r2)
    requires forall k :: WithRating(r1, k) == WithRating(r2, k)
    ensures r1 == r2
    decreases |r1|
  {
    EmptyTogether(r1, r2);
    if r1 != [] {
      HeadsAgree(r1, r2);
      TailsAgree(r1, r2);
      TailOrdered(r1);
      TailOrdered(r2);
      OrderedByTiesIsUnique(r1[1..], r2[1..]);
      assert r1 == [r1[0]] + r1[1..] && r2 == [r2[0]] + r2[1..];
    }
  }

  /**
   * What `list.sort(key=rating, reverse=True)` promises (ordered by rating, highest first, and
   * records of equal rating in their original order) determines its result: it is `RankByRating(s)`.
   */
  lemma StableSortIsUnique(s: seq<Lounge>, r: seq<Lounge>)
    requires NonIncreasing(r)
    requires forall k :: WithRating(r, k) == WithRating(s, k)
    ensures r == RankByRating(s)
  {
    RankIsOrdered(s);
    forall k ensures WithRating(r, k) == WithRating(RankByRating(s), k) {
      RankIsStable(s, k);
    }
    OrderedByTiesIsUnique(r, RankByRating(s));
  }

  lemma {:induction false} InsertKeepsDistinct(t: seq<Lounge>, x: Lounge)
    requires DistinctIds(t) && forall k :: 0 <= k < |t| ==> t[k].id != x.id
    ensures DistinctIds(InsertByRating(t, x))
  {
    if t != [] && t[|t| - 1].rating < x.rating {
      var init, last := t[..|t| - 1], t[|t| - 1];
      InsertKeepsDistinct(init, x);
      InsertIsPermutation(init, x);
      var u := InsertByRating(init, x);
      forall k | 0 <= k < |u| ensures u[k].id != last.id {
        assert u[k] in multiset(u);
        if u[k] != x {
          assert u[k] in multiset(init);
          var m :| 0 <= m < |init| && init[m] == u[k];
        }
      }
    }
  }

  /** Reordering cannot make two ids equal. */
  lemma {:induction false} RankKeepsDistinct(s: seq<Lounge>)
    requires DistinctIds(s)
    ensures DistinctIds(RankByRating(s))
  {
    if s != [] {
      var init, last := s[..|s| - 1], s[|s| - 1];
      RankKeepsDistinct(init);
      RankIsPermutation(init);
      var r := RankByRating(init);
      forall k | 0 <= k < |r| ensures r[k].id != last.id {
        assert r[k] in multiset(init);
        var m :| 0 <= m < |init| && init[m] == r[k];
      }
      InsertKeepsDistinct(r, last);
    }
  }

  /** The index of the first record of highest rating: a reference for what the sort puts first. */
  function FirstBest(s: seq<Lounge>): (m: nat)
    requires s != []
    ensures m < |s|
    ensures forall j :: 0 <= j < |s| ==> s[j].rating <= s[m].rating
    ensures forall j :: 0 <= j < m ==> s[j].rating < s[m].rating
  {
    if |s| == 1 then 0
    else
      var m := FirstBest(s[..|s| - 1]);
      if s[|s| - 1].rating > s[m].rating then |s| - 1 else m
  }

  lemma {:induction false} InsertHead(t: seq<Lounge>, x: Lounge)
    requires NonIncreasing(t)
    ensures InsertByRating(t, x)[0] == if t == [] || t[0].rating < x.rating then x else t[0]
  {
    if t != [] && t[|t| - 1].rating < x.rating {
      var init := t[..|t| - 1];
      if init != [] {
        InsertHead(init, x);
        assert init[0] == t[0];
      }
    }
  }

  /** The sort puts first the first record, in list order, of the highest rating. */
  lemma {:induction false} RankTopIsFirstBest(s: seq<Lounge>)
    requires s != []
    ensures RankByRating(s)[0] == s[FirstBest(s)]
  {
    if |s| > 1 {
      var init := s[..|s| - 1];
      RankTopIsFirstBest(init);
      RankIsOrdered(init);
      InsertHead(RankByRating(init), s[|s| - 1]);
    }
  }

  /**
   * `InsertByRating` puts `x` at the gap `j` that has only lower-rated records to its right and,
   * to its left, none or one rated at least as high.
   */
  lemma {:induction false} InsertAtGap(t: seq<Lounge>, x: Lounge, j: nat)
    requires j <= |t| && (j == 0 || t[j - 1].rating >= x.rating)
    requires forall k :: j <= k < |t| ==> t[k].rating < x.rating
    ensures InsertByRating(t, x) == t[..j] + [x] + t[j..]
    decreases |t| - j
  {
    if j < |t| {
      var init := t[..|t| - 1];
      assert init[..j] == t[..j];
      InsertAtGap(init, x, j);
      assert init[j..] + [t[|t| - 1]] == t[j..];
    } else {
      assert t[..j] == t;
    }
  }

  /** One step of insertion sort: moves `a[i]` left past the records of lower rating. */
  method InsertAt(a: array<Lounge>, i: nat)
    requires i < a.Length
    modifies a
    ensures a[..i + 1] == InsertByRating(old(a[..i]), old(a[i]))
    ensures forall k :: i < k < a.Length ==> a[k] == old(a[k])
  {
    ghost var t := a[..i];
    var x := a[i];
    var j := i;
    while j > 0 && a[j - 1].rating < x.rating
      invariant 0 <= j <= i
      invariant forall k :: 0 <= k < j ==> a[k] == t[k]
      invariant forall k :: j < k <= i ==> a[k] == t[k - 1]
      invariant forall k :: i < k < a.Length ==> a[k] == old(a[k])
      invariant forall k :: j <= k < i ==> t[k].rating < x.rating
    {
      a[j] := a[j - 1];
      j := j - 1;
    }
    a[j] := x;
    InsertAtGap(t, x, j);
    assert a[..i + 1] == t[..j] + [x] + t[j..];
  }

  /** In-place insertion sort of the list, which ends in `RankByRating` of its old contents. */
  method SortByRatingDesc(a: array<Lounge>)
    modifies a
    ensures a[..] == RankByRating(old(a[..]))
  {
    ghost var s := a[..];
    for i := 0 to a.Length
      invariant a[..i] == RankByRating(s[..i])
      invariant forall k :: i <= k < a.Length ==> a[k] == s[k]
    {
      assert s[..i + 1][..i] == s[..i];
      InsertAt(a, i);
    }
    assert s[..a.Length] == s;
  }
}
