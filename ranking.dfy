/** Ordering by an integer key, largest first: `sorted(pairs, key=lambda x: x[1], reverse=True)`.
    Python's sort is stable, and `reverse=True` keeps equal keys in their input order. The same
    ordering gives `Counter.most_common(n)` (count descending, ties in insertion order). */
module Ranking {
  import opened Seqs

  /** An item paired with its score. */
  type Scored<T> = (T, int)

  predicate NonIncreasing<T>(s: seq<Scored<T>>) {
    forall i, j :: 0 <= i < j < |s| ==> s[i].1 >= s[j].1
  }

  /** Put `x` in front of the first element whose score does not exceed its own. */
  function Insert<T>(x: Scored<T>, s: seq<Scored<T>>): seq<Scored<T>> {
    if s == [] || s[0].1 <= x.1 then [x] + s else [s[0]] + Insert(x, s[1..])
  }

  /** The stable descending sort. */
  function SortDesc<T>(s: seq<Scored<T>>): seq<Scored<T>> {
    if s == [] then [] else Insert(s[0], SortDesc(s[1..]))
  }

  lemma {:induction false} InsertPerm<T>(x: Scored<T>, s: seq<Scored<T>>)
    ensures multiset(Insert(x, s)) == multiset([x] + s)
    ensures |Insert(x, s)| == |s| + 1
    ensures forall e :: e in Insert(x, s) ==> e == x || e in s
    decreases |s|
  {
    if s != [] && s[0].1 > x.1 {
      InsertPerm(x, s[1..]);
      assert s == [s[0]] + s[1..];
    }
  }

  lemma {:induction false} InsertSorted<T>(x: Scored<T>, s: seq<Scored<T>>)
    requires NonIncreasing(s)
    ensures NonIncreasing(Insert(x, s))
    decreases |s|
  {
    if s != [] && s[0].1 > x.1 {
      assert NonIncreasing(s[1..]) by {
        forall i, j | 0 <= i < j < |s[1..]| ensures s[1..][i].1 >= s[1..][j].1 {
          assert s[1..][i] == s[i + 1] && s[1..][j] == s[j + 1];
        }
      }
      InsertSorted(x, s[1..]);
      InsertPerm(x, s[1..]);
      var r := Insert(x, s[1..]);
      forall i, j | 0 <= i < j < |[s[0]] + r| ensures ([s[0]] + r)[i].1 >= ([s[0]] + r)[j].1 {
        if i > 0 {
          assert ([s[0]] + r)[i] == r[i - 1];
        } else {
          assert r[j - 1] in r;
          if r[j - 1] != x {
            var m :| 0 <= m < |s[1..]| && s[1..][m] == r[j - 1];
            assert s[1..][m] == s[m + 1];
          }
        }
      }
    }
  }

  /** The sort is a permutation of its input whose scores never increase. */
  lemma {:induction false} SortDescSpec<T>(s: seq<Scored<T>>)
    ensures NonIncreasing(SortDesc(s))
    ensures multiset(SortDesc(s)) == multiset(s)
    ensures |SortDesc(s)| == |s|
    decreases |s|
  {
    if s != [] {
      SortDescSpec(s[1..]);
      InsertSorted(s[0], SortDesc(s[1..]));
      InsertPerm(s[0], SortDesc(s[1..]));
      assert s == [s[0]] + s[1..];
    }
  }

  /** The items of score `v`, in order. */
  function WithScore<T>(s: seq<Scored<T>>, v: int): seq<Scored<T>> {
    Filter(s, (e: Scored<T>) => e.1 == v)
  }

  lemma {:induction false} InsertWithScore<T>(x: Scored<T>, s: seq<Scored<T>>, v: int)
    requires NonIncreasing(s)
    ensures WithScore(Insert(x, s), v) == (if x.1 == v then [x] else []) + WithScore(s, v)
    decreases |s|
  {
    if s != [] && s[0].1 > x.1 {
      assert NonIncreasing(s[1..]) by {
        forall i, j | 0 <= i < j < |s[1..]| ensures s[1..][i].1 >= s[1..][j].1 {
          assert s[1..][i] == s[i + 1] && s[1..][j] == s[j + 1];
        }
      }
      InsertWithScore(x, s[1..], v);
      assert Insert(x, s) == [s[0]] + Insert(x, s[1..]);
      if x.1 == v {
        assert s[0].1 != v;
      }
    }
  }

  /** Stability: for every score, the items with that score keep their input order. */
  lemma {:induction false} SortDescStable<T>(s: seq<Scored<T>>, v: int)
    ensures WithScore(SortDesc(s), v) == WithScore(s, v)
    decreases |s|
  {
    if s != [] {
      SortDescStable(s[1..], v);
      SortDescSpec(s[1..]);
      InsertWithScore(s[0], SortDesc(s[1..]), v);
    }
  }

  /** When every score is the same, the sort keeps the input order. */
  lemma {:induction false} SortDescEqualScores<T>(s: seq<Scored<T>>, v: int)
    requires forall i :: 0 <= i < |s| ==> s[i].1 == v
    ensures SortDesc(s) == s
    decreases |s|
  {
    if s != [] {
      SortDescEqualScores(s[1..], v);
      assert SortDesc(s[1..]) == s[1..];
      if s[1..] != [] {
        assert s[1..][0].1 == v;
      }
    }
  }

  /** The items of a scored sequence, scores dropped. */
  function Items<T>(s: seq<Scored<T>>): (r: seq<T>)
    ensures |r| == |s|
    ensures forall k :: 0 <= k < |s| ==> r[k] == s[k].0
  {
    if s == [] then [] else [s[0].0] + Items(s[1..])
  }

  lemma {:induction false} InsertItems<T>(x: Scored<T>, s: seq<Scored<T>>)
    ensures multiset(Items(Insert(x, s))) == multiset{x.0} + multiset(Items(s))
    decreases |s|
  {
    if s != [] && s[0].1 > x.1 {
      InsertItems(x, s[1..]);
      assert Items(s) == [s[0].0] + Items(s[1..]);
      assert Items(Insert(x, s)) == [s[0].0] + Items(Insert(x, s[1..]));
    }
  }

  /** The sorted items are a permutation of the input items. */
  lemma {:induction false} SortDescItems<T>(s: seq<Scored<T>>)
    ensures multiset(Items(SortDesc(s))) == multiset(Items(s))
    decreases |s|
  {
    if s != [] {
      SortDescItems(s[1..]);
      InsertItems(s[0], SortDesc(s[1..]));
      assert Items(s) == [s[0].0] + Items(s[1..]);
    }
  }

  /** When the items of score `v` are exactly those satisfying `q`, the items of `WithScore`
      are the items filtered by `q`. */
  lemma {:induction false} ItemsWithScore<T>(s: seq<Scored<T>>, v: int, q: T -> bool)
    requires forall k :: 0 <= k < |s| ==> (s[k].1 == v <==> q(s[k].0))
    ensures Items(WithScore(s, v)) == Filter(Items(s), q)
    decreases |s|
  {
    if s != [] {
      assert forall k :: 0 <= k < |s[1..]| ==> s[1..][k] == s[k + 1];
      ItemsWithScore(s[1..], v, q);
      assert Items(s)[1..] == Items(s[1..]);
      if s[0].1 == v {
        assert Items([s[0]] + WithScore(s[1..], v)) == [s[0].0] + Items(WithScore(s[1..], v)) by {
          assert ([s[0]] + WithScore(s[1..], v))[1..] == WithScore(s[1..], v);
        }
      }
    }
  }

  /** `Counter.most_common(n)`: the first `n` entries of the stable descending order. */
  function MostCommon<T>(c: seq<Scored<T>>, n: nat): (r: seq<Scored<T>>)
  {
    var sorted := SortDesc(c);
    if n < |sorted| then sorted[..n] else sorted
  }

  /** A prefix of a non-increasing sequence is taken from it, and nothing it leaves out scores
      more than anything it keeps. */
  lemma {:induction false} PrefixDominates<T>(s: seq<Scored<T>>, m: nat)
    requires NonIncreasing(s) && m <= |s|
    ensures multiset(s[..m]) <= multiset(s)
    ensures forall x, y :: x in multiset(s) - multiset(s[..m]) && y in s[..m] ==> x.1 <= y.1
  {
    assert s == s[..m] + s[m..];
    assert multiset(s) - multiset(s[..m]) == multiset(s[m..]);
    forall x, y | x in multiset(s) - multiset(s[..m]) && y in s[..m] ensures x.1 <= y.1 {
      assert x in s[m..];
      var j :| 0 <= j < |s| - m && s[m..][j] == x;
      var i :| 0 <= i < m && s[..m][i] == y;
      assert s[i] == y && s[m + j] == x;
    }
  }

  /** `most_common(n)` returns the `n` largest counts, or all of them when there are fewer: exactly
      min(n, |c|) entries taken from the counter, largest first, and no entry left out has a larger
      count than one returned; it is empty exactly when the counter is. */
  lemma {:induction false} MostCommonSpec<T>(c: seq<Scored<T>>, n: nat)
    ensures |MostCommon(c, n)| == if n < |c| then n else |c|
    ensures multiset(MostCommon(c, n)) <= multiset(c)
    ensures forall e :: e in MostCommon(c, n) ==> e in c
    ensures NonIncreasing(MostCommon(c, n))
    ensures forall x, y :: x in multiset(c) - multiset(MostCommon(c, n)) && y in MostCommon(c, n) ==> x.1 <= y.1
    ensures n > 0 ==> (MostCommon(c, n) == [] <==> c == [])
  {
    var sorted := SortDesc(c);
    SortDescSpec(c);
    var m := if n < |c| then n else |c|;
    assert MostCommon(c, n) == sorted[..m];
    PrefixDominates(sorted, m);
    forall e | e in sorted[..m] ensures e in c {
      assert e in multiset(sorted);
    }
    if c != [] {
      assert c[0] in multiset(sorted);
    }
  }
}
