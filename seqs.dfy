/** Python's list filtering and slicing, as used by the section pipelines:
    `[x for x in xs if p(x)]`, `xs[:n]`, and `if limit: xs = xs[:limit]`. */
module Seqs {
  import opened Wrappers

  /** `a` is an order-preserving subsequence of `b`. */
  predicate IsSubseq<T(==)>(a: seq<T>, b: seq<T>)
    decreases |b|
  {
    if a == [] then true
    else if b == [] then false
    else if a[0] == b[0] then IsSubseq(a[1..], b[1..])
    else IsSubseq(a, b[1..])
  }

  lemma {:induction false} SubseqRefl<T>(a: seq<T>)
    ensures IsSubseq(a, a)
    decreases |a|
  {
    if a != [] {
      SubseqRefl(a[1..]);
    }
  }

  lemma {:induction false} SubseqLength<T>(a: seq<T>, b: seq<T>)
    requires IsSubseq(a, b)
    ensures |a| <= |b|
    decreases |b|
  {
    if a != [] {
      if a[0] == b[0] {
        SubseqLength(a[1..], b[1..]);
      } else {
        SubseqLength(a, b[1..]);
      }
    }
  }

  /** Dropping the first element of a subsequence keeps it a subsequence. */
  lemma {:induction false} SubseqTail<T>(a: seq<T>, b: seq<T>)
    requires a != [] && IsSubseq(a, b)
    ensures IsSubseq(a[1..], b)
    decreases |b|, 0
  {
    if a[0] == b[0] {
      SubseqSkip(a[1..], b[1..], b[0]);
    } else {
      SubseqTail(a, b[1..]);
      SubseqSkip(a[1..], b[1..], b[0]);
    }
  }

  /** A subsequence of `b` is a subsequence of `[x] + b`. */
  lemma {:induction false} SubseqSkip<T>(a: seq<T>, b: seq<T>, x: T)
    requires IsSubseq(a, b)
    ensures IsSubseq(a, [x] + b)
    decreases |b|, 1
  {
    assert ([x] + b)[1..] == b;
    if a != [] && a[0] == x {
      SubseqTail(a, b);
    }
  }

  lemma {:induction false} SubseqTrans<T>(a: seq<T>, b: seq<T>, c: seq<T>)
    requires IsSubseq(a, b) && IsSubseq(b, c)
    ensures IsSubseq(a, c)
    decreases |c|
  {
    if a != [] {
      SubseqLength(b, c);
      if b[0] == c[0] {
        if a[0] == b[0] {
          SubseqTrans(a[1..], b[1..], c[1..]);
        } else {
          SubseqTrans(a, b[1..], c[1..]);
        }
      } else {
        SubseqTrans(a, b, c[1..]);
        if a[0] == c[0] {
          SubseqTail(a, c[1..]);
        }
      }
    }
  }

  /** Appending the same element to both sides, or only to the larger side, keeps a subsequence. */
  lemma {:induction false} SubseqSnoc<T>(a: seq<T>, b: seq<T>, x: T)
    requires IsSubseq(a, b)
    ensures IsSubseq(a + [x], b + [x])
    ensures IsSubseq(a, b + [x])
    decreases |b|
  {
    if a == [] {
      assert a + [x] == [x];
      SubseqRefl([x]);
      assert [x] == [] + [x];
      if b != [] {
        SubseqSnoc([], b[1..], x);
        SubseqSkip([x], b[1..] + [x], b[0]);
        assert b + [x] == [b[0]] + (b[1..] + [x]);
      } else {
        assert b + [x] == [x];
      }
    } else {
      assert (b + [x])[1..] == b[1..] + [x];
      assert (a + [x])[1..] == a[1..] + [x];
      if a[0] == b[0] {
        SubseqSnoc(a[1..], b[1..], x);
      } else {
        SubseqSnoc(a, b[1..], x);
      }
    }
  }

  lemma {:induction false} PrefixSubseq<T>(s: seq<T>, n: nat)
    requires n <= |s|
    ensures IsSubseq(s[..n], s)
    decreases |s|
  {
    if n > 0 {
      assert s[..n][1..] == s[1..][..n - 1];
      PrefixSubseq(s[1..], n - 1);
    }
  }

  /** The list comprehension `[x for x in s if p(x)]`. */
  function Filter<T>(s: seq<T>, p: T -> bool): (r: seq<T>)
    ensures |r| <= |s|
  {
    if s == [] then []
    else if p(s[0]) then [s[0]] + Filter(s[1..], p)
    else Filter(s[1..], p)
  }

  /** The filter keeps exactly the elements satisfying `p`, in their original order. */
  lemma {:induction false} FilterSpec<T>(s: seq<T>, p: T -> bool)
    ensures IsSubseq(Filter(s, p), s)
    ensures forall x :: x in Filter(s, p) ==> p(x)
    ensures forall x :: x in s && p(x) ==> x in Filter(s, p)
    decreases |s|
  {
    if s != [] {
      FilterSpec(s[1..], p);
      if !p(s[0]) {
        SubseqSkip(Filter(s[1..], p), s[1..], s[0]);
        assert [s[0]] + s[1..] == s;
      }
    }
  }

  lemma {:induction false} FilterSnoc<T>(s: seq<T>, x: T, p: T -> bool)
    ensures Filter(s + [x], p) == Filter(s, p) + (if p(x) then [x] else [])
    decreases |s|
  {
    if s == [] {
      assert [] + [x] == [x];
      assert [x][1..] == [];
    } else {
      assert (s + [x])[1..] == s[1..] + [x];
      FilterSnoc(s[1..], x, p);
    }
  }

  /** Python's `s[:n]`: a negative `n` counts from the end. */
  function PySliceTo<T>(s: seq<T>, n: int): (r: seq<T>)
    ensures |r| <= |s| && r == s[..|r|]
    ensures n >= 0 ==> |r| == if n < |s| then n else |s|
    ensures n < 0 ==> |r| == if |s| + n > 0 then |s| + n else 0
  {
    if n >= 0 then (if n < |s| then s[..n] else s)
    else if |s| + n > 0 then s[..|s| + n]
    else []
  }

  /** `if limit: s = s[:limit]` — `None` and `0` are falsy and leave the list whole. */
  function ApplyLimit<T>(s: seq<T>, limit: Option<int>): seq<T> {
    if limit.Some? && limit.value != 0 then PySliceTo(s, limit.value) else s
  }

  /** A limited list is a prefix of the list, its length is `min(n, |s|)` for a positive limit,
      and a falsy limit keeps everything. */
  lemma {:induction false} LimitSpec<T>(s: seq<T>, limit: Option<int>)
    ensures |ApplyLimit(s, limit)| <= |s| && ApplyLimit(s, limit) == s[..|ApplyLimit(s, limit)|]
    ensures limit == None || limit == Some(0) ==> ApplyLimit(s, limit) == s
    ensures limit.Some? && limit.value > 0 ==>
      |ApplyLimit(s, limit)| == if limit.value < |s| then limit.value else |s|
  {
  }

  /** Filtering then limiting yields an order-preserving subsequence no longer than the limit. */
  lemma {:induction false} FilterThenLimit<T>(s: seq<T>, p: T -> bool, limit: Option<int>)
    ensures IsSubseq(ApplyLimit(Filter(s, p), limit), s)
    ensures limit.Some? && limit.value > 0 ==> |ApplyLimit(Filter(s, p), limit)| <= limit.value
    ensures forall x :: x in ApplyLimit(Filter(s, p), limit) ==> p(x)
  {
    var f := Filter(s, p);
    var r := ApplyLimit(f, limit);
    FilterSpec(s, p);
    LimitSpec(f, limit);
    PrefixSubseq(f, |r|);
    SubseqTrans(r, f, s);
  }

  /** The loop `for x in s: y = f(x); if y: out.append(y)`: the present results, in order. */
  function FilterMap<A, B>(s: seq<A>, f: A -> Option<B>): (r: seq<B>)
    ensures |r| <= |s|
  {
    if s == [] then []
    else FilterMap(s[..|s| - 1], f) + (if f(s[|s| - 1]).Some? then [f(s[|s| - 1]).value] else [])
  }

  /** Nothing is dropped exactly when every element has a result. */
  lemma {:induction false} FilterMapAll<A, B>(s: seq<A>, f: A -> Option<B>)
    ensures |FilterMap(s, f)| == |s| <==> forall k :: 0 <= k < |s| ==> f(s[k]).Some?
    decreases |s|
  {
    if s != [] {
      var init := s[..|s| - 1];
      FilterMapAll(init, f);
      assert forall k :: 0 <= k < |init| ==> init[k] == s[k];
    }
  }

  /** Every kept result is the result of some element. */
  lemma {:induction false} FilterMapFrom<A, B>(s: seq<A>, f: A -> Option<B>)
    ensures forall y :: y in FilterMap(s, f) ==> exists k :: 0 <= k < |s| && f(s[k]) == Some(y)
    decreases |s|
  {
    if s != [] {
      var init := s[..|s| - 1];
      FilterMapFrom(init, f);
      forall y | y in FilterMap(s, f) ensures exists k :: 0 <= k < |s| && f(s[k]) == Some(y) {
        if y in FilterMap(init, f) {
          var k :| 0 <= k < |init| && f(init[k]) == Some(y);
          assert init[k] == s[k];
        } else {
          assert f(s[|s| - 1]) == Some(y);
        }
      }
    }
  }
}
