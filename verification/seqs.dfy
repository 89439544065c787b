/**
 * Generic sequence operations with the semantics of the JavaScript array
 * methods the application uses: `filter`, `find`, `findIndex`, `slice(0, n)`.
 */
module Seqs {
  import opened Wrappers

  /** The test "equals `x`", as a filter argument. */
  function Is<T(==)>(x: T): T -> bool {
    (a: T) => a == x
  }

  /** Number of elements of `s` that satisfy `p`. */
  function Count<T>(s: seq<T>, p: T -> bool): nat
  {
    if |s| == 0 then 0 else (if p(s[0]) then 1 else 0) + Count(s[1..], p)
  }

  /** `a` can be obtained from `b` by deleting elements: an order-preserving subsequence. */
  predicate IsSubseq<T(==)>(a: seq<T>, b: seq<T>)
    decreases |b|
  {
    if |a| == 0 then true
    else if |b| == 0 then false
    else (a[0] == b[0] && IsSubseq(a[1..], b[1..])) || IsSubseq(a, b[1..])
  }

  /** `Array.prototype.filter`: the elements satisfying `p`, in their original order. */
  function Filter<T(==)>(s: seq<T>, p: T -> bool): (r: seq<T>)
    ensures |r| == Count(s, p) <= |s|
    ensures forall i :: 0 <= i < |r| ==> p(r[i])
  {
    if |s| == 0 then []
    else if p(s[0]) then [s[0]] + Filter(s[1..], p)
    else Filter(s[1..], p)
  }

  /** The filter keeps exactly the elements that satisfy `p`. */
  lemma {:induction false} FilterMembers<T>(s: seq<T>, p: T -> bool)
    ensures forall i :: 0 <= i < |Filter(s, p)| ==> Filter(s, p)[i] in s
    ensures forall i :: 0 <= i < |s| && p(s[i]) ==> s[i] in Filter(s, p)
    decreases |s|
  {
    if |s| > 0 {
      FilterMembers(s[1..], p);
      var r := Filter(s, p);
      var r' := Filter(s[1..], p);
      forall i | 0 <= i < |s| && p(s[i])
        ensures s[i] in r
      {
        if i > 0 {
          assert s[i] == s[1..][i - 1];
        }
      }
      forall i | 0 <= i < |r|
        ensures r[i] in s
      {
        if p(s[0]) && i > 0 {
          assert r[i] == r'[i - 1];
        }
        if !p(s[0]) {
          assert r[i] == r'[i];
        }
      }
    }
  }

  /** `Array.prototype.findIndex`: the first index whose element satisfies `p`, or -1. */
  function FindIndex<T>(s: seq<T>, p: T -> bool): (k: int)
    ensures -1 <= k < |s|
    ensures k >= 0 ==> p(s[k])
    ensures forall j :: 0 <= j < |s| && (k < 0 || j < k) ==> !p(s[j])
  {
    if |s| == 0 then -1
    else if p(s[0]) then 0
    else var k := FindIndex(s[1..], p); if k < 0 then -1 else k + 1
  }

  /** `Array.prototype.find`: the first element satisfying `p`, if any. */
  function Find<T>(s: seq<T>, p: T -> bool): (r: Option<T>)
    ensures r.Some? <==> exists i :: 0 <= i < |s| && p(s[i])
    ensures r.Some? ==> exists i :: 0 <= i < |s| && s[i] == r.value && p(s[i]) && forall j :: 0 <= j < i ==> !p(s[j])
  {
    var k := FindIndex(s, p);
    if k < 0 then None else Some(s[k])
  }

  /** `slice(0, n)`: the first `min(n, |s|)` elements. */
  function Take<T>(s: seq<T>, n: nat): (r: seq<T>)
    ensures |r| == if n < |s| then n else |s|
    ensures forall i :: 0 <= i < |r| ==> r[i] == s[i]
  {
    if n < |s| then s[..n] else s
  }

  lemma {:induction false} FilterConcat<T>(a: seq<T>, b: seq<T>, p: T -> bool)
    ensures Filter(a + b, p) == Filter(a, p) + Filter(b, p)
    decreases |a|
  {
    if |a| == 0 {
      assert a + b == b;
    } else {
      assert (a + b)[1..] == a[1..] + b;
      FilterConcat(a[1..], b, p);
    }
  }

  /** The filtered sequence is an order-preserving subsequence of its input. */
  lemma {:induction false} FilterIsSubseq<T>(s: seq<T>, p: T -> bool)
    ensures IsSubseq(Filter(s, p), s)
    decreases |s|
  {
    if |s| > 0 {
      FilterIsSubseq(s[1..], p);
      var r := Filter(s, p);
      if p(s[0]) {
        assert r[0] == s[0] && r[1..] == Filter(s[1..], p);
      }
    }
  }

  /** A subsequence all of whose elements satisfy `p` is no longer than the filter. */
  lemma {:induction false} SubseqBound<T>(r: seq<T>, s: seq<T>, p: T -> bool)
    requires IsSubseq(r, s)
    requires forall i :: 0 <= i < |r| ==> p(r[i])
    ensures |r| <= Count(s, p)
    decreases |s|
  {
    if |r| > 0 {
      if r[0] == s[0] && IsSubseq(r[1..], s[1..]) {
        SubseqBound(r[1..], s[1..], p);
      } else {
        SubseqBound(r, s[1..], p);
      }
    }
  }

  /**
   * Filter is characterised independently of its definition: the unique
   * subsequence of `s` whose elements all satisfy `p` and which keeps every
   * element that does.
   */
  lemma {:induction false} FilterUnique<T>(r: seq<T>, s: seq<T>, p: T -> bool)
    requires IsSubseq(r, s)
    requires forall i :: 0 <= i < |r| ==> p(r[i])
    requires |r| == Count(s, p)
    ensures r == Filter(s, p)
    decreases |s|
  {
    if |s| == 0 {
    } else if p(s[0]) {
      if |r| > 0 && r[0] == s[0] && IsSubseq(r[1..], s[1..]) {
        FilterUnique(r[1..], s[1..], p);
        assert r == [r[0]] + r[1..];
      } else {
        SubseqBound(r, s[1..], p);
        assert false;
      }
    } else {
      if |r| > 0 {
        assert r[0] != s[0];
      }
      FilterUnique(r, s[1..], p);
    }
  }

  /** Count splits over two complementary predicates. */
  lemma {:induction false} CountComplement<T>(s: seq<T>, p: T -> bool, q: T -> bool)
    requires forall x :: p(x) <==> !q(x)
    ensures Count(s, p) + Count(s, q) == |s|
    decreases |s|
  {
    if |s| > 0 {
      CountComplement(s[1..], p, q);
    }
  }

  /** Filtering by a stronger predicate keeps no more elements. */
  lemma {:induction false} CountMonotone<T>(s: seq<T>, p: T -> bool, q: T -> bool)
    requires forall x :: p(x) ==> q(x)
    ensures Count(s, p) <= Count(s, q)
    decreases |s|
  {
    if |s| > 0 {
      CountMonotone(s[1..], p, q);
    }
  }

  lemma {:induction false} CountConcat<T>(a: seq<T>, b: seq<T>, p: T -> bool)
    ensures Count(a + b, p) == Count(a, p) + Count(b, p)
    decreases |a|
  {
    if |a| == 0 {
      assert a + b == b;
    } else {
      assert (a + b)[1..] == a[1..] + b;
      CountConcat(a[1..], b, p);
    }
  }

  /** Counting `q` among the elements that pass `p` is counting both tests at once. */
  lemma {:induction false} CountOfFilterBoth<T>(s: seq<T>, p: T -> bool, q: T -> bool, pq: T -> bool)
    requires forall x :: pq(x) <==> p(x) && q(x)
    ensures Count(Filter(s, p), q) == Count(s, pq)
    decreases |s|
  {
    if |s| > 0 {
      CountOfFilterBoth(s[1..], p, q, pq);
      if p(s[0]) {
        var f := Filter(s, p);
        assert f == [s[0]] + Filter(s[1..], p);
        assert f[1..] == Filter(s[1..], p);
      }
    }
  }

  /** Some element satisfies `p` exactly when the count is positive. */
  lemma {:induction false} CountPositive<T>(s: seq<T>, p: T -> bool)
    ensures Count(s, p) > 0 <==> exists i :: 0 <= i < |s| && p(s[i])
    decreases |s|
  {
    if |s| > 0 {
      CountPositive(s[1..], p);
      if exists i :: 0 <= i < |s[1..]| && p(s[1..][i]) {
        var i :| 0 <= i < |s[1..]| && p(s[1..][i]);
        assert p(s[i + 1]);
      }
      if exists i :: 0 <= i < |s| && p(s[i]) {
        var i :| 0 <= i < |s| && p(s[i]);
        if i > 0 {
          assert p(s[1..][i - 1]);
        }
      }
    }
  }

  /** A contiguous piece of a sequence has no more matching elements than the whole. */
  lemma {:induction false} CountInfix<T>(s: seq<T>, i: nat, j: nat, p: T -> bool)
    requires i <= j <= |s|
    ensures Count(s[i..j], p) <= Count(s, p)
  {
    assert s == s[..i] + s[i..j] + s[j..];
    CountConcat(s[..i] + s[i..j], s[j..], p);
    CountConcat(s[..i], s[i..j], p);
  }

  lemma {:induction false} CountNone<T>(s: seq<T>, p: T -> bool)
    requires forall i :: 0 <= i < |s| ==> !p(s[i])
    ensures Count(s, p) == 0
    decreases |s|
  {
    if |s| > 0 {
      CountNone(s[1..], p);
    }
  }

  lemma {:induction false} FilterOne<T>(x: T, p: T -> bool)
    ensures Filter([x], p) == if p(x) then [x] else []
  {
    assert [x][1..] == [];
  }

  /** Putting the same element in front of two sequences keeps a relation between their filters. */
  lemma {:induction false} FilterConsBoth<T>(x: T, a: seq<T>, b: seq<T>, d: seq<T>, p: T -> bool)
    requires Filter(a, p) == Filter(b, p) + d
    ensures Filter([x] + a, p) == Filter([x] + b, p) + d
  {
    FilterConcat([x], a, p);
    FilterConcat([x], b, p);
    assert Filter([x], p) + (Filter(b, p) + d) == (Filter([x], p) + Filter(b, p)) + d;
  }

  /** A filter nothing passes is empty. */
  lemma {:induction false} FilterNone<T>(s: seq<T>, p: T -> bool)
    requires forall i :: 0 <= i < |s| ==> !p(s[i])
    ensures Filter(s, p) == []
  {
    CountNone(s, p);
  }

  /** A filter everything passes is the identity. */
  lemma {:induction false} FilterAll<T>(s: seq<T>, p: T -> bool)
    requires forall i :: 0 <= i < |s| ==> p(s[i])
    ensures Filter(s, p) == s
    decreases |s|
  {
    if |s| > 0 {
      FilterAll(s[1..], p);
    }
  }

  /** No element occurs twice. */
  predicate Distinct<T(==)>(s: seq<T>) {
    forall i, j :: 0 <= i < j < |s| ==> s[i] != s[j]
  }

  /** Filtering a sequence without repetitions gives one without repetitions. */
  lemma {:induction false} FilterDistinct<T>(s: seq<T>, p: T -> bool)
    requires Distinct(s)
    ensures Distinct(Filter(s, p))
    decreases |s|
  {
    if |s| > 0 {
      var rest := Filter(s[1..], p);
      FilterDistinct(s[1..], p);
      if p(s[0]) {
        FilterMembers(s[1..], p);
        assert s[0] !in s[1..] by {
          forall k | 0 <= k < |s[1..]|
            ensures s[1..][k] != s[0]
          {
            assert s[1..][k] == s[k + 1];
          }
        }
        assert s[0] !in rest;
        var r := Filter(s, p);
        assert r == [s[0]] + rest;
        forall i, j | 0 <= i < j < |r|
          ensures r[i] != r[j]
        {
          assert r[j] == rest[j - 1];
          if i > 0 {
            assert r[i] == rest[i - 1];
          }
        }
      }
    }
  }

  /** No two elements share a key. */
  predicate UniqueKeys<T, K(==)>(s: seq<T>, key: T -> K) {
    forall i, j :: 0 <= i < j < |s| ==> key(s[i]) != key(s[j])
  }

  /** Every element of a subsequence is an element of the sequence. */
  lemma {:induction false} SubseqMembers<T>(a: seq<T>, b: seq<T>)
    requires IsSubseq(a, b)
    ensures forall i :: 0 <= i < |a| ==> a[i] in b
    decreases |b|
  {
    if |a| > 0 {
      if a[0] == b[0] && IsSubseq(a[1..], b[1..]) {
        SubseqMembers(a[1..], b[1..]);
        forall i | 0 <= i < |a|
          ensures a[i] in b
        {
          if i > 0 {
            assert a[i] == a[1..][i - 1];
          }
        }
      } else {
        SubseqMembers(a, b[1..]);
      }
    }
  }

  /** A subsequence of a sequence with unique keys has unique keys. */
  lemma {:induction false} SubseqUniqueKeys<T, K>(a: seq<T>, b: seq<T>, key: T -> K)
    requires IsSubseq(a, b) && UniqueKeys(b, key)
    ensures UniqueKeys(a, key)
    decreases |b|
  {
    if |a| > 0 {
      assert UniqueKeys(b[1..], key) by {
        forall i, j | 0 <= i < j < |b[1..]|
          ensures key(b[1..][i]) != key(b[1..][j])
        {
          assert b[1..][i] == b[i + 1] && b[1..][j] == b[j + 1];
        }
      }
      if a[0] == b[0] && IsSubseq(a[1..], b[1..]) {
        SubseqUniqueKeys(a[1..], b[1..], key);
        SubseqMembers(a[1..], b[1..]);
        forall i, j | 0 <= i < j < |a|
          ensures key(a[i]) != key(a[j])
        {
          assert a[j] == a[1..][j - 1];
          if i > 0 {
            assert a[i] == a[1..][i - 1];
          } else {
            var m :| 0 <= m < |b[1..]| && b[1..][m] == a[j];
            assert b[m + 1] == a[j];
          }
        }
      } else {
        SubseqUniqueKeys(a, b[1..], key);
      }
    }
  }
}
