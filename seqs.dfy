/**
 * Generic sequence facts used by every list transform of the storefront:
 * `Filter` is JavaScript's `Array.prototype.filter`, `Subseq` says that one
 * sequence is the other with some elements dropped and the rest kept in order.
 */
module Seqs {

  /** The elements of `s` on which `f` holds, in their original order. */
  function Filter<T(!new)>(f: T -> bool, s: seq<T>): (r: seq<T>)
    ensures |r| <= |s|
    ensures forall x :: x in r <==> x in s && f(x)
    decreases |s|
  {
    if s == [] then []
    else if f(s[0]) then [s[0]] + Filter(f, s[1..])
    else Filter(f, s[1..])
  }

  /** `r` is obtained from `s` by deleting elements, keeping the order of the rest. */
  ghost predicate Subseq<T>(r: seq<T>, s: seq<T>)
    decreases |s|
  {
    r == [] || (s != [] && ((r[0] == s[0] && Subseq(r[1..], s[1..])) || Subseq(r, s[1..])))
  }

  /** No two elements of `s` have the same key. */
  ghost predicate DistinctKeys<T, K>(key: T -> K, s: seq<T>)
  {
    forall i, j :: 0 <= i < j < |s| ==> key(s[i]) != key(s[j])
  }

  /** Dropping the first element keeps the keys distinct. */
  lemma DistinctKeysTail<T, K>(key: T -> K, s: seq<T>)
    requires s != [] && DistinctKeys(key, s)
    ensures DistinctKeys(key, s[1..])
  {
    forall i, j | 0 <= i < j < |s[1..]| ensures key(s[1..][i]) != key(s[1..][j]) {
      assert s[1..][i] == s[i + 1] && s[1..][j] == s[j + 1];
    }
  }

  /** Filtering keeps the relative order of the elements it keeps. */
  lemma {:induction false} FilterIsSubseq<T(!new)>(f: T -> bool, s: seq<T>)
    ensures Subseq(Filter(f, s), s)
    decreases |s|
  {
    if s != [] {
      FilterIsSubseq(f, s[1..]);
      var r := Filter(f, s);
      if f(s[0]) {
        assert r[0] == s[0] && r[1..] == Filter(f, s[1..]);
      }
    }
  }

  /** Filtering distributes over concatenation. */
  lemma {:induction false} FilterConcat<T(!new)>(f: T -> bool, a: seq<T>, b: seq<T>)
    ensures Filter(f, a + b) == Filter(f, a) + Filter(f, b)
    decreases |a|
  {
    if a == [] {
      assert a + b == b;
    } else {
      assert (a + b)[0] == a[0];
      assert (a + b)[1..] == a[1..] + b;
      FilterConcat(f, a[1..], b);
      if f(a[0]) {
        assert Filter(f, a + b) == [a[0]] + Filter(f, a[1..] + b);
      } else {
        assert Filter(f, a + b) == Filter(f, a[1..] + b);
      }
    }
  }

  /** Filtering keeps every occurrence of an element that passes and none of one that fails. */
  lemma {:induction false} FilterCount<T(!new)>(f: T -> bool, s: seq<T>)
    ensures forall x :: multiset(Filter(f, s))[x] == if f(x) then multiset(s)[x] else 0
    decreases |s|
  {
    if s != [] {
      FilterCount(f, s[1..]);
      assert s == [s[0]] + s[1..];
      assert multiset(s) == multiset{s[0]} + multiset(s[1..]);
      if f(s[0]) {
        assert multiset(Filter(f, s)) == multiset{s[0]} + multiset(Filter(f, s[1..]));
      }
    }
  }

  /** A filter that every element passes leaves the sequence as it was. */
  lemma {:induction false} FilterKeepsAll<T(!new)>(f: T -> bool, s: seq<T>)
    requires forall x :: x in s ==> f(x)
    ensures Filter(f, s) == s
    decreases |s|
  {
    if s != [] {
      assert forall x :: x in s[1..] ==> x in s;
      FilterKeepsAll(f, s[1..]);
      assert [s[0]] + s[1..] == s;
    }
  }

  /** A filter that every position passes leaves the sequence as it was. */
  lemma FilterKeepsIndexed<T(!new)>(f: T -> bool, s: seq<T>)
    requires forall j :: 0 <= j < |s| ==> f(s[j])
    ensures Filter(f, s) == s
  {
    forall x | x in s ensures f(x) {
      var j :| 0 <= j < |s| && s[j] == x;
    }
    FilterKeepsAll(f, s);
  }

  /** A filter that rejects exactly one position cuts that element out. */
  lemma {:induction false} FilterRemovesOne<T(!new)>(f: T -> bool, s: seq<T>, k: int)
    requires 0 <= k < |s| && !f(s[k])
    requires forall j :: 0 <= j < |s| && j != k ==> f(s[j])
    ensures Filter(f, s) == s[..k] + s[k + 1..]
    decreases |s|
  {
    var t := s[1..];
    if k == 0 {
      FilterKeepsIndexed(f, t);
    } else {
      FilterRemovesOne(f, t, k - 1);
      assert t[..k - 1] + t[k..] == s[1..k] + s[k + 1..];
      assert [s[0]] + s[1..k] == s[..k];
    }
  }

  /** Applying the same filter twice is the same as applying it once. */
  lemma FilterIdempotent<T(!new)>(f: T -> bool, s: seq<T>)
    ensures Filter(f, Filter(f, s)) == Filter(f, s)
  {
    FilterKeepsAll(f, Filter(f, s));
  }

  /** Two predicates that agree on every element of `s` select the same elements. */
  lemma {:induction false} FilterCongruent<T(!new)>(f: T -> bool, g: T -> bool, s: seq<T>)
    requires forall x :: x in s ==> f(x) == g(x)
    ensures Filter(f, s) == Filter(g, s)
    decreases |s|
  {
    if s != [] {
      assert forall x :: x in s[1..] ==> x in s;
      FilterCongruent(f, g, s[1..]);
    }
  }

  /** Deleting elements cannot create two elements with the same key. */
  lemma {:induction false} SubseqDistinct<T, K>(key: T -> K, r: seq<T>, s: seq<T>)
    requires Subseq(r, s) && DistinctKeys(key, s)
    ensures DistinctKeys(key, r)
    ensures forall x :: x in r ==> x in s
    decreases |s|
  {
    if r != [] {
      DistinctKeysTail(key, s);
      if r[0] == s[0] && Subseq(r[1..], s[1..]) {
        SubseqDistinct(key, r[1..], s[1..]);
        forall i, j | 0 <= i < j < |r| ensures key(r[i]) != key(r[j]) {
          assert r[j] == r[1..][j - 1];
          assert r[j] in s[1..];
          var m :| 0 <= m < |s[1..]| && s[1..][m] == r[j];
          assert s[m + 1] == r[j];
          if i == 0 {
            assert key(s[0]) != key(s[m + 1]);
          } else {
            assert r[i] == r[1..][i - 1];
          }
        }
        forall x | x in r ensures x in s {
          if x != r[0] {
            assert x in r[1..];
          }
        }
      } else {
        SubseqDistinct(key, r, s[1..]);
      }
    }
  }
}
