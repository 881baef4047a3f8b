/**
 * Generic operations over the sequences that stand for a document collection:
 * a `$match`-style filter, a `$sum`-style fold, "find the first match", removal
 * by position, and a uniqueness discipline on keys.
 */
module Folds {
  import opened Wrappers

  /** The elements of `s` that satisfy `p`, in their original order. */
  function Filter<T>(s: seq<T>, p: T -> bool): (r: seq<T>)
    ensures |r| <= |s|
    ensures forall i :: 0 <= i < |r| ==> r[i] in s && p(r[i])
    ensures forall i :: 0 <= i < |s| && p(s[i]) ==> s[i] in r
  {
    if s == [] then []
    else
      assert s == [s[0]] + s[1..];
      (if p(s[0]) then [s[0]] else []) + Filter(s[1..], p)
  }

  lemma {:induction false} FilterAppend<T>(a: seq<T>, b: seq<T>, p: T -> bool)
    ensures Filter(a + b, p) == Filter(a, p) + Filter(b, p)
  {
    if a == [] {
      assert a + b == b;
    } else {
      assert (a + b)[1..] == a[1..] + b;
      FilterAppend(a[1..], b, p);
    }
  }

  /** Two predicates that agree on every element select the same subsequence. */
  lemma {:induction false} FilterCongruent<T>(s: seq<T>, p: T -> bool, q: T -> bool)
    requires forall i :: 0 <= i < |s| ==> p(s[i]) == q(s[i])
    ensures Filter(s, p) == Filter(s, q)
  {
    if s != [] {
      FilterCongruent(s[1..], p, q);
    }
  }

  /** A predicate that no element satisfies selects nothing. */
  lemma FilterNone<T>(s: seq<T>, p: T -> bool)
    requires forall i :: 0 <= i < |s| ==> !p(s[i])
    ensures Filter(s, p) == []
  {
  }

  /** The sum of `f` over `s`. */
  function SumOf<T>(s: seq<T>, f: T -> real): real
  {
    if s == [] then 0.0 else f(s[0]) + SumOf(s[1..], f)
  }

  lemma {:induction false} SumAppend<T>(a: seq<T>, b: seq<T>, f: T -> real)
    ensures SumOf(a + b, f) == SumOf(a, f) + SumOf(b, f)
  {
    if a == [] {
      assert a + b == b;
    } else {
      assert (a + b)[1..] == a[1..] + b;
      SumAppend(a[1..], b, f);
    }
  }

  /** Taking one summand out of the sum. */
  lemma {:induction false} SumRemoveAt<T>(s: seq<T>, k: nat, f: T -> real)
    requires k < |s|
    ensures SumOf(s, f) == f(s[k]) + SumOf(RemoveAt(s, k), f)
  {
    var r := RemoveAt(s, k);
    if k == 0 {
      assert r == s[1..];
    } else {
      var tail := RemoveAt(s[1..], k - 1);
      SumRemoveAt(s[1..], k - 1, f);
      assert r == [s[0]] + tail;
      assert r[1..] == tail;
    }
  }

  /** A sum does not depend on the order of the summands. */
  lemma {:induction false} SumPermutation<T>(a: seq<T>, b: seq<T>, f: T -> real)
    requires multiset(a) == multiset(b)
    ensures SumOf(a, f) == SumOf(b, f)
  {
    if a == [] {
      assert |b| == |multiset(b)| == 0;
    } else {
      assert a[0] in multiset(b);
      var k :| 0 <= k < |b| && b[k] == a[0];
      assert a == [a[0]] + a[1..];
      assert multiset(a[1..]) == multiset(a) - multiset{a[0]};
      RemoveAtMultiset(b, k);
      SumPermutation(a[1..], RemoveAt(b, k), f);
      SumRemoveAt(b, k, f);
    }
  }

  /**
   * Splitting a selection by two disjoint predicates that together make up `r`
   * splits its sum.
   */
  lemma {:induction false} SumFilterDisjoint<T>(s: seq<T>, r: T -> bool, p: T -> bool, q: T -> bool, f: T -> real)
    requires forall i :: 0 <= i < |s| ==> (r(s[i]) <==> p(s[i]) || q(s[i]))
    requires forall i :: 0 <= i < |s| ==> !(p(s[i]) && q(s[i]))
    ensures SumOf(Filter(s, r), f) == SumOf(Filter(s, p), f) + SumOf(Filter(s, q), f)
  {
    if s != [] {
      SumFilterDisjoint(s[1..], r, p, q, f);
      var x := s[0];
      SumAppend(if r(x) then [x] else [], Filter(s[1..], r), f);
      SumAppend(if p(x) then [x] else [], Filter(s[1..], p), f);
      SumAppend(if q(x) then [x] else [], Filter(s[1..], q), f);
    }
  }

  lemma {:induction false} SumNonNegative<T>(s: seq<T>, f: T -> real)
    requires forall i :: 0 <= i < |s| ==> f(s[i]) >= 0.0
    ensures SumOf(s, f) >= 0.0
  {
    if s != [] {
      SumNonNegative(s[1..], f);
    }
  }

  /** The position of the first element that satisfies `p` (`findOne`). */
  function FirstIndex<T>(s: seq<T>, p: T -> bool): (r: Option<nat>)
    ensures r.Some? ==> r.value < |s| && p(s[r.value])
    ensures r.Some? ==> forall i :: 0 <= i < r.value ==> !p(s[i])
    ensures r.None? <==> forall i :: 0 <= i < |s| ==> !p(s[i])
  {
    if s == [] then None
    else if p(s[0]) then Some(0)
    else
      match FirstIndex(s[1..], p)
      case None => None
      case Some(k) => Some(k + 1)
  }

  /** `s` without its element at position `k`. */
  function RemoveAt<T>(s: seq<T>, k: nat): (r: seq<T>)
    requires k < |s|
    ensures |r| == |s| - 1
    ensures forall i :: 0 <= i < k ==> r[i] == s[i]
    ensures forall i :: k <= i < |r| ==> r[i] == s[i + 1]
  {
    s[..k] + s[k + 1..]
  }

  lemma RemoveAtMultiset<T>(s: seq<T>, k: nat)
    requires k < |s|
    ensures multiset(RemoveAt(s, k)) == multiset(s) - multiset{s[k]}
  {
    assert s == s[..k] + [s[k]] + s[k + 1..];
  }

  /** No two elements of `s` share a key. */
  predicate KeysDistinct<T, K(==)>(s: seq<T>, key: T -> K)
  {
    forall i, j :: 0 <= i < |s| && 0 <= j < |s| && i != j ==> key(s[i]) != key(s[j])
  }

  /** Every key in `s` is below `bound`: a counter at `bound` hands out fresh keys. */
  predicate KeysBelow<T>(s: seq<T>, key: T -> nat, bound: nat)
  {
    forall i :: 0 <= i < |s| ==> key(s[i]) < bound
  }

  lemma KeysDistinctRemove<T, K>(s: seq<T>, key: T -> K, k: nat)
    requires k < |s| && KeysDistinct(s, key)
    ensures KeysDistinct(RemoveAt(s, k), key)
    ensures forall i :: 0 <= i < |RemoveAt(s, k)| ==> key(RemoveAt(s, k)[i]) != key(s[k])
  {
    var r := RemoveAt(s, k);
    forall i, j | 0 <= i < |r| && 0 <= j < |r| && i != j
      ensures key(r[i]) != key(r[j])
    {
      var i' := if i < k then i else i + 1;
      var j' := if j < k then j else j + 1;
      assert r[i] == s[i'] && r[j] == s[j'];
    }
    forall i | 0 <= i < |r|
      ensures key(r[i]) != key(s[k])
    {
      var i' := if i < k then i else i + 1;
      assert r[i] == s[i'];
    }
  }

  lemma KeysDistinctAppend<T, K>(s: seq<T>, key: T -> K, x: T)
    requires KeysDistinct(s, key)
    requires forall i :: 0 <= i < |s| ==> key(s[i]) != key(x)
    ensures KeysDistinct(s + [x], key)
  {
  }

  lemma KeysDistinctReplace<T, K>(s: seq<T>, key: T -> K, k: nat, x: T)
    requires k < |s| && KeysDistinct(s, key) && key(x) == key(s[k])
    ensures KeysDistinct(s[k := x], key)
  {
  }

  /** With distinct keys, the element carrying a key is the only one carrying it. */
  lemma KeysDistinctUnique<T, K>(s: seq<T>, key: T -> K, k: nat)
    requires k < |s| && KeysDistinct(s, key)
    ensures forall i :: 0 <= i < |s| && key(s[i]) == key(s[k]) ==> i == k
  {
  }
}
