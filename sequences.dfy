/**
 * The two iterator adaptors the handlers use on their record lists:
 * `filter` (keep the elements a closure accepts, in order) and
 * `find` (the first element a closure accepts).
 */
module Sequences {
  import opened Wrappers

  /** `a` is obtained from `b` by deleting elements, without reordering the rest. */
  predicate IsSubsequence<T(==)>(a: seq<T>, b: seq<T>)
    decreases |b|
  {
    a == [] ||
    (b != [] && ((a[0] == b[0] && IsSubsequence(a[1..], b[1..])) || IsSubsequence(a, b[1..])))
  }

  /** `s.into_iter().filter(keep).collect()`. */
  function Retain<T(==)>(s: seq<T>, keep: T -> bool): (r: seq<T>)
    ensures |r| <= |s|
    ensures forall x | x in r :: x in s && keep(x)
    ensures forall x | x in s && keep(x) :: x in r
  {
    if s == [] then []
    else if keep(s[0]) then [s[0]] + Retain(s[1..], keep)
    else Retain(s[1..], keep)
  }

  /** Filtering keeps the input order: the result is a subsequence of the input. */
  lemma {:induction false} RetainIsSubsequence<T>(s: seq<T>, keep: T -> bool)
    ensures IsSubsequence(Retain(s, keep), s)
  {
    if s != [] {
      RetainIsSubsequence(s[1..], keep);
      var r := Retain(s, keep);
      if keep(s[0]) {
        assert r[0] == s[0] && r[1..] == Retain(s[1..], keep);
      } else {
        assert r == Retain(s[1..], keep);
      }
    }
  }

  /**
   * Filtering keeps every occurrence of an accepted value and none of a
   * rejected one; with RetainIsSubsequence this pins the result down.
   */
  lemma {:induction false} RetainMultiplicity<T>(s: seq<T>, keep: T -> bool, x: T)
    ensures multiset(Retain(s, keep))[x] == if keep(x) then multiset(s)[x] else 0
  {
    if s != [] {
      RetainMultiplicity(s[1..], keep, x);
      assert s == [s[0]] + s[1..];
      assert multiset(s) == multiset([s[0]]) + multiset(s[1..]);
      if keep(s[0]) {
        assert multiset(Retain(s, keep)) == multiset([s[0]]) + multiset(Retain(s[1..], keep));
      }
    }
  }

  /** Filtering distributes over concatenation. */
  lemma {:induction false} RetainAppend<T>(a: seq<T>, b: seq<T>, keep: T -> bool)
    ensures Retain(a + b, keep) == Retain(a, keep) + Retain(b, keep)
  {
    if a == [] {
      assert a + b == b;
    } else {
      assert (a + b)[0] == a[0] && (a + b)[1..] == a[1..] + b;
      RetainAppend(a[1..], b, keep);
    }
  }

  /** When the closure accepts every element, filtering returns the input unchanged. */
  lemma {:induction false} RetainAllKept<T>(s: seq<T>, keep: T -> bool)
    requires forall i :: 0 <= i < |s| ==> keep(s[i])
    ensures Retain(s, keep) == s
  {
    if s != [] {
      RetainAllKept(s[1..], keep);
    }
  }

  /** When the closure rejects every element, filtering returns nothing. */
  lemma {:induction false} RetainNoneKept<T>(s: seq<T>, keep: T -> bool)
    requires forall i :: 0 <= i < |s| ==> !keep(s[i])
    ensures Retain(s, keep) == []
  {
    if s != [] {
      RetainNoneKept(s[1..], keep);
    }
  }

  /** When exactly one element is accepted, filtering returns just that element. */
  lemma RetainSingle<T>(s: seq<T>, keep: T -> bool, i: nat)
    requires i < |s| && keep(s[i])
    requires forall j :: 0 <= j < |s| && j != i ==> !keep(s[j])
    ensures Retain(s, keep) == [s[i]]
  {
    var pre, post := s[..i], s[i + 1..];
    assert s == pre + [s[i]] + post;
    RetainAppend(pre + [s[i]], post, keep);
    RetainAppend(pre, [s[i]], keep);
    RetainNoneKept(pre, keep);
    assert forall k :: 0 <= k < |post| ==> post[k] == s[i + 1 + k];
    RetainNoneKept(post, keep);
  }

  /** Filtering twice with the same closure is filtering once. */
  lemma RetainIdempotent<T>(s: seq<T>, keep: T -> bool)
    ensures Retain(Retain(s, keep), keep) == Retain(s, keep)
  {
    RetainAllKept(Retain(s, keep), keep);
  }

  /** Filtering by `p` and then by `q` is filtering once by their conjunction. */
  lemma {:induction false} RetainFused<T>(s: seq<T>, p: T -> bool, q: T -> bool, both: T -> bool)
    requires forall x :: both(x) == (p(x) && q(x))
    ensures Retain(Retain(s, p), q) == Retain(s, both)
  {
    if s != [] {
      RetainFused(s[1..], p, q, both);
      if p(s[0]) {
        var t := Retain(s, p);
        assert t[0] == s[0] && t[1..] == Retain(s[1..], p);
      }
    }
  }

  /** `s.iter().position(pred)`: the index of the first element `pred` accepts. */
  function FirstIndex<T>(s: seq<T>, pred: T -> bool): (r: Option<nat>)
    ensures r.None? <==> forall i :: 0 <= i < |s| ==> !pred(s[i])
    ensures r.Some? ==> r.value < |s| && pred(s[r.value])
    ensures r.Some? ==> forall j :: 0 <= j < r.value ==> !pred(s[j])
  {
    if s == [] then None
    else if pred(s[0]) then Some(0)
    else match FirstIndex(s[1..], pred)
      case None => None
      case Some(i) => Some(i + 1)
  }

  /** `s.into_iter().find(pred)`: the first element `pred` accepts. */
  function Find<T>(s: seq<T>, pred: T -> bool): (r: Option<T>)
    ensures r.None? <==> forall i :: 0 <= i < |s| ==> !pred(s[i])
    ensures r.Some? ==> exists i :: 0 <= i < |s| && s[i] == r.value && pred(s[i]) &&
                                    forall j :: 0 <= j < i ==> !pred(s[j])
  {
    match FirstIndex(s, pred)
    case None => None
    case Some(i) => Some(s[i])
  }
}
