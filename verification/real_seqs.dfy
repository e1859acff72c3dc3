/**
 Sequences of real numbers: sums of a term over a sequence, extrema, sortedness,
 and a functional sort. Both the summary metrics and the outlier detector are
 built from these.
 */
module RealSeqs {

  /** Sum of `f` over the elements of `s`, folded from the front. */
  function SumOf(s: seq<real>, f: real -> real): real
  {
    if |s| == 0 then 0.0 else f(s[0]) + SumOf(s[1..], f)
  }

  lemma SumOfCons(s: seq<real>, f: real -> real)
    requires |s| > 0
    ensures SumOf(s, f) == f(s[0]) + SumOf(s[1..], f)
  {
  }

  function Identity(x: real): real
  {
    x
  }

  /** Plain sum of the elements. */
  function Sum(s: seq<real>): real
  {
    SumOf(s, Identity)
  }

  /** Removing one element from a sum leaves the rest of the sum. */
  lemma {:induction false} SumOfRemove(s: seq<real>, i: nat, f: real -> real)
    requires i < |s|
    ensures SumOf(s, f) == f(s[i]) + SumOf(s[..i] + s[i+1..], f)
  {
    if i > 0 {
      SumOfRemove(s[1..], i - 1, f);
      assert s[..i] + s[i+1..] == [s[0]] + (s[1..][..i-1] + s[1..][i..]);
    } else {
      assert s[..i] + s[i+1..] == s[1..];
    }
  }

  /** A sum does not depend on the order of its terms. */
  lemma {:induction false} SumOfPermutation(a: seq<real>, b: seq<real>, f: real -> real)
    requires multiset(a) == multiset(b)
    ensures SumOf(a, f) == SumOf(b, f)
  {
    if |a| == 0 {
      assert |b| == |multiset(b)| == 0;
    } else {
      assert a[0] in multiset(b);
      var i :| 0 <= i < |b| && b[i] == a[0];
      var rest := b[..i] + b[i+1..];
      assert multiset(a[1..]) == multiset(a) - multiset{a[0]} by {
        assert a == [a[0]] + a[1..];
      }
      assert multiset(rest) == multiset(b) - multiset{b[i]} by {
        assert b == b[..i] + [b[i]] + b[i+1..];
      }
      SumOfPermutation(a[1..], rest, f);
      SumOfRemove(b, i, f);
    }
  }

  /** Every term bounded by `lo` and `hi` bounds the sum by |s|·lo and |s|·hi. */
  lemma {:induction false} SumOfBounds(s: seq<real>, f: real -> real, lo: real, hi: real)
    requires forall i :: 0 <= i < |s| ==> lo <= f(s[i]) <= hi
    ensures (|s| as real) * lo <= SumOf(s, f) <= (|s| as real) * hi
  {
    if |s| > 0 {
      SumOfBounds(s[1..], f, lo, hi);
    }
  }

  /** Bounds on the elements bound the plain sum. */
  lemma SumBounds(s: seq<real>, lo: real, hi: real)
    requires forall i :: 0 <= i < |s| ==> lo <= s[i] <= hi
    ensures (|s| as real) * lo <= Sum(s) <= (|s| as real) * hi
  {
    SumOfBounds(s, Identity, lo, hi);
  }

  /** A sum of non-negative terms is zero exactly when every term is zero. */
  lemma {:induction false} SumOfZero(s: seq<real>, f: real -> real)
    requires forall i :: 0 <= i < |s| ==> f(s[i]) >= 0.0
    ensures SumOf(s, f) >= 0.0
    ensures SumOf(s, f) == 0.0 <==> forall i :: 0 <= i < |s| ==> f(s[i]) == 0.0
  {
    if |s| > 0 {
      assert forall i :: 0 <= i < |s| - 1 ==> s[1..][i] == s[i + 1];
      SumOfZero(s[1..], f);
    }
  }

  /** Smallest element. */
  function Min(s: seq<real>): (m: real)
    requires |s| > 0
    ensures m in s
    ensures forall i :: 0 <= i < |s| ==> m <= s[i]
  {
    if |s| == 1 then s[0]
    else
      var rest := Min(s[1..]);
      if s[0] <= rest then s[0] else rest
  }

  /** Largest element. */
  function Max(s: seq<real>): (m: real)
    requires |s| > 0
    ensures m in s
    ensures forall i :: 0 <= i < |s| ==> s[i] <= m
  {
    if |s| == 1 then s[0]
    else
      var rest := Max(s[1..]);
      if s[0] >= rest then s[0] else rest
  }

  /** Non-decreasing order. */
  predicate Sorted(s: seq<real>)
  {
    forall i, j :: 0 <= i < j < |s| ==> s[i] <= s[j]
  }

  /** A sequence that never steps down is sorted. */
  lemma {:induction false} SortedFromSteps(s: seq<real>)
    requires forall i :: 0 <= i < |s| - 1 ==> s[i] <= s[i + 1]
    ensures Sorted(s)
  {
    if |s| > 1 {
      SortedFromSteps(s[1..]);
      assert forall i :: 0 <= i < |s| - 1 ==> s[1..][i] == s[i + 1];
      assert s[0] <= s[1];
    }
  }

  /** Inserts `x` into a sorted sequence, before the first element not below it. */
  function Insert(x: real, s: seq<real>): (r: seq<real>)
    requires Sorted(s)
    ensures Sorted(r)
    ensures multiset(r) == multiset(s) + multiset{x}
  {
    if |s| == 0 then [x]
    else if x <= s[0] then [x] + s
    else
      var tail := Insert(x, s[1..]);
      assert s == [s[0]] + s[1..];
      LowerBoundKept(s[0], s[1..] + [x], tail);
      SortedCons(s[0], tail);
      [s[0]] + tail
  }

  /** A lower bound of every element is a lower bound of every rearrangement. */
  lemma LowerBoundKept(lo: real, s: seq<real>, t: seq<real>)
    requires forall i :: 0 <= i < |s| ==> lo <= s[i]
    requires multiset(t) == multiset(s)
    ensures forall k :: 0 <= k < |t| ==> lo <= t[k]
  {
    forall k | 0 <= k < |t|
      ensures lo <= t[k]
    {
      assert t[k] in multiset(s);
    }
  }

  /** Prepending a lower bound keeps a sequence sorted. */
  lemma SortedCons(x: real, s: seq<real>)
    requires Sorted(s)
    requires forall k :: 0 <= k < |s| ==> x <= s[k]
    ensures Sorted([x] + s)
  {
  }

  /** Insertion sort: a sorted permutation of the input. */
  function Sort(s: seq<real>): (r: seq<real>)
    ensures Sorted(r)
    ensures multiset(r) == multiset(s)
    ensures |r| == |s|
  {
    if |s| == 0 then []
    else
      assert s == [s[0]] + s[1..];
      Insert(s[0], Sort(s[1..]))
  }

  /** Two sorted sequences holding the same elements are equal, so every
      sorting algorithm yields the sequence `Sort` yields. */
  lemma {:induction false} SortedPermutationUnique(a: seq<real>, b: seq<real>)
    requires Sorted(a) && Sorted(b)
    requires multiset(a) == multiset(b)
    ensures a == b
  {
    if |a| == 0 {
      assert |b| == |multiset(b)| == 0;
    } else {
      assert |b| == |multiset(b)| == |a|;
      assert a[0] in multiset(b);
      assert b[0] in multiset(a);
      assert a[0] == b[0];
      assert a == [a[0]] + a[1..];
      assert b == [b[0]] + b[1..];
      assert multiset(a) == multiset{a[0]} + multiset(a[1..]);
      assert multiset(b) == multiset{b[0]} + multiset(b[1..]);
      assert multiset(a[1..]) == multiset(a) - multiset{a[0]};
      assert multiset(b[1..]) == multiset(b) - multiset{b[0]};
      SortedPermutationUnique(a[1..], b[1..]);
    }
  }

  /** Sorting a permutation gives the same sequence. */
  lemma SortPermutation(a: seq<real>, b: seq<real>)
    requires multiset(a) == multiset(b)
    ensures Sort(a) == Sort(b)
  {
    SortedPermutationUnique(Sort(a), Sort(b));
  }
}
