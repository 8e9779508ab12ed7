/**
  Sequence helpers: `Array.prototype.filter`, order-preserving subsequences, and
  `Array.prototype.slice` with its treatment of negative and out-of-range indices.
 */
module Seqs {

  /** `s.filter(p)`: the elements satisfying `p`, in their original order. */
  function Filter<T>(s: seq<T>, p: T -> bool): (r: seq<T>)
    ensures |r| <= |s|
    decreases |s|
  {
    if |s| == 0 then []
    else if p(s[0]) then [s[0]] + Filter(s[1..], p)
    else Filter(s[1..], p)
  }

  /** `r` is obtained from `s` by deleting elements, keeping the order of the rest. */
  predicate IsSubsequence<T(==)>(r: seq<T>, s: seq<T>)
    decreases |s|
  {
    |r| == 0 ||
    (|s| > 0 && ((r[0] == s[0] && IsSubsequence(r[1..], s[1..])) || IsSubsequence(r, s[1..])))
  }

  /** A filter only deletes: what it keeps is an order-preserving subsequence of its input. */
  lemma {:induction false} FilterIsSubsequence<T>(s: seq<T>, p: T -> bool)
    ensures IsSubsequence(Filter(s, p), s)
    decreases |s|
  {
    if |s| > 0 {
      FilterIsSubsequence(s[1..], p);
    }
  }

  /** An element is kept by a filter iff it was there and satisfies the predicate. */
  lemma {:induction false} FilterMembership<T>(s: seq<T>, p: T -> bool, x: T)
    ensures x in Filter(s, p) <==> x in s && p(x)
    decreases |s|
  {
    if |s| > 0 {
      FilterMembership(s[1..], p, x);
      assert s == [s[0]] + s[1..];
    }
  }

  /** Every element a filter keeps satisfies its predicate. */
  lemma FilterAllSatisfy<T>(s: seq<T>, p: T -> bool)
    ensures forall i :: 0 <= i < |Filter(s, p)| ==> p(Filter(s, p)[i])
  {
    forall i | 0 <= i < |Filter(s, p)| ensures p(Filter(s, p)[i]) {
      FilterMembership(s, p, Filter(s, p)[i]);
    }
  }

  /** Filters by predicates that agree everywhere give the same result. */
  lemma {:induction false} FilterSamePredicate<T>(s: seq<T>, p: T -> bool, p': T -> bool)
    requires forall x :: p(x) == p'(x)
    ensures Filter(s, p) == Filter(s, p')
    decreases |s|
  {
    if |s| > 0 {
      FilterSamePredicate(s[1..], p, p');
    }
  }

  /** Filtering twice is filtering once by the conjunction. */
  lemma {:induction false} FilterFilter<T>(s: seq<T>, p: T -> bool, q: T -> bool, both: T -> bool)
    requires forall x :: both(x) == (p(x) && q(x))
    ensures Filter(Filter(s, p), q) == Filter(s, both)
    decreases |s|
  {
    if |s| > 0 {
      FilterFilter(s[1..], p, q, both);
    }
  }

  /** A predicate that holds of every element filters nothing away. */
  lemma {:induction false} FilterKeepsAll<T>(s: seq<T>, p: T -> bool)
    requires forall i :: 0 <= i < |s| ==> p(s[i])
    ensures Filter(s, p) == s
    decreases |s|
  {
    if |s| > 0 {
      FilterKeepsAll(s[1..], p);
      assert s == [s[0]] + s[1..];
    }
  }

  /** Filtering distributes over concatenation. */
  lemma {:induction false} FilterAppend<T>(a: seq<T>, b: seq<T>, p: T -> bool)
    ensures Filter(a + b, p) == Filter(a, p) + Filter(b, p)
    decreases |a|
  {
    if |a| > 0 {
      FilterAppend(a[1..], b, p);
      assert (a + b)[0] == a[0];
      assert (a + b)[1..] == a[1..] + b;
    } else {
      assert a + b == b;
    }
  }

  /** How `slice` reads one of its index arguments: negative counts from the end, clamped to `0..n`. */
  function SliceIndex(i: int, n: nat): (r: nat)
    ensures r <= n
  {
    if i < 0 then (if n + i < 0 then 0 else n + i) else if i > n then n else i
  }

  /** `s.slice(start, end)` */
  function JsSlice<T>(s: seq<T>, start: int, end: int): (r: seq<T>)
    ensures |r| <= |s|
  {
    var from := SliceIndex(start, |s|);
    var to := SliceIndex(end, |s|);
    if from < to then s[from..to] else []
  }

  /**
    With non-negative bounds, `slice` is the window `[start, end)` of `s` cut at its length:
    at most `end - start` elements, each taken from position `start + k`.
   */
  lemma JsSliceWindow<T>(s: seq<T>, start: int, end: int)
    requires 0 <= start && 0 <= end
    ensures |JsSlice(s, start, end)| <= if end > start then end - start else 0
    ensures |JsSlice(s, start, end)| == if start < end && start < |s| then (if end < |s| then end else |s|) - start else 0
    ensures forall k :: 0 <= k < |JsSlice(s, start, end)| ==> JsSlice(s, start, end)[k] == s[start + k]
  {
  }

  /** However `start` is signed, a slice of width `len` has at most `len` elements. */
  lemma JsSliceAtMost<T>(s: seq<T>, start: int, len: int)
    requires 0 <= len
    ensures |JsSlice(s, start, start + len)| <= len
  {
  }
}
