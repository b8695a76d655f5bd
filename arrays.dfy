/**
 * The JavaScript array built-ins the pages use, on sequences: `filter`,
 * `reduce` to a sum, `slice(0, n)` and a stable `sort` with a descending
 * comparator.
 */
module Arrays {
  import opened Wrappers

  // --------------------------------------------------------------- filter

  /** `xs.filter(p)`: the elements satisfying p, in their original order. */
  function Filter<T>(xs: seq<T>, p: T -> bool): (r: seq<T>)
    ensures |r| <= |xs|
    decreases |xs|
  {
    if xs == [] then []
    else
      var last := xs[|xs| - 1];
      Filter(xs[..|xs| - 1], p) + if p(last) then [last] else []
  }

  /** The filtered list holds the elements satisfying p and only those, no more often than xs does. */
  lemma {:induction false} FilterMembers<T>(xs: seq<T>, p: T -> bool)
    ensures forall x :: x in Filter(xs, p) <==> x in xs && p(x)
    ensures multiset(Filter(xs, p)) <= multiset(xs)
    decreases |xs|
  {
    if xs != [] {
      var init := xs[..|xs| - 1];
      FilterMembers(init, p);
      assert xs == init + [xs[|xs| - 1]];
    }
  }

  /** Filtering a concatenation filters each part. */
  lemma {:induction false} FilterAppend<T>(xs: seq<T>, ys: seq<T>, p: T -> bool)
    ensures Filter(xs + ys, p) == Filter(xs, p) + Filter(ys, p)
    decreases |ys|
  {
    if ys == [] {
      assert xs + ys == xs;
    } else {
      var init := ys[..|ys| - 1];
      assert (xs + ys)[..|xs + ys| - 1] == xs + init;
      assert (xs + ys)[|xs + ys| - 1] == ys[|ys| - 1];
      FilterAppend(xs, init, p);
    }
  }

  // ------------------------------------------------------------------ find

  /** The index of the element `xs.find(p)` returns, if any. */
  function FindIndex<T>(xs: seq<T>, p: T -> bool): (r: Option<nat>)
    ensures r.Some? ==> r.value < |xs| && p(xs[r.value])
    ensures r.Some? ==> forall j :: 0 <= j < r.value ==> !p(xs[j])
    ensures r.None? ==> forall j :: 0 <= j < |xs| ==> !p(xs[j])
  {
    if xs == [] then None
    else if p(xs[0]) then Some(0)
    else
      match FindIndex(xs[1..], p)
      case Some(i) => Some(i + 1)
      case None => None
  }

  // ------------------------------------------------------------ reduce (+)

  /** `xs.reduce((acc, x) => acc + f(x), 0)`. */
  function SumOf<T>(xs: seq<T>, f: T -> real): real
  {
    if xs == [] then 0.0 else SumOf(xs[..|xs| - 1], f) + f(xs[|xs| - 1])
  }

  /** A sum over a concatenation is the sum of the two sums. */
  lemma {:induction false} SumAppend<T>(xs: seq<T>, ys: seq<T>, f: T -> real)
    ensures SumOf(xs + ys, f) == SumOf(xs, f) + SumOf(ys, f)
    decreases |ys|
  {
    if ys != [] {
      assert (xs + ys)[..|xs + ys| - 1] == xs + ys[..|ys| - 1];
      assert (xs + ys)[|xs + ys| - 1] == ys[|ys| - 1];
      SumAppend(xs, ys[..|ys| - 1], f);
    } else {
      assert xs + ys == xs;
    }
  }

  /** A sum of non-negative terms is non-negative. */
  lemma {:induction false} SumNonNegative<T>(xs: seq<T>, f: T -> real)
    requires forall k :: 0 <= k < |xs| ==> f(xs[k]) >= 0.0
    ensures SumOf(xs, f) >= 0.0
    decreases |xs|
  {
    if xs != [] {
      SumNonNegative(xs[..|xs| - 1], f);
    }
  }

  // ------------------------------------------------------------ slice(0, n)

  /** `xs.slice(0, n)`. */
  function Take<T>(xs: seq<T>, n: nat): (r: seq<T>)
    ensures |r| <= n && |r| <= |xs|
    ensures r == xs[..|r|]
    ensures |xs| <= n ==> r == xs
  {
    if |xs| <= n then xs else xs[..n]
  }

  // ------------------------------------------------------------------ sort

  /** A sort key; Top stands above every number, as JavaScript's Infinity does. */
  datatype SortKey = Top | Val(v: real)

  /** The comparator `b - a` puts `a` before `b` exactly when `a`'s key is at least `b`'s. */
  predicate AtLeast(a: SortKey, b: SortKey) {
    match a
    case Top => true
    case Val(x) => b.Val? && x >= b.v
  }

  /** Keys never increase from one element to the next. */
  predicate SortedDesc<T>(xs: seq<T>, key: T -> SortKey) {
    forall k :: 0 <= k < |xs| - 1 ==> AtLeast(key(xs[k]), key(xs[k + 1]))
  }

  /** Any earlier element's key is at least any later element's key. */
  lemma {:induction false} SortedDescPairs<T>(xs: seq<T>, key: T -> SortKey, i: nat, j: nat)
    requires SortedDesc(xs, key)
    requires i <= j < |xs|
    ensures AtLeast(key(xs[i]), key(xs[j]))
    decreases j - i
  {
    if i < j {
      SortedDescPairs(xs, key, i + 1, j);
    }
  }

  /**
   * A prefix of a sorted list keeps the greatest keys: an element with more
   * copies in the list than in the prefix has a key no greater than any key
   * in the prefix.
   */
  lemma PrefixKeepsGreatest<T>(xs: seq<T>, key: T -> SortKey, n: nat, e: T, k: nat)
    requires SortedDesc(xs, key)
    requires n <= |xs| && k < n
    requires multiset(xs[..n])[e] < multiset(xs)[e]
    ensures AtLeast(key(xs[k]), key(e))
  {
    var rest := xs[n..];
    assert xs == xs[..n] + rest;
    assert multiset(rest)[e] > 0;
    var j :| 0 <= j < |rest| && rest[j] == e;
    assert xs[n + j] == e;
    SortedDescPairs(xs, key, k, n + j);
  }

  /** Puts x before the first element whose key is not above x's. */
  function Insert<T>(x: T, xs: seq<T>, key: T -> SortKey): (r: seq<T>)
    requires SortedDesc(xs, key)
    ensures SortedDesc(r, key)
    ensures multiset(r) == multiset(xs) + multiset{x}
    ensures |r| == |xs| + 1
    ensures r[0] == x || (xs != [] && r[0] == xs[0])
  {
    if xs == [] || AtLeast(key(x), key(xs[0])) then [x] + xs
    else
      var rest := Insert(x, xs[1..], key);
      assert xs == [xs[0]] + xs[1..];
      [xs[0]] + rest
  }

  /**
   * `[...xs].sort((a, b) => key(b) - key(a))`: a stable sort, largest key
   * first (each element goes in front of the later elements whose keys equal
   * its own).
   */
  function SortDesc<T>(xs: seq<T>, key: T -> SortKey): (r: seq<T>)
    ensures SortedDesc(r, key)
    ensures multiset(r) == multiset(xs)
    ensures |r| == |xs|
  {
    if xs == [] then []
    else
      assert xs == [xs[0]] + xs[1..];
      Insert(xs[0], SortDesc(xs[1..], key), key)
  }
}
