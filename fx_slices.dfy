/**
 * The slice combinators of the `fx` package: concatenation into one freshly
 * allocated slice, predicate negation, filtering and membership.
 */
module FxSlices {
  /** All the slices one after another. */
  function Flatten<T>(slices: seq<seq<T>>): seq<T> {
    if slices == [] then [] else Flatten(slices[..|slices| - 1]) + slices[|slices| - 1]
  }

  function TotalLength<T>(slices: seq<seq<T>>): nat {
    if slices == [] then 0 else TotalLength(slices[..|slices| - 1]) + |slices[|slices| - 1]|
  }

  /** The concatenation is as long as all the slices together. */
  lemma {:induction false} FlattenLength<T>(slices: seq<seq<T>>)
    ensures |Flatten(slices)| == TotalLength(slices)
  {
    if slices != [] {
      FlattenLength(slices[..|slices| - 1]);
    }
  }

  /** Concatenating two lists of slices concatenates their flattenings. */
  lemma {:induction false} FlattenAppend<T>(a: seq<seq<T>>, b: seq<seq<T>>)
    ensures Flatten(a + b) == Flatten(a) + Flatten(b)
    decreases |b|
  {
    if b == [] {
      assert a + b == a;
    } else {
      var init, last := b[..|b| - 1], b[|b| - 1];
      SplitLast(b);
      assert a + b == (a + init) + [last];
      FlattenAppend(a, init);
      FlattenSnoc(a + init, last);
      FlattenSnoc(init, last);
    }
  }

  /** One slice more at the end. */
  lemma FlattenSnoc<T>(a: seq<seq<T>>, x: seq<T>)
    ensures Flatten(a + [x]) == Flatten(a) + x
  {
    assert (a + [x])[..|a|] == a;
  }

  /** A non-empty sequence is its prefix and its last element. */
  lemma SplitLast<T>(s: seq<T>)
    requires |s| > 0
    ensures s == s[..|s| - 1] + [s[|s| - 1]]
  {
  }

  /** Element `j` of slice `k` sits after all the elements of the slices before it. */
  lemma {:induction false} FlattenIndex<T>(slices: seq<seq<T>>, k: nat, j: nat)
    requires k < |slices| && j < |slices[k]|
    ensures TotalLength(slices[..k]) + j < |Flatten(slices)|
    ensures Flatten(slices)[TotalLength(slices[..k]) + j] == slices[k][j]
  {
    var n := |slices|;
    assert slices[..n][..k] == slices[..k];
    FlattenLength(slices[..k]);
    FlattenLength(slices);
    assert slices == slices[..n - 1] + [slices[n - 1]];
    if k == n - 1 {
      assert Flatten(slices) == Flatten(slices[..k]) + slices[k];
    } else {
      FlattenIndex(slices[..n - 1], k, j);
      assert slices[..n - 1][..k] == slices[..k];
    }
  }

  /**
   * `ConcatSlices`: sum the lengths, allocate the result, then copy each
   * slice in at the running offset.
   */
  method ConcatSlices<T(0)>(slices: seq<seq<T>>) returns (result: array<T>)
    ensures fresh(result)
    ensures result.Length == TotalLength(slices)
    ensures result[..] == Flatten(slices)
  {
    var totalLen := 0;
    var k := 0;
    while k < |slices|
      invariant 0 <= k <= |slices|
      invariant totalLen == TotalLength(slices[..k])
    {
      PrefixStep(slices, k);
      totalLen := totalLen + |slices[k]|;
      k := k + 1;
    }
    assert slices[..k] == slices;
    result := new T[totalLen];
    FlattenLength(slices);
    var i := 0;
    k := 0;
    while k < |slices|
      invariant 0 <= k <= |slices|
      invariant |Flatten(slices)| == result.Length
      invariant Flatten(slices[..k]) <= Flatten(slices)
      invariant i == |Flatten(slices[..k])|
      invariant result[..i] == Flatten(slices[..k])
    {
      PrefixStep(slices, k);
      FlattenAppend(slices[..k + 1], slices[k + 1..]);
      CopyInto(result, i, slices[k]);
      i := i + |slices[k]|;
      k := k + 1;
    }
    assert slices[..k] == slices;
    assert result[..] == result[..i];
  }

  /** The copy loop of `ConcatSlices`: `s` is written at offset `i`, the elements before it kept. */
  method CopyInto<T>(result: array<T>, i: nat, s: seq<T>)
    requires i + |s| <= result.Length
    modifies result
    ensures result[..i + |s|] == old(result[..i]) + s
  {
    var j := 0;
    while j < |s|
      invariant 0 <= j <= |s|
      invariant result[..i + j] == old(result[..i]) + s[..j]
    {
      result[i + j] := s[j];
      assert result[..i + j + 1] == result[..i + j] + [s[j]];
      assert s[..j + 1] == s[..j] + [s[j]];
      j := j + 1;
    }
    assert s[..j] == s;
  }

  /** One slice further: the prefix's flattening and total length grow by that slice. */
  lemma PrefixStep<T>(slices: seq<seq<T>>, k: nat)
    requires k < |slices|
    ensures Flatten(slices[..k + 1]) == Flatten(slices[..k]) + slices[k]
    ensures TotalLength(slices[..k + 1]) == TotalLength(slices[..k]) + |slices[k]|
    ensures slices[..k + 1] + slices[k + 1..] == slices
  {
    assert slices[..k + 1][..k] == slices[..k];
  }

  /** `NegateFilter`: the predicate that holds exactly where `f` does not. */
  function NegateFilter<T(!new)>(f: T -> bool): (n: T -> bool)
    ensures forall x :: n(x) == !f(x)
  {
    x => !f(x)
  }

  /** The items satisfying `p`, in their original order. */
  function Filter<T>(xs: seq<T>, p: T -> bool): (r: seq<T>)
    ensures |r| <= |xs|
    ensures forall i :: 0 <= i < |r| ==> p(r[i])
  {
    if xs == [] then [] else Filter(xs[..|xs| - 1], p) + (if p(xs[|xs| - 1]) then [xs[|xs| - 1]] else [])
  }

  /** An item is kept exactly when it is in the input and satisfies the predicate. */
  lemma {:induction false} FilterMembership<T>(xs: seq<T>, p: T -> bool, x: T)
    ensures x in Filter(xs, p) <==> x in xs && p(x)
  {
    if xs != [] {
      var init := xs[..|xs| - 1];
      FilterMembership(init, p, x);
      assert xs == init + [xs[|xs| - 1]];
    }
  }

  /** Filtering with a predicate and with its negation splits the input: nothing lost, nothing added. */
  lemma {:induction false} FilterPartition<T(!new)>(xs: seq<T>, p: T -> bool)
    ensures multiset(Filter(xs, p)) + multiset(Filter(xs, NegateFilter(p))) == multiset(xs)
  {
    if xs != [] {
      var init := xs[..|xs| - 1];
      var x := xs[|xs| - 1];
      FilterPartition(init, p);
      SplitLast(xs);
      FilterSnoc(init, x, p);
      FilterSnoc(init, x, NegateFilter(p));
      assert NegateFilter(p)(x) == !p(x);
    }
  }

  /** One item more at the end is kept exactly when it satisfies the predicate. */
  lemma FilterSnoc<T>(xs: seq<T>, x: T, p: T -> bool)
    ensures Filter(xs + [x], p) == Filter(xs, p) + (if p(x) then [x] else [])
  {
    assert (xs + [x])[..|xs|] == xs;
  }

  /** Filtering distributes over concatenation, so the kept items keep their relative order. */
  lemma {:induction false} FilterAppend<T>(a: seq<T>, b: seq<T>, p: T -> bool)
    ensures Filter(a + b, p) == Filter(a, p) + Filter(b, p)
    decreases |b|
  {
    if b == [] {
      assert a + b == a;
    } else {
      var init := b[..|b| - 1];
      assert (a + b)[..|a + b| - 1] == a + init;
      FilterAppend(a, init, p);
    }
  }

  /** One item more: the filter of a longer prefix. */
  lemma FilterPrefixStep<T>(xs: seq<T>, k: nat, p: T -> bool)
    requires k < |xs|
    ensures Filter(xs[..k + 1], p) == Filter(xs[..k], p) + (if p(xs[k]) then [xs[k]] else [])
  {
    assert xs[..k + 1][..k] == xs[..k];
  }

  /** `FilterSlice`: append each item that should be kept. */
  method FilterSlice<T>(slice: seq<T>, shouldKeep: T -> bool) returns (filtered: seq<T>)
    ensures filtered == Filter(slice, shouldKeep)
  {
    filtered := [];
    var k := 0;
    while k < |slice|
      invariant 0 <= k <= |slice|
      invariant filtered == Filter(slice[..k], shouldKeep)
    {
      assert slice[..k + 1][..k] == slice[..k];
      if shouldKeep(slice[k]) {
        filtered := filtered + [slice[k]];
      }
      k := k + 1;
    }
    assert slice[..k] == slice;
  }

  /** `SliceContains`: stop at the first equal element. */
  method SliceContains<T(==)>(slice: seq<T>, item: T) returns (found: bool)
    ensures found <==> item in slice
  {
    var k := 0;
    while k < |slice|
      invariant 0 <= k <= |slice|
      invariant item !in slice[..k]
    {
      if slice[k] == item {
        return true;
      }
      assert slice[..k + 1] == slice[..k] + [slice[k]];
      k := k + 1;
    }
    assert slice[..k] == slice;
    return false;
  }
}
