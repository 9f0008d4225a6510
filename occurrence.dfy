/**
 * "The n-th element that matches": the lookup the test harness uses to find
 * an expected event among those received. Occurrences are counted from 1;
 * asking for occurrence 0 or below finds nothing.
 */
module Occurrence {
  import opened Wrappers

  /** How many elements satisfy `p`. */
  function CountWhere<T>(xs: seq<T>, p: T -> bool): (n: nat)
    ensures n <= |xs|
  {
    if xs == [] then 0 else (if p(xs[0]) then 1 else 0) + CountWhere(xs[1..], p)
  }

  /** The index of the `n`-th element satisfying `p`, if there are that many. */
  function NthWhere<T>(xs: seq<T>, p: T -> bool, n: int): (r: Option<nat>)
    ensures r.Some? ==> r.value < |xs| && p(xs[r.value]) && CountWhere(xs[..r.value], p) == n - 1
    ensures r.None? <==> n <= 0 || CountWhere(xs, p) < n
  {
    if n <= 0 || xs == [] then None
    else if p(xs[0]) && n == 1 then
      assert xs[..0] == [];
      Some(0)
    else
      var rest := NthWhere(xs[1..], p, if p(xs[0]) then n - 1 else n);
      match rest
      case None => None
      case Some(i) =>
        assert xs[..i + 1][1..] == xs[1..][..i];
        Some(i + 1)
  }

  lemma {:induction false} CountWhereSnoc<T>(xs: seq<T>, x: T, p: T -> bool)
    ensures CountWhere(xs + [x], p) == CountWhere(xs, p) + if p(x) then 1 else 0
  {
    if xs == [] {
      assert xs + [x] == [x];
      assert [x][1..] == [];
    } else {
      assert (xs + [x])[1..] == xs[1..] + [x];
      CountWhereSnoc(xs[1..], x, p);
    }
  }

  /**
   * The scan the Go loops perform: count matches in order and stop at the
   * `n`-th. It finds exactly `NthWhere`.
   */
  method ScanForNth<T>(xs: seq<T>, p: T -> bool, n: int) returns (r: Option<nat>)
    ensures r == NthWhere(xs, p, n)
  {
    var occurrence := 0;
    var k := 0;
    while k < |xs|
      invariant 0 <= k <= |xs|
      invariant occurrence == CountWhere(xs[..k], p)
      invariant n <= 0 || occurrence < n
      invariant NthWhere(xs[..k], p, n).None?
    {
      assert xs[..k + 1] == xs[..k] + [xs[k]];
      CountWhereSnoc(xs[..k], xs[k], p);
      if p(xs[k]) {
        occurrence := occurrence + 1;
        if occurrence == n {
          NthWherePrefix(xs, p, n, k);
          return Some(k);
        }
      }
      k := k + 1;
    }
    assert xs[..k] == xs;
    return None;
  }

  /** The n-th match in a sequence is found at the index where the running count reaches n. */
  lemma NthWherePrefix<T>(xs: seq<T>, p: T -> bool, n: int, k: nat)
    requires k < |xs| && p(xs[k]) && n >= 1 && CountWhere(xs[..k], p) == n - 1
    ensures NthWhere(xs, p, n) == Some(k)
  {
    var r := NthWhere(xs, p, n);
    CountWhereSnoc(xs[..k], xs[k], p);
    assert xs[..k + 1] == xs[..k] + [xs[k]];
    CountPrefixMonotone(xs, p, k + 1);
    match r {
      case None =>
        assert false;
      case Some(i) =>
        if i < k {
          assert xs[..k][..i + 1] == xs[..i + 1];
          assert xs[..i + 1] == xs[..i] + [xs[i]];
          CountWhereSnoc(xs[..i], xs[i], p);
          CountPrefixMonotone(xs[..k], p, i + 1);
        } else if i > k {
          assert xs[..i][..k + 1] == xs[..k + 1];
          CountPrefixMonotone(xs[..i], p, k + 1);
        }
    }
  }

  /** Counting over a prefix never gives more than counting over the whole. */
  lemma {:induction false} CountPrefixMonotone<T>(xs: seq<T>, p: T -> bool, j: nat)
    requires j <= |xs|
    ensures CountWhere(xs[..j], p) <= CountWhere(xs, p)
    decreases |xs|
  {
    if j < |xs| {
      var init := xs[..|xs| - 1];
      assert xs == init + [xs[|xs| - 1]];
      CountWhereSnoc(init, xs[|xs| - 1], p);
      CountPrefixMonotone(init, p, j);
      assert init[..j] == xs[..j];
    } else {
      assert xs[..j] == xs;
    }
  }
}
