/**
 * The map combinators of the `fx` package. Go ranges over a map in an
 * unspecified order; each method reports the order it used as a ghost
 * result `order`, a listing of the keys without repetition, and its results
 * are stated in that order.
 */
module FxValues {
  import opened Wrappers
  import FxSlices
  import FxFlattenErrors

  /** `order` lists every key of `m` exactly once. */
  predicate IsKeyOrder<K, V>(m: map<K, V>, order: seq<K>) {
    |order| == |m| &&
    (forall k :: k in m ==> k in order) &&
    (forall i :: 0 <= i < |order| ==> order[i] in m) &&
    (forall i, j :: 0 <= i < j < |order| ==> order[i] != order[j])
  }

  /** Part way through ranging over `m`: `order` lists the visited keys once each, `remaining` the rest. */
  predicate Visiting<K, V>(m: map<K, V>, order: seq<K>, remaining: set<K>) {
    && remaining <= m.Keys
    && (forall i :: 0 <= i < |order| ==> order[i] in m && order[i] !in remaining)
    && (forall k :: k in m ==> k in remaining || k in order)
    && (forall i, j :: 0 <= i < j < |order| ==> order[i] != order[j])
    && |order| + |remaining| == |m|
  }

  /** Visiting one more key keeps the bookkeeping; with nothing left, the keys are listed in full. */
  lemma VisitStep<K, V>(m: map<K, V>, order: seq<K>, remaining: set<K>, k: K)
    requires Visiting(m, order, remaining) && k in remaining
    ensures Visiting(m, order + [k], remaining - {k})
    ensures remaining - {k} == {} ==> IsKeyOrder(m, order + [k])
  {
  }

  /** The values of `m`, one per key, in the order the keys are listed. */
  function ValuesIn<K, V>(m: map<K, V>, order: seq<K>): (r: seq<V>)
    requires forall i :: 0 <= i < |order| ==> order[i] in m
    ensures |r| == |order|
    ensures forall i :: 0 <= i < |order| ==> r[i] == m[order[i]]
  {
    seq(|order|, i requires 0 <= i < |order| => m[order[i]])
  }

  /** Listing one key more lists its value at the end. */
  lemma ValuesInSnoc<K, V>(m: map<K, V>, order: seq<K>, k: K)
    requires (forall i :: 0 <= i < |order| ==> order[i] in m) && k in m
    ensures ValuesIn(m, order + [k]) == ValuesIn(m, order) + [m[k]]
  {
  }

  /** Every key's value is among the listed values, and every listed value belongs to some key. */
  lemma ValuesInMembership<K, V>(m: map<K, V>, order: seq<K>, v: V)
    requires IsKeyOrder(m, order)
    ensures v in ValuesIn(m, order) <==> exists k :: k in m && m[k] == v
  {
    if v in ValuesIn(m, order) {
      var i :| 0 <= i < |order| && ValuesIn(m, order)[i] == v;
      assert order[i] in m && m[order[i]] == v;
    }
    if exists k :: k in m && m[k] == v {
      var k :| k in m && m[k] == v;
      var i :| 0 <= i < |order| && order[i] == k;
      assert ValuesIn(m, order)[i] == v;
    }
  }

  /** `Values`: one entry per key. */
  method Values<K, V>(input: map<K, V>) returns (res: seq<V>, ghost order: seq<K>)
    ensures IsKeyOrder(input, order)
    ensures res == ValuesIn(input, order)
    ensures |res| == |input|
  {
    res := [];
    order := [];
    var remaining := input.Keys;
    while remaining != {}
      invariant Visiting(input, order, remaining)
      invariant res == ValuesIn(input, order)
      decreases remaining
    {
      var k :| k in remaining;
      VisitStep(input, order, remaining, k);
      res := res + [input[k]];
      order := order + [k];
      remaining := remaining - {k};
    }
  }

  /** `FilterValues`: the values satisfying the predicate, in key order. */
  method FilterValues<K, V>(input: map<K, V>, shouldKeep: V -> bool) returns (filtered: seq<V>, ghost order: seq<K>)
    ensures IsKeyOrder(input, order)
    ensures filtered == FxSlices.Filter(ValuesIn(input, order), shouldKeep)
  {
    filtered := [];
    order := [];
    var remaining := input.Keys;
    while remaining != {}
      invariant Visiting(input, order, remaining)
      invariant filtered == FxSlices.Filter(ValuesIn(input, order), shouldKeep)
      decreases remaining
    {
      var k :| k in remaining;
      VisitStep(input, order, remaining, k);
      ValuesInSnoc(input, order, k);
      FxSlices.FilterSnoc(ValuesIn(input, order), input[k], shouldKeep);
      if shouldKeep(input[k]) {
        filtered := filtered + [input[k]];
      }
      order := order + [k];
      remaining := remaining - {k};
    }
  }

  /** The errors of mapping the listed values, nil for a successful call. */
  function MapErrors<K, V, W>(m: map<K, V>, order: seq<K>, mapper: V -> (W, Option<FxFlattenErrors.Error>)): (r: seq<Option<FxFlattenErrors.Error>>)
    requires forall i :: 0 <= i < |order| ==> order[i] in m
    ensures |r| == |order|
    ensures forall i :: 0 <= i < |order| ==> r[i] == mapper(m[order[i]]).1
  {
    seq(|order|, i requires 0 <= i < |order| => mapper(m[order[i]]).1)
  }

  /** Listing one key more lists its call's error at the end. */
  lemma MapErrorsSnoc<K, V, W>(m: map<K, V>, order: seq<K>, mapper: V -> (W, Option<FxFlattenErrors.Error>), k: K)
    requires (forall i :: 0 <= i < |order| ==> order[i] in m) && k in m
    ensures MapErrors(m, order + [k], mapper) == MapErrors(m, order, mapper) + [mapper(m[k]).1]
  {
  }

  /**
   * `MapValues`: every value mapped, in key order, the mapped value kept even
   * when the call also failed; the error is the flattening of the calls'
   * errors, and is nil exactly when no call failed.
   */
  method MapValues<K, V, W>(input: map<K, V>, mapper: V -> (W, Option<FxFlattenErrors.Error>))
    returns (mapped: seq<W>, err: Option<FxFlattenErrors.Error>, ghost order: seq<K>)
    ensures IsKeyOrder(input, order)
    ensures |mapped| == |input|
    ensures forall i :: 0 <= i < |order| ==> mapped[i] == mapper(input[order[i]]).0
    ensures err == FxFlattenErrors.Flatten(MapErrors(input, order, mapper))
    ensures err.None? <==> forall k :: k in input ==> mapper(input[k]).1.None?
  {
    mapped := [];
    order := [];
    var errs: seq<Option<FxFlattenErrors.Error>> := [];
    var remaining := input.Keys;
    while remaining != {}
      invariant Visiting(input, order, remaining)
      invariant |mapped| == |order|
      invariant forall i :: 0 <= i < |order| ==> mapped[i] == mapper(input[order[i]]).0
      invariant errs == MapErrors(input, order, mapper)
      decreases remaining
    {
      var k :| k in remaining;
      VisitStep(input, order, remaining, k);
      var (w, e) := mapper(input[k]);
      MapErrorsSnoc(input, order, mapper, k);
      mapped := mapped + [w];
      errs := errs + [e];
      order := order + [k];
      remaining := remaining - {k};
    }
    err := FxFlattenErrors.FlattenErrorsIfAny(errs);
    MapErrorsNilIffNoFailure(input, order, mapper);
  }

  /** The listed errors are all nil exactly when no value of the map fails. */
  lemma MapErrorsNilIffNoFailure<K, V, W>(m: map<K, V>, order: seq<K>, mapper: V -> (W, Option<FxFlattenErrors.Error>))
    requires IsKeyOrder(m, order)
    ensures (forall i :: 0 <= i < |order| ==> MapErrors(m, order, mapper)[i].None?) <==>
            (forall k :: k in m ==> mapper(m[k]).1.None?)
  {
    var errs := MapErrors(m, order, mapper);
    if forall i :: 0 <= i < |order| ==> errs[i].None? {
      forall k | k in m
        ensures mapper(m[k]).1.None?
      {
        var i :| 0 <= i < |order| && order[i] == k;
        assert errs[i] == mapper(m[k]).1;
      }
    }
  }

  /** The merge of the given maps, left to right: a later map's value wins. */
  function MergeAll<K, V>(maps: seq<map<K, V>>): map<K, V> {
    if maps == [] then map[] else MergeAll(maps[..|maps| - 1]) + maps[|maps| - 1]
  }

  /**
   * The merged keys are the union of the inputs' keys, and each key's value
   * comes from the last map that has it.
   */
  lemma {:induction false} MergeAllSpec<K, V>(maps: seq<map<K, V>>, k: K)
    ensures k in MergeAll(maps) <==> exists i :: 0 <= i < |maps| && k in maps[i]
    ensures forall i :: 0 <= i < |maps| && k in maps[i] && (forall j :: i < j < |maps| ==> k !in maps[j]) ==>
      k in MergeAll(maps) && MergeAll(maps)[k] == maps[i][k]
  {
    if maps != [] {
      var n := |maps|;
      var init := maps[..n - 1];
      MergeAllSpec(init, k);
      assert forall i :: 0 <= i < n - 1 ==> init[i] == maps[i];
    }
  }

  /** `MergeMaps`: copy every entry of each map in turn into the result. */
  method MergeMaps<K, V>(maps: seq<map<K, V>>) returns (res: map<K, V>)
    ensures res == MergeAll(maps)
  {
    res := map[];
    var n := 0;
    while n < |maps|
      invariant 0 <= n <= |maps|
      invariant res == MergeAll(maps[..n])
    {
      assert maps[..n + 1][..n] == maps[..n];
      var toAdd := maps[n];
      var prev := res;
      var remaining := toAdd.Keys;
      while remaining != {}
        invariant remaining <= toAdd.Keys
        invariant res == prev + map k | k in toAdd.Keys - remaining :: toAdd[k]
        decreases remaining
      {
        var k :| k in remaining;
        res := res[k := toAdd[k]];
        remaining := remaining - {k};
      }
      assert (map k | k in toAdd.Keys - {} :: toAdd[k]) == toAdd;
      n := n + 1;
    }
    assert maps[..n] == maps;
  }
}
