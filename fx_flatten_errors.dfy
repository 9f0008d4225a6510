/**
 * `FlattenErrorsIfAny` and its two wrappers: fold a list of possibly-nil
 * errors into one error whose text lists them newest first, each tagged with
 * its rank among the non-nil ones: "[3:c] [2:b] [1:a]". An error is its text;
 * `None` is a nil error.
 */
module FxFlattenErrors {
  import opened Wrappers
  import opened Strings
  import FxSlices

  type Error = string

  /** The number of non-nil errors. */
  function CountErrors(errs: seq<Option<Error>>): (n: nat)
    ensures n <= |errs|
  {
    if errs == [] then 0 else CountErrors(errs[..|errs| - 1]) + (if errs[|errs| - 1].Some? then 1 else 0)
  }

  /** The flattened error of a list, built from the left as the loop builds it. */
  function Flatten(errs: seq<Option<Error>>): Option<Error> {
    if errs == [] then None
    else
      var init := errs[..|errs| - 1];
      match errs[|errs| - 1]
      case None => Flatten(init)
      case Some(e) =>
        var tag := "[" + NatToString(CountErrors(init) + 1) + ":" + e + "]";
        match Flatten(init)
        case None => Some(tag)
        case Some(sum) => Some(tag + " " + sum)
  }

  /** `FlattenErrorsIfAny`. */
  method FlattenErrorsIfAny(errs: seq<Option<Error>>) returns (errSum: Option<Error>)
    ensures errSum == Flatten(errs)
    ensures errSum.None? <==> forall i :: 0 <= i < |errs| ==> errs[i].None?
  {
    errSum := None;
    var errCount := 0;
    var k := 0;
    while k < |errs|
      invariant 0 <= k <= |errs|
      invariant errSum == Flatten(errs[..k])
      invariant errCount == CountErrors(errs[..k])
    {
      assert errs[..k + 1][..k] == errs[..k];
      match errs[k] {
        case None =>
        case Some(e) =>
          errCount := errCount + 1;
          var tag := "[" + NatToString(errCount) + ":" + e + "]";
          if errSum.Some? {
            errSum := Some(tag + " " + errSum.value);
          } else {
            errSum := Some(tag);
          }
      }
      k := k + 1;
    }
    assert errs[..k] == errs;
    NilIffNoErrors(errs);
  }

  /** The flattened error is nil exactly when every input is nil. */
  lemma {:induction false} NilIffNoErrors(errs: seq<Option<Error>>)
    ensures Flatten(errs).None? <==> forall i :: 0 <= i < |errs| ==> errs[i].None?
  {
    if errs != [] {
      var init := errs[..|errs| - 1];
      NilIffNoErrors(init);
      assert forall i :: 0 <= i < |init| ==> init[i] == errs[i];
    }
  }

  /** The non-nil errors, in order. */
  function NonNil(errs: seq<Option<Error>>): (r: seq<Option<Error>>)
    ensures forall i :: 0 <= i < |r| ==> r[i].Some?
  {
    if errs == [] then []
    else NonNil(errs[..|errs| - 1]) + (if errs[|errs| - 1].Some? then [errs[|errs| - 1]] else [])
  }

  /** Nil entries are skipped and do not advance the count. */
  lemma {:induction false} NilsDoNotCount(errs: seq<Option<Error>>)
    ensures Flatten(errs) == Flatten(NonNil(errs))
    ensures CountErrors(errs) == CountErrors(NonNil(errs)) == |NonNil(errs)|
  {
    if errs != [] {
      var init := errs[..|errs| - 1];
      var last := errs[|errs| - 1];
      NilsDoNotCount(init);
      FxSlices.SplitLast(errs);
      if last.Some? {
        assert NonNil(errs) == NonNil(init) + [last];
        SameHistorySameStep(init, NonNil(init), last);
      } else {
        assert NonNil(errs) == NonNil(init);
        SameHistorySameStep(init, init, last);
      }
    }
  }

  /** Two lists with the same flattening and count keep them when one more entry is appended. */
  lemma SameHistorySameStep(a: seq<Option<Error>>, b: seq<Option<Error>>, x: Option<Error>)
    requires Flatten(a) == Flatten(b) && CountErrors(a) == CountErrors(b)
    ensures Flatten(a + [x]) == Flatten(b + [x]) && CountErrors(a + [x]) == CountErrors(b + [x])
    ensures x.None? ==> Flatten(a + [x]) == Flatten(a) && CountErrors(a + [x]) == CountErrors(a)
  {
    FlattenSnoc(a, x);
    FlattenSnoc(b, x);
  }

  /** One entry more: a nil entry changes nothing, an error is tagged and put in front. */
  lemma FlattenSnoc(a: seq<Option<Error>>, x: Option<Error>)
    ensures CountErrors(a + [x]) == CountErrors(a) + (if x.Some? then 1 else 0)
    ensures x.None? ==> Flatten(a + [x]) == Flatten(a)
    ensures x.Some? ==>
      var tag := "[" + NatToString(CountErrors(a) + 1) + ":" + x.value + "]";
      Flatten(a + [x]) == if Flatten(a).None? then Some(tag) else Some(tag + " " + Flatten(a).value)
  {
    assert (a + [x])[..|a|] == a;
  }

  /** A single error e gives "[1:e]". */
  lemma SingleError(e: Error)
    ensures Flatten([Some(e)]) == Some("[1:" + e + "]")
  {
    assert [Some(e)][..0] == [];
    assert NatToString(1) == [DigitChar(1)] == "1";
    assert "[" + "1" + ":" == "[1:";
    assert Flatten([Some(e)]) == Some("[" + "1" + ":" + e + "]");
  }

  /** Two errors e1, e2 give "[2:e2] [1:e1]": newest first. */
  lemma TwoErrors(e1: Error, e2: Error)
    ensures Flatten([Some(e1), Some(e2)]) == Some("[2:" + e2 + "] [1:" + e1 + "]")
  {
    assert [Some(e1), Some(e2)][..1] == [Some(e1)];
    SingleError(e1);
    assert CountErrors([Some(e1)]) == 1 by {
      assert [Some(e1)][..0] == [];
    }
    assert NatToString(2) == [DigitChar(2)] == "2";
    assert "[" + "2" + ":" == "[2:";
    var tag := "[2:" + e2 + "]";
    assert Flatten([Some(e1), Some(e2)]) == Some(tag + " " + ("[1:" + e1 + "]"));
    assert tag + " " + ("[1:" + e1 + "]") == "[2:" + e2 + "] [1:" + e1 + "]";
  }

  /** `FlattenErrorsAsStringIfAny`: the flattened error's text, or "" when it is nil. */
  function FlattenErrorsAsStringIfAny(errs: seq<Option<Error>>): (r: string)
    ensures r == "" <==> forall i :: 0 <= i < |errs| ==> errs[i].None?
    ensures r != "" ==> Flatten(errs) == Some(r)
  {
    NilIffNoErrors(errs);
    FlattenedIsNotEmpty(errs);
    match Flatten(errs)
    case None => ""
    case Some(msg) => msg
  }

  /** A non-nil flattened error has non-empty text: it starts with "[". */
  lemma FlattenedIsNotEmpty(errs: seq<Option<Error>>)
    ensures Flatten(errs).Some? ==> |Flatten(errs).value| > 0 && Flatten(errs).value[0] == '['
  {
  }

  /** `FlattenErrorsIfAnyWithPath`: nil when there is nothing to report, else "path [flattened]". */
  function FlattenErrorsIfAnyWithPath(path: string, errs: seq<Option<Error>>): (r: Option<Error>)
    ensures r.None? <==> forall i :: 0 <= i < |errs| ==> errs[i].None?
    ensures r.Some? ==> Flatten(errs).Some? && r.value == path + " [" + Flatten(errs).value + "]"
  {
    NilIffNoErrors(errs);
    match Flatten(errs)
    case None => None
    case Some(msg) => Some(path + " [" + msg + "]")
  }
}
