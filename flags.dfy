/**
 * Command-line helpers of the integration tests: telling the test
 * harness's own flags from the BDD runner's, compacting a list of strings
 * through a filter, and splitting an identifier into camel-case words.
 * Character classes are the ASCII ones of `Strings`.
 */
module Flags {
  import opened Strings
  import FxSlices

  // ---------------------------------------------------------------------------
  // Flag routing

  const KongFlagPrefix: string := "--tapp"

  /** `keepKongFlags`: the harness's own flags all start with "--tapp". */
  function KeepKongFlags(item: string): (r: bool)
    ensures r <==> |item| >= |KongFlagPrefix| && item[..|KongFlagPrefix|] == KongFlagPrefix
  {
    HasPrefix(item, KongFlagPrefix)
  }

  /** `godogFlags`: everything that is not a harness flag goes to the runner. */
  function GodogFlags(item: string): (r: bool)
    ensures r <==> !KeepKongFlags(item)
  {
    FxSlices.NegateFilter(KeepKongFlags)(item)
  }

  /** The two filters split any argument list: nothing is lost and nothing goes to both. */
  lemma FlagsPartition(args: seq<string>)
    ensures multiset(FxSlices.Filter(args, KeepKongFlags)) + multiset(FxSlices.Filter(args, GodogFlags)) == multiset(args)
  {
    FxSlices.FilterPartition(args, KeepKongFlags);
    FilterSamePredicate(args, GodogFlags, FxSlices.NegateFilter(KeepKongFlags));
  }

  lemma {:induction false} FilterSamePredicate<T>(xs: seq<T>, p: T -> bool, q: T -> bool)
    requires forall i :: 0 <= i < |xs| ==> p(xs[i]) == q(xs[i])
    ensures FxSlices.Filter(xs, p) == FxSlices.Filter(xs, q)
  {
    if xs != [] {
      FilterSamePredicate(xs[..|xs| - 1], p, q);
    }
  }

  // ---------------------------------------------------------------------------
  // siftStrings

  /**
   * `siftStrings`: copy the input, then move each kept string down to the
   * next free slot of the copy and cut the copy there. The caller's array
   * is never written.
   */
  method SiftStrings(ss: array<string>, filter: string -> bool) returns (r: seq<string>)
    ensures r == FxSlices.Filter(ss[..], filter)
  {
    var a := new string[ss.Length](j requires 0 <= j < ss.Length reads ss => ss[j]);
    var i := 0;
    var k := 0;
    while k < a.Length
      invariant 0 <= i <= k <= a.Length
      invariant a[..i] == FxSlices.Filter(ss[..k], filter)
      invariant forall j :: k <= j < a.Length ==> a[j] == ss[j]
    {
      assert ss[..k + 1][..k] == ss[..k];
      var s := a[k];
      if filter(s) {
        a[i] := s;
        assert a[..i + 1] == a[..i] + [s];
        i := i + 1;
      }
      k := k + 1;
    }
    assert ss[..k] == ss[..];
    return a[..i];
  }

  // ---------------------------------------------------------------------------
  // camelCase

  /** A Go string: valid UTF-8, seen as its runes, or invalid bytes. */
  datatype GoString = Text(runes: string) | InvalidUtf8(bytes: seq<bv8>)

  /** The class `camelCase` gives a rune: lower 1, upper 2, digit 3, anything else 4. */
  function ClassOf(c: char): (k: int)
    ensures 1 <= k <= 4
  {
    if IsLower(c) then 1 else if IsUpper(c) then 2 else if IsDigit(c) then 3 else 4
  }

  /** The runs of runes of one class, each as long as it goes. */
  function Group(s: string): (g: seq<string>)
    ensures forall i :: 0 <= i < |g| ==> |g[i]| > 0
    ensures |s| > 0 ==> |g| > 0
  {
    if s == [] then []
    else
      var p := s[..|s| - 1];
      var c := s[|s| - 1];
      var g := Group(p);
      if |p| > 0 && ClassOf(p[|p| - 1]) == ClassOf(c) then g[..|g| - 1] + [g[|g| - 1] + [c]]
      else g + [[c]]
  }

  /** Grouping loses and reorders nothing. */
  lemma {:induction false} GroupFlatten(s: string)
    ensures FxSlices.Flatten(Group(s)) == s
  {
    if s != [] {
      var p := s[..|s| - 1];
      var c := s[|s| - 1];
      FxSlices.SplitLast(s);
      GroupFlatten(p);
      GroupSnoc(p, c);
      if |p| > 0 && ClassOf(p[|p| - 1]) == ClassOf(c) {
        var g := Group(p);
        FxSlices.SplitLast(g);
        FlattenExtendLast(g[..|g| - 1], g[|g| - 1], [c]);
      } else {
        FxSlices.FlattenSnoc(Group(p), [c]);
      }
    }
  }

  /** Extending the last run extends the flattening by the same runes. */
  lemma FlattenExtendLast(init: seq<string>, last: string, x: string)
    ensures FxSlices.Flatten(init + [last + x]) == FxSlices.Flatten(init + [last]) + x
  {
    FxSlices.FlattenSnoc(init, last + x);
    FxSlices.FlattenSnoc(init, last);
  }

  /** One rune more either extends the last run or starts a new one. */
  lemma GroupSnoc(p: string, c: char)
    ensures Group(p + [c]) ==
      if |p| > 0 && ClassOf(p[|p| - 1]) == ClassOf(c) then Group(p)[..|Group(p)| - 1] + [Group(p)[|Group(p)| - 1] + [c]]
      else Group(p) + [[c]]
  {
    assert (p + [c])[..|p|] == p;
  }

  /** Moves the last rune of an upper-case run onto a following lower-case run. */
  function AdjustStep(runs: seq<string>, i: nat): seq<string>
    requires i + 1 < |runs| && |runs[i]| > 0 && |runs[i + 1]| > 0
  {
    if IsUpper(runs[i][0]) && IsLower(runs[i + 1][0]) then
      runs[i + 1 := [runs[i][|runs[i]| - 1]] + runs[i + 1]][i := runs[i][..|runs[i]| - 1]]
    else runs
  }

  /** The second pass of `camelCase`, from run `i` to the end. */
  function AdjustFrom(runs: seq<string>, i: nat): (r: seq<string>)
    requires forall j :: i <= j < |runs| ==> |runs[j]| > 0
    ensures |r| == |runs|
    decreases |runs| - i
  {
    if i + 1 >= |runs| then runs else AdjustFrom(AdjustStep(runs, i), i + 1)
  }

  function NonEmpty(s: string): bool { |s| > 0 }

  /** What `camelCase` returns for valid text: the adjusted runs, empty ones dropped. */
  function CamelCaseWords(s: string): seq<string> {
    FxSlices.Filter(AdjustFrom(Group(s), 0), NonEmpty)
  }

  lemma FlattenMove(a: seq<string>, x: string, y: string, b: seq<string>)
    requires |x| > 0
    ensures FxSlices.Flatten(a + [x[..|x| - 1]] + [[x[|x| - 1]] + y] + b) == FxSlices.Flatten(a + [x] + [y] + b)
  {
    var x' := x[..|x| - 1];
    var y' := [x[|x| - 1]] + y;
    FxSlices.FlattenAppend(a + [x'] + [y'], b);
    FxSlices.FlattenAppend(a + [x] + [y], b);
    FxSlices.FlattenSnoc(a + [x'], y');
    FxSlices.FlattenSnoc(a, x');
    FxSlices.FlattenSnoc(a + [x], y);
    FxSlices.FlattenSnoc(a, x);
    var f := FxSlices.Flatten(a);
    assert (f + x') + y' == (f + x) + y by {
      assert x' + y' == x + y;
    }
  }

  /** Moving a rune from one run to the next keeps the runes in order. */
  lemma AdjustStepFlatten(runs: seq<string>, i: nat)
    requires i + 1 < |runs| && |runs[i]| > 0 && |runs[i + 1]| > 0
    ensures FxSlices.Flatten(AdjustStep(runs, i)) == FxSlices.Flatten(runs)
  {
    if IsUpper(runs[i][0]) && IsLower(runs[i + 1][0]) {
      var a := runs[..i];
      var b := runs[i + 2..];
      var x := runs[i];
      var y := runs[i + 1];
      assert runs == a + [x] + [y] + b by {
        assert runs == runs[..i] + runs[i..];
        assert runs[i..] == [x] + [y] + b;
      }
      assert AdjustStep(runs, i) == a + [x[..|x| - 1]] + [[x[|x| - 1]] + y] + b;
      FlattenMove(a, x, y, b);
    }
  }

  lemma {:induction false} AdjustFromFlatten(runs: seq<string>, i: nat)
    requires forall j :: i <= j < |runs| ==> |runs[j]| > 0
    ensures FxSlices.Flatten(AdjustFrom(runs, i)) == FxSlices.Flatten(runs)
    decreases |runs| - i
  {
    if i + 1 < |runs| {
      AdjustStepFlatten(runs, i);
      AdjustFromFlatten(AdjustStep(runs, i), i + 1);
    }
  }

  lemma {:induction false} FilterNonEmptyFlatten(runs: seq<string>)
    ensures FxSlices.Flatten(FxSlices.Filter(runs, NonEmpty)) == FxSlices.Flatten(runs)
  {
    if runs != [] {
      var init := runs[..|runs| - 1];
      var last := runs[|runs| - 1];
      FilterNonEmptyFlatten(init);
      var f := FxSlices.Filter(init, NonEmpty);
      if NonEmpty(last) {
        assert (f + [last])[..|f|] == f;
      } else {
        assert f + [] == f;
      }
    }
  }

  /** The words are never empty and, put back together, give the input. */
  lemma CamelCaseWordsCover(s: string)
    ensures FxSlices.Flatten(CamelCaseWords(s)) == s
    ensures forall i :: 0 <= i < |CamelCaseWords(s)| ==> CamelCaseWords(s)[i] != ""
  {
    GroupFlatten(s);
    AdjustFromFlatten(Group(s), 0);
    FilterNonEmptyFlatten(AdjustFrom(Group(s), 0));
    forall i | 0 <= i < |CamelCaseWords(s)|
      ensures CamelCaseWords(s)[i] != ""
    {
      assert NonEmpty(CamelCaseWords(s)[i]);
    }
  }

  /** A non-empty text whose runes all have the same class. */
  predicate OneClass(s: string) {
    |s| > 0 && forall i :: 0 <= i < |s| ==> ClassOf(s[i]) == ClassOf(s[0])
  }

  /** Text of one class is a single run. */
  lemma {:induction false} GroupOneClass(s: string)
    requires OneClass(s)
    ensures Group(s) == [s]
  {
    var p := s[..|s| - 1];
    assert p + [s[|s| - 1]] == s;
    GroupSnoc(p, s[|s| - 1]);
    if |s| > 1 {
      GroupOneClass(p);
    } else {
      assert [s[0]] == s;
    }
  }

  /** Two texts of one class each, the classes differing, are two runs. */
  lemma {:induction false} GroupTwoClasses(u: string, l: string)
    requires OneClass(u) && OneClass(l) && ClassOf(u[0]) != ClassOf(l[0])
    ensures Group(u + l) == [u, l]
    decreases |l|
  {
    var c := l[|l| - 1];
    var l' := l[..|l| - 1];
    var p := u + l';
    ConcatSnoc(u, l);
    GroupSnoc(p, c);
    if |l| == 1 {
      GroupOneClass(u);
      assert ClassOf(p[|p| - 1]) != ClassOf(c);
    } else {
      OneClassPrefix(l);
      GroupTwoClasses(u, l');
      assert ClassOf(p[|p| - 1]) == ClassOf(c) by {
        assert ClassOf(l[|l| - 2]) == ClassOf(l[0]) == ClassOf(c);
      }
    }
  }

  /** Dropping the last rune of a longer one-class text leaves a one-class text of the same class. */
  lemma OneClassPrefix(l: string)
    requires OneClass(l) && |l| > 1
    ensures OneClass(l[..|l| - 1]) && l[..|l| - 1][0] == l[0]
  {
    var l' := l[..|l| - 1];
    assert forall i :: 0 <= i < |l'| ==> l'[i] == l[i];
  }

  /** `u + l` as its prefix and last rune. */
  lemma ConcatSnoc(u: string, l: string)
    requires |u| > 0 && |l| > 0
    ensures (u + l[..|l| - 1]) + [l[|l| - 1]] == u + l
    ensures l[..|l| - 1] + [l[|l| - 1]] == l
    ensures |l| == 1 ==> u + l[..|l| - 1] == u && [l[0]] == l
    ensures |l| > 1 ==> (u + l[..|l| - 1])[|u| + |l| - 2] == l[|l| - 2]
    ensures |l| == 1 ==> (u + l[..|l| - 1])[|u| - 1] == u[|u| - 1]
  {
  }

  /**
   * An upper-case run followed by a lower-case one gives up its last letter
   * to it, so "PDFLoader" is "PDF", "Loader" and "Ab" is just "Ab".
   */
  lemma UpperThenLower(u: string, l: string)
    requires |u| > 0 && (forall i :: 0 <= i < |u| ==> IsUpper(u[i]))
    requires |l| > 0 && (forall i :: 0 <= i < |l| ==> IsLower(l[i]))
    ensures CamelCaseWords(u + l) ==
      if |u| > 1 then [u[..|u| - 1], [u[|u| - 1]] + l] else [[u[0]] + l]
  {
    GroupTwoClasses(u, l);
    var adjusted := [u[..|u| - 1], [u[|u| - 1]] + l];
    assert AdjustStep([u, l], 0) == adjusted;
    assert AdjustFrom([u, l], 0) == adjusted;
    assert FxSlices.Filter(adjusted[..1], NonEmpty) == if |u| > 1 then [u[..|u| - 1]] else [];
  }

  lemma CamelCaseExample()
    ensures CamelCaseWords("PDFLoader") == ["PDF", "Loader"]
  {
    assert "PDFLoader" == "PDFL" + "oader";
    UpperThenLower("PDFL", "oader");
    assert "PDFL"[..3] == "PDF";
    assert ['L'] + "oader" == "Loader";
  }

  /**
   * `camelCase`: invalid UTF-8 comes back whole; otherwise group the runes
   * into runs of one class, move the last rune of an upper-case run onto a
   * following lower-case run, and keep the non-empty runs.
   */
  method CamelCase(src: GoString) returns (entries: seq<GoString>)
    ensures src.InvalidUtf8? ==> entries == [src]
    ensures src.Text? ==>
      |entries| == |CamelCaseWords(src.runes)| &&
      forall i :: 0 <= i < |entries| ==> entries[i] == Text(CamelCaseWords(src.runes)[i])
  {
    if src.InvalidUtf8? {
      return [src];
    }
    var runes := SplitByClass(src.runes);
    runes := MoveCapitals(runes);
    entries := KeepNonEmpty(runes);
  }

  /** The last loop of `camelCase`: every non-empty run becomes an entry, in order. */
  method KeepNonEmpty(runes: seq<string>) returns (entries: seq<GoString>)
    ensures |entries| == |FxSlices.Filter(runes, NonEmpty)|
    ensures forall j :: 0 <= j < |entries| ==> entries[j] == Text(FxSlices.Filter(runes, NonEmpty)[j])
  {
    entries := [];
    var k := 0;
    while k < |runes|
      invariant 0 <= k <= |runes|
      invariant |entries| == |FxSlices.Filter(runes[..k], NonEmpty)|
      invariant forall j :: 0 <= j < |entries| ==> entries[j] == Text(FxSlices.Filter(runes[..k], NonEmpty)[j])
    {
      FxSlices.FilterPrefixStep(runes, k, NonEmpty);
      if |runes[k]| > 0 {
        entries := entries + [Text(runes[k])];
      }
      k := k + 1;
    }
    assert runes[..k] == runes;
  }

  /** The first loop of `camelCase`: extend the current run or start a new one as the class changes. */
  method SplitByClass(s: string) returns (runes: seq<string>)
    ensures runes == Group(s)
  {
    runes := [];
    var lastClass := 0;
    var k := 0;
    while k < |s|
      invariant 0 <= k <= |s|
      invariant runes == Group(s[..k])
      invariant lastClass == if k == 0 then 0 else ClassOf(s[k - 1])
    {
      var r := s[k];
      var runeClass;
      if IsLower(r) {
        runeClass := 1;
      } else if IsUpper(r) {
        runeClass := 2;
      } else if IsDigit(r) {
        runeClass := 3;
      } else {
        runeClass := 4;
      }
      assert runeClass == ClassOf(r);
      GroupStep(s, k);
      if runeClass == lastClass {
        runes := runes[|runes| - 1 := runes[|runes| - 1] + [r]];
      } else {
        runes := runes + [[r]];
      }
      lastClass := runeClass;
      k := k + 1;
    }
    assert s[..k] == s;
  }

  /** The runs of a prefix one rune longer, as the loop of `camelCase` builds them. */
  lemma GroupStep(s: string, k: nat)
    requires k < |s|
    ensures var g := Group(s[..k]);
      Group(s[..k + 1]) ==
        if k > 0 && ClassOf(s[k - 1]) == ClassOf(s[k]) then g[|g| - 1 := g[|g| - 1] + [s[k]]]
        else g + [[s[k]]]
  {
    PrefixSnoc(s, k);
    GroupSnoc(s[..k], s[k]);
    if k > 0 {
      UpdateLast(Group(s[..k]), Group(s[..k])[|Group(s[..k])| - 1] + [s[k]]);
    }
  }

  /** The prefix one rune longer, with the last rune of the shorter prefix named. */
  lemma PrefixSnoc(s: string, k: nat)
    requires k < |s|
    ensures s[..k + 1] == s[..k] + [s[k]]
    ensures k > 0 ==> s[..k][k - 1] == s[k - 1]
  {
  }

  /** Replacing the last element is cutting it off and appending the new one. */
  lemma UpdateLast<T>(g: seq<T>, x: T)
    requires |g| > 0
    ensures g[|g| - 1 := x] == g[..|g| - 1] + [x]
  {
  }

  /** The second loop of `camelCase`: hand the last capital of a run to a following lower-case run. */
  method MoveCapitals(runs: seq<string>) returns (runes: seq<string>)
    requires forall j :: 0 <= j < |runs| ==> |runs[j]| > 0
    ensures runes == AdjustFrom(runs, 0)
  {
    runes := runs;
    var i := 0;
    while i < |runes| - 1
      invariant 0 <= i <= |runes| || runes == []
      invariant forall j :: i <= j < |runes| ==> |runes[j]| > 0
      invariant AdjustFrom(runes, i) == AdjustFrom(runs, 0)
    {
      if IsUpper(runes[i][0]) && IsLower(runes[i + 1][0]) {
        runes := runes[i + 1 := [runes[i][|runes[i]| - 1]] + runes[i + 1]];
        runes := runes[i := runes[i][..|runes[i]| - 1]];
      }
      i := i + 1;
    }
  }
}
