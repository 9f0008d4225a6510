/**
 * The pure and sequential parts of the test service's RabbitMQ helpers:
 * finding the n-th received event that matches an expectation (from the end
 * for a negative occurrence), undoing the JSON encoder's escaping of <, > and
 * &, and filtering broker queue names. Marshalling an event to JSON and
 * evaluating a JSONata query on it is the parameter `eval`.
 */
module RabbitStream {
  import opened Wrappers
  import opened Strings
  import Occurrence
  import FxSlices
  import opened StateService

  /** The fields of an expected event that the matching reads. */
  datatype ExpectedEvent = ExpectedEvent(eventType: string, occurrence: int, xPathQuery: string, xPathValue: string)

  // ---------------------------------------------------------------------------
  // Byte replacement and sanitising

  /**
   * `bytes.Replace(s, pat, rep, -1)`: every occurrence of `pat`, scanning left
   * to right without overlaps, replaced by `rep`.
   */
  function ReplaceAll(s: string, pat: string, rep: string): string
    requires |pat| > 0
    decreases |s|
  {
    if |s| < |pat| then s
    else if s[..|pat|] == pat then rep + ReplaceAll(s[|pat|..], pat, rep)
    else [s[0]] + ReplaceAll(s[1..], pat, rep)
  }

  /** No character of `a` occurs in `b`. */
  predicate Disjoint(a: string, b: string) {
    forall i :: 0 <= i < |a| ==> a[i] !in b
  }

  lemma {:induction false} ContainsTooShort(s: string, sub: string)
    requires |s| < |sub|
    ensures !Contains(s, sub)
    decreases |s|
  {
    if |s| > 0 {
      ContainsTooShort(s[1..], sub);
    }
  }

  /** An occurrence after a prefix made of characters foreign to the pattern is an occurrence in the rest. */
  lemma {:induction false} ContainsAfterForeign(a: string, b: string, p: string)
    requires |p| > 0 && Disjoint(a, p)
    ensures Contains(a + b, p) ==> Contains(b, p)
    decreases |a|
  {
    if a == [] {
      assert a + b == b;
    } else {
      assert (a + b)[0] == a[0];
      assert !HasPrefix(a + b, p);
      assert (a + b)[1..] == a[1..] + b;
      ContainsAfterForeign(a[1..], b, p);
    }
  }

  lemma ContainsSuffix(s: string, p: string, k: nat)
    requires k <= |s|
    ensures Contains(s[k..], p) ==> Contains(s, p)
    decreases k
  {
    if k > 0 {
      assert s[1..][k - 1..] == s[k..];
      ContainsSuffix(s[1..], p, k - 1);
    }
  }

  /**
   * As long as the output shows no character of the replacement, it copies
   * the input verbatim.
   */
  lemma ReplaceStartsWithReplacement(t: string, pat: string, rep: string)
    requires |pat| > 0 && |rep| > 0 && |t| >= |pat| && t[..|pat|] == pat
    ensures |ReplaceAll(t, pat, rep)| > 0 && ReplaceAll(t, pat, rep)[0] in rep
  {
    assert ReplaceAll(t, pat, rep)[0] == rep[0];
  }

  lemma {:induction false} ReplacePrefixCopies(t: string, pat: string, rep: string, k: nat)
    requires |pat| > 0 && |rep| > 0
    requires k <= |ReplaceAll(t, pat, rep)|
    requires forall j :: 0 <= j < k ==> ReplaceAll(t, pat, rep)[j] !in rep
    ensures k <= |t| && ReplaceAll(t, pat, rep)[..k] == t[..k]
    decreases |t|
  {
    var r := ReplaceAll(t, pat, rep);
    if |t| < |pat| {
    } else if t[..|pat|] == pat {
      if k > 0 {
        ReplaceStartsWithReplacement(t, pat, rep);
        assert false;
      }
    } else if k > 0 {
      var r1 := ReplaceAll(t[1..], pat, rep);
      assert r == [t[0]] + r1;
      assert forall j :: 0 <= j < k - 1 ==> r1[j] == r[j + 1];
      ReplacePrefixCopies(t[1..], pat, rep, k - 1);
      assert r[..k] == [t[0]] + r1[..k - 1];
      assert t[..k] == [t[0]] + t[1..][..k - 1];
    }
  }

  /**
   * When no character of the replacement occurs in the pattern, no
   * occurrence of the pattern is left after replacing.
   */
  lemma {:induction false} ReplaceAllRemoves(s: string, pat: string, rep: string)
    requires |pat| > 0 && |rep| > 0 && Disjoint(rep, pat)
    ensures !Contains(ReplaceAll(s, pat, rep), pat)
    decreases |s|
  {
    var r := ReplaceAll(s, pat, rep);
    if |s| < |pat| {
      ContainsTooShort(s, pat);
    } else if s[..|pat|] == pat {
      ReplaceAllRemoves(s[|pat|..], pat, rep);
      ContainsAfterForeign(rep, ReplaceAll(s[|pat|..], pat, rep), pat);
    } else {
      ReplaceAllRemoves(s[1..], pat, rep);
      assert r[1..] == ReplaceAll(s[1..], pat, rep);
      if HasPrefix(r, pat) {
        assert forall j :: 0 <= j < |pat| ==> r[j] == pat[j];
        ReplacePrefixCopies(s, pat, rep, |pat|);
        assert false;
      }
    }
  }

  /**
   * Replacing one pattern cannot create an occurrence of another pattern
   * that shares no character with the replacement.
   */
  lemma {:induction false} ReplaceAllCreatesNothing(t: string, pat: string, rep: string, p: string)
    requires |pat| > 0 && |rep| > 0 && |p| > 0 && Disjoint(rep, p)
    ensures Contains(ReplaceAll(t, pat, rep), p) ==> Contains(t, p)
    decreases |t|
  {
    var r := ReplaceAll(t, pat, rep);
    if |t| < |pat| {
    } else if t[..|pat|] == pat {
      if Contains(r, p) {
        ContainsAfterForeign(rep, ReplaceAll(t[|pat|..], pat, rep), p);
        ReplaceAllCreatesNothing(t[|pat|..], pat, rep, p);
        ContainsSuffix(t, p, |pat|);
      }
    } else {
      assert r[1..] == ReplaceAll(t[1..], pat, rep);
      if Contains(r, p) {
        if HasPrefix(r, p) {
          assert forall j :: 0 <= j < |p| ==> r[j] == p[j];
          ReplacePrefixCopies(t, pat, rep, |p|);
          assert HasPrefix(t, p);
        } else {
          ReplaceAllCreatesNothing(t[1..], pat, rep, p);
        }
      }
    }
  }

  /** Without an occurrence of the pattern the input comes back unchanged. */
  lemma {:induction false} ReplaceAllIdentity(s: string, pat: string, rep: string)
    requires |pat| > 0 && !Contains(s, pat)
    ensures ReplaceAll(s, pat, rep) == s
    decreases |s|
  {
    if |s| >= |pat| {
      assert !HasPrefix(s, pat);
      ReplaceAllIdentity(s[1..], pat, rep);
    }
  }

  const EscapedLess: string := "\\u003c"
  const EscapedGreater: string := "\\u003e"
  const EscapedAmpersand: string := "\\u0026"

  /** `sanitizeURLEncodedJSON`. */
  function Sanitize(b: string): string {
    ReplaceAll(ReplaceAll(ReplaceAll(b, EscapedLess, "<"), EscapedGreater, ">"), EscapedAmpersand, "&")
  }

  /** No escaped <, > or & is left after sanitising. */
  lemma SanitizeRemovesEscapes(b: string)
    ensures !Contains(Sanitize(b), EscapedLess)
    ensures !Contains(Sanitize(b), EscapedGreater)
    ensures !Contains(Sanitize(b), EscapedAmpersand)
  {
    var s1 := ReplaceAll(b, EscapedLess, "<");
    var s2 := ReplaceAll(s1, EscapedGreater, ">");
    var s3 := ReplaceAll(s2, EscapedAmpersand, "&");
    ReplaceAllRemoves(b, EscapedLess, "<");
    ReplaceAllRemoves(s1, EscapedGreater, ">");
    ReplaceAllRemoves(s2, EscapedAmpersand, "&");
    ReplaceAllCreatesNothing(s1, EscapedGreater, ">", EscapedLess);
    ReplaceAllCreatesNothing(s2, EscapedAmpersand, "&", EscapedLess);
    ReplaceAllCreatesNothing(s2, EscapedAmpersand, "&", EscapedGreater);
  }

  /** Text without escapes is left as it is. */
  lemma SanitizeClean(b: string)
    requires !Contains(b, EscapedLess) && !Contains(b, EscapedGreater) && !Contains(b, EscapedAmpersand)
    ensures Sanitize(b) == b
  {
    ReplaceAllIdentity(b, EscapedLess, "<");
    ReplaceAllIdentity(b, EscapedGreater, ">");
    ReplaceAllIdentity(b, EscapedAmpersand, "&");
  }

  // ---------------------------------------------------------------------------
  // Finding an expected event

  /** `slices.Reverse` on a value. */
  function Reverse<T>(xs: seq<T>): (r: seq<T>)
    ensures |r| == |xs|
    ensures forall i :: 0 <= i < |xs| ==> r[i] == xs[|xs| - 1 - i]
  {
    if xs == [] then [] else Reverse(xs[1..]) + [xs[0]]
  }

  /** `slices.Reverse`: swap from both ends towards the middle. */
  method ReverseInPlace<T>(a: array<T>)
    modifies a
    ensures a[..] == Reverse(old(a[..]))
  {
    var i := 0;
    while i < a.Length / 2
      invariant 0 <= i <= a.Length / 2
      invariant forall k :: 0 <= k < i ==> a[k] == old(a[a.Length - 1 - k]) && a[a.Length - 1 - k] == old(a[k])
      invariant forall k :: i <= k < a.Length - i ==> a[k] == old(a[k])
    {
      a[i], a[a.Length - 1 - i] := a[a.Length - 1 - i], a[i];
      i := i + 1;
    }
  }

  /**
   * Whether a received event meets the expectation: same type and, when a
   * query is given, the sanitised result of the query equals the expected
   * value. An event whose marshalling or query fails is skipped.
   */
  predicate EventMatches(evt: TestEvent, expected: ExpectedEvent, eval: (TestEvent, string) -> Option<string>) {
    evt.eventType == expected.eventType &&
    (expected.xPathQuery == "" ||
     (eval(evt, expected.xPathQuery).Some? && Sanitize(eval(evt, expected.xPathQuery).value) == expected.xPathValue))
  }

  function Matches(expected: ExpectedEvent, eval: (TestEvent, string) -> Option<string>): TestEvent -> bool {
    (evt: TestEvent) => EventMatches(evt, expected, eval)
  }

  /** The events in the order they are scanned: as received, or reversed for a negative occurrence. */
  function ScanOrder(events: seq<TestEvent>, occurrence: int): seq<TestEvent> {
    if occurrence < 0 then Reverse(events) else events
  }

  function Abs(n: int): nat { if n < 0 then -n else n }

  /**
   * `containsExpectedEvent`: scan the events (a reversed clone of them for
   * a negative occurrence) counting the matching ones, and return the
   * |occurrence|-th. The caller's events are not touched.
   */
  method ContainsExpectedEvent(events: array<TestEvent>, expected: ExpectedEvent, eval: (TestEvent, string) -> Option<string>)
    returns (evt: Option<TestEvent>)
    ensures var ordered := ScanOrder(events[..], expected.occurrence);
      var nth := Occurrence.NthWhere(ordered, Matches(expected, eval), Abs(expected.occurrence));
      (evt.Some? <==> nth.Some?) &&
      (evt.Some? ==> evt.value == ordered[nth.value])
    ensures expected.occurrence == 0 ==> evt.None?
  {
    var ordered := events;
    var expectedOccurrence := expected.occurrence;
    if expected.occurrence < 0 {
      var clone := new TestEvent[events.Length](i requires 0 <= i < events.Length reads events => events[i]);
      assert clone[..] == events[..];
      ReverseInPlace(clone);
      expectedOccurrence := -expected.occurrence;
      ordered := clone;
    }
    assert ordered[..] == ScanOrder(events[..], expected.occurrence);
    assert expectedOccurrence == Abs(expected.occurrence);
    evt := FindNth(ordered, Matches(expected, eval), expectedOccurrence);
  }

  /** The scanning loop of `containsExpectedEvent`: the n-th element satisfying `p`, if there is one. */
  method FindNth<T>(ordered: array<T>, p: T -> bool, expectedOccurrence: int) returns (evt: Option<T>)
    ensures var nth := Occurrence.NthWhere(ordered[..], p, expectedOccurrence);
      (evt.Some? <==> nth.Some?) &&
      (evt.Some? ==> evt.value == ordered[nth.value])
  {
    var occurrence := 0;
    var k := 0;
    while k < ordered.Length
      invariant 0 <= k <= ordered.Length
      invariant occurrence == Occurrence.CountWhere(ordered[..k], p)
      invariant expectedOccurrence <= 0 || occurrence < expectedOccurrence
    {
      var e := ordered[k];
      assert ordered[..k + 1] == ordered[..k] + [e];
      Occurrence.CountWhereSnoc(ordered[..k], e, p);
      if p(e) {
        occurrence := occurrence + 1;
        if occurrence == expectedOccurrence {
          Occurrence.NthWherePrefix(ordered[..], p, expectedOccurrence, k);
          return Some(e);
        }
      }
      k := k + 1;
    }
    assert ordered[..k] == ordered[..];
    return None;
  }

  /** Counting over a reversed sequence counts the same elements. */
  lemma {:induction false} CountReverse<T>(xs: seq<T>, p: T -> bool)
    ensures Occurrence.CountWhere(Reverse(xs), p) == Occurrence.CountWhere(xs, p)
  {
    if xs != [] {
      CountReverse(xs[1..], p);
      Occurrence.CountWhereSnoc(Reverse(xs[1..]), xs[0], p);
    }
  }

  /**
   * A negative occurrence -n finds the n-th match counted from the end: a
   * matching event with exactly n - 1 matches after it.
   */
  lemma FromTheEnd<T>(xs: seq<T>, p: T -> bool, n: int)
    requires Occurrence.NthWhere(Reverse(xs), p, n).Some?
    ensures var i := |xs| - 1 - Occurrence.NthWhere(Reverse(xs), p, n).value;
      0 <= i < |xs| && p(xs[i]) && Occurrence.CountWhere(xs[i + 1..], p) == n - 1
  {
    var j := Occurrence.NthWhere(Reverse(xs), p, n).value;
    var i := |xs| - 1 - j;
    assert Reverse(xs)[..j] == Reverse(xs[i + 1..]);
    CountReverse(xs[i + 1..], p);
  }

  // ---------------------------------------------------------------------------
  // Queue names

  /** Whether a queue name passes the filter: trimmed and lower-cased, it contains the trimmed, lower-cased filter. */
  predicate QueueNameMatches(name: string, filter: string) {
    Contains(ToLower(TrimSpace(name)), ToLower(TrimSpace(filter)))
  }

  function QueueMatches(filter: string): string -> bool {
    (name: string) => QueueNameMatches(name, filter)
  }

  /** The filter loop of `getRabbitMQQueues`: keep, in order, the original names that pass. */
  method FilterQueueNames(names: seq<string>, filter: string) returns (queueNames: seq<string>)
    ensures queueNames == FxSlices.Filter(names, QueueMatches(filter))
  {
    queueNames := [];
    var k := 0;
    while k < |names|
      invariant 0 <= k <= |names|
      invariant queueNames == FxSlices.Filter(names[..k], QueueMatches(filter))
    {
      assert names[..k + 1][..k] == names[..k];
      if QueueNameMatches(names[k], filter) {
        queueNames := queueNames + [names[k]];
      }
      k := k + 1;
    }
    assert names[..k] == names;
  }

  /** A blank filter keeps every queue. */
  lemma BlankFilterKeepsAll(names: seq<string>, filter: string)
    requires TrimSpace(filter) == ""
    ensures FxSlices.Filter(names, QueueMatches(filter)) == names
  {
    forall i | 0 <= i < |names|
      ensures QueueMatches(filter)(names[i])
    {
      assert ToLower(TrimSpace(filter)) == "";
      assert HasPrefix(ToLower(TrimSpace(names[i])), "");
      assert QueueNameMatches(names[i], filter);
    }
    FilterAll(names, QueueMatches(filter));
  }

  lemma {:induction false} FilterAll<T>(xs: seq<T>, p: T -> bool)
    requires forall i :: 0 <= i < |xs| ==> p(xs[i])
    ensures FxSlices.Filter(xs, p) == xs
  {
    if xs != [] {
      FilterAll(xs[..|xs| - 1], p);
      assert xs == xs[..|xs| - 1] + [xs[|xs| - 1]];
    }
  }
}
