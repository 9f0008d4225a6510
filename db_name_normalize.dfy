/**
 * The test-database name normaliser: a candidate name is lower-cased and
 * every character outside `[a-zA-Z0-9_]` is deleted. PostgreSQL accepts
 * identifiers of at most 63 bytes; the normaliser computes a truncated
 * name for its log lines but returns the untruncated one.
 */
module DbNameNormalize {
  import opened Strings

  /** `dbNameMaxLength`. */
  const DbNameMaxLength: nat := 63

  /** A character the pattern `[^a-zA-Z0-9_]+` leaves in place. */
  predicate NameChar(c: char) {
    IsLower(c) || IsUpper(c) || IsDigit(c) || c == '_'
  }

  /** A character a normalised name may hold: `[a-z0-9_]`. */
  predicate NormalChar(c: char) {
    IsLower(c) || IsDigit(c) || c == '_'
  }

  /**
   * Replacing every run of disallowed characters by the empty string:
   * the allowed characters, in their order.
   */
  function DeleteDisallowed(s: string): (r: string)
    ensures |r| <= |s|
    ensures forall i :: 0 <= i < |r| ==> NameChar(r[i])
    decreases |s|
  {
    if |s| == 0 then ""
    else (if NameChar(s[0]) then [s[0]] else "") + DeleteDisallowed(s[1..])
  }

  /** `normalizeDatabaseName` as written: lower-case, then delete; no truncation. */
  function NormalizeDatabaseName(dbName: string): (r: string)
    ensures |r| <= |dbName|
    ensures forall i :: 0 <= i < |r| ==> NormalChar(r[i])
  {
    LowerCaseStaysNormal(dbName);
    DeleteDisallowed(ToLower(dbName))
  }

  /** After lower-casing, the characters the pattern keeps are exactly the normal ones. */
  lemma LowerCaseStaysNormal(s: string)
    ensures forall i :: 0 <= i < |DeleteDisallowed(ToLower(s))| ==> NormalChar(DeleteDisallowed(ToLower(s))[i])
  {
    NoUpperAfterDelete(ToLower(s));
  }

  lemma {:induction false} NoUpperAfterDelete(s: string)
    requires forall i :: 0 <= i < |s| ==> !IsUpper(s[i])
    ensures forall i :: 0 <= i < |DeleteDisallowed(s)| ==> NormalChar(DeleteDisallowed(s)[i])
    decreases |s|
  {
    if |s| > 0 {
      NoUpperAfterDelete(s[1..]);
    }
  }

  /** Deletion works character by character: it distributes over concatenation. */
  lemma {:induction false} DeleteDisallowedAppend(a: string, b: string)
    ensures DeleteDisallowed(a + b) == DeleteDisallowed(a) + DeleteDisallowed(b)
    decreases |a|
  {
    if |a| == 0 {
      assert a + b == b;
    } else {
      assert (a + b)[0] == a[0];
      assert (a + b)[1..] == a[1..] + b;
      DeleteDisallowedAppend(a[1..], b);
    }
  }

  /** A text made only of allowed characters is left as it is. */
  lemma {:induction false} DeleteDisallowedKeeps(s: string)
    requires forall i :: 0 <= i < |s| ==> NameChar(s[i])
    ensures DeleteDisallowed(s) == s
    decreases |s|
  {
    if |s| > 0 {
      DeleteDisallowedKeeps(s[1..]);
    }
  }

  /** A text with no allowed character is deleted completely. */
  lemma {:induction false} DeleteDisallowedDrops(s: string)
    requires forall i :: 0 <= i < |s| ==> !NameChar(s[i])
    ensures DeleteDisallowed(s) == ""
    decreases |s|
  {
    if |s| > 0 {
      DeleteDisallowedDrops(s[1..]);
    }
  }

  /** The normal characters are fixed by lower-casing. */
  lemma ToLowerKeepsNormal(s: string)
    requires forall i :: 0 <= i < |s| ==> NormalChar(s[i])
    ensures ToLower(s) == s
  {
  }

  /** An already normalised name is its own normal form. */
  lemma NormalizeKeepsNormal(s: string)
    requires forall i :: 0 <= i < |s| ==> NormalChar(s[i])
    ensures NormalizeDatabaseName(s) == s
  {
    ToLowerKeepsNormal(s);
    DeleteDisallowedKeeps(s);
  }

  /** Normalising twice is normalising once. */
  lemma NormalizeIdempotent(s: string)
    ensures NormalizeDatabaseName(NormalizeDatabaseName(s)) == NormalizeDatabaseName(s)
  {
    NormalizeKeepsNormal(NormalizeDatabaseName(s));
  }

  /** Upper-case letters are kept as their lower-case forms; case never matters. */
  lemma NormalizeIgnoresCase(s: string)
    ensures NormalizeDatabaseName(ToUpper(s)) == NormalizeDatabaseName(s)
  {
    assert ToLower(ToUpper(s)) == ToLower(s);
  }

  /** Normalising a concatenation normalises each part. */
  lemma NormalizeAppend(a: string, b: string)
    ensures NormalizeDatabaseName(a + b) == NormalizeDatabaseName(a) + NormalizeDatabaseName(b)
  {
    assert ToLower(a + b) == ToLower(a) + ToLower(b);
    DeleteDisallowedAppend(ToLower(a), ToLower(b));
  }

  /** A 64-character name of `a`s. */
  function LongName(): (r: string)
    ensures |r| == DbNameMaxLength + 1
    ensures forall i :: 0 <= i < |r| ==> r[i] == 'a'
  {
    seq(DbNameMaxLength + 1, _ => 'a')
  }

  /**
   * The length bound is not kept: a 64-character name of `a`s comes back
   * unchanged, one character over the 63 the truncation step stands for.
   */
  lemma NormalizeExceedsMaxLength()
    ensures |NormalizeDatabaseName(LongName())| == DbNameMaxLength + 1
  {
    NormalizeKeepsNormal(LongName());
  }

  /**
   * The normaliser with the truncated name used as the input of the
   * lower-casing step, which is what the computed `truncated` value is for.
   */
  function NormalizeDatabaseNameTruncated(dbName: string): (r: string)
    ensures |r| <= DbNameMaxLength
    ensures forall i :: 0 <= i < |r| ==> NormalChar(r[i])
  {
    var truncated := if |dbName| > DbNameMaxLength then dbName[..DbNameMaxLength] else dbName;
    NormalizeDatabaseName(truncated)
  }

  /** Names within the limit are normalised exactly as before. */
  lemma TruncatedAgreesOnShortNames(dbName: string)
    requires |dbName| <= DbNameMaxLength
    ensures NormalizeDatabaseNameTruncated(dbName) == NormalizeDatabaseName(dbName)
  {
  }

  /** The corrected normaliser is idempotent as well. */
  lemma TruncatedIdempotent(dbName: string)
    ensures NormalizeDatabaseNameTruncated(NormalizeDatabaseNameTruncated(dbName))
         == NormalizeDatabaseNameTruncated(dbName)
  {
    var r := NormalizeDatabaseNameTruncated(dbName);
    NormalizeKeepsNormal(r);
  }
}
