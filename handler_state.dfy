/**
 * The handler-state enumeration of the app service: Started, Completed
 * and Failed, plus Unknown as the zero value. Parsing ignores case;
 * Unknown prints as "UNKNOWN". Decoding a JSON string is the parameter
 * `unmarshal`; encoding is written out, since the four names need no
 * escaping.
 */
module HandlerStateEnum {
  import opened Wrappers
  import opened Strings

  datatype HandlerState = Unknown | Started | Completed | Failed

  datatype StateError = UnknownHandlerState(value: string) | InvalidJson(data: string)

  /** The string each state holds; Unknown holds the empty string. */
  function Source(m: HandlerState): string {
    match m
    case Unknown => ""
    case Started => "Started"
    case Completed => "Completed"
    case Failed => "Failed"
  }

  /** `String`: the held string, or "UNKNOWN" for the empty one. */
  function String(m: HandlerState): (r: string)
    ensures r == "UNKNOWN" <==> m == Unknown
    ensures m != Unknown ==> r == Source(m)
  {
    if Source(m) == "" then "UNKNOWN" else Source(m)
  }

  function UpperString(m: HandlerState): string {
    ToUpper(String(m))
  }

  /** The three states that can be parsed. */
  predicate IsValid(m: HandlerState) { m != Unknown }

  /** `FromString`: compare upper-cased against each valid state; anything else is Unknown and an error. */
  function FromString(s: string): (r: (HandlerState, Option<StateError>))
    ensures r.1.None? <==> IsValid(r.0)
    ensures r.1.Some? ==> r.0 == Unknown && r.1 == Some(UnknownHandlerState(s))
    ensures IsValid(r.0) ==> ToUpper(s) == UpperString(r.0)
    ensures r.0 == Unknown ==> forall m :: IsValid(m) ==> ToUpper(s) != UpperString(m)
  {
    var u := ToUpper(s);
    if u == UpperString(Started) then (Started, None)
    else if u == UpperString(Completed) then (Completed, None)
    else if u == UpperString(Failed) then (Failed, None)
    else (Unknown, Some(UnknownHandlerState(s)))
  }

  /** `Validate` of a potential value. */
  function Validate(s: string): (HandlerState, Option<StateError>) {
    FromString(s)
  }

  /** Parsing the printed form of a valid state gives it back. */
  lemma FromStringString(m: HandlerState)
    requires IsValid(m)
    ensures FromString(String(m)) == (m, None)
  {
    assert UpperString(Started) == "STARTED";
    assert UpperString(Completed) == "COMPLETED";
    assert UpperString(Failed) == "FAILED";
  }

  /** Texts equal up to case parse to the same state. */
  lemma FromStringIgnoresCase(s: string, t: string)
    requires ToUpper(s) == ToUpper(t)
    ensures FromString(s).0 == FromString(t).0
  {
  }

  /** Upper-casing twice changes nothing more. */
  lemma ToUpperIdempotent(s: string)
    ensures ToUpper(ToUpper(s)) == ToUpper(s)
  {
    assert forall i :: 0 <= i < |s| ==> UpperChar(UpperChar(s[i])) == UpperChar(s[i]);
  }

  /** Parsing is case-insensitive: the upper-cased text parses like the original. */
  lemma FromStringUpperCase(s: string)
    ensures FromString(ToUpper(s)).0 == FromString(s).0
  {
    ToUpperIdempotent(s);
    FromStringIgnoresCase(ToUpper(s), s);
  }

  /** `MarshalJSON`: the printed form as a JSON string. */
  function MarshalJSON(m: HandlerState): (data: string)
    ensures |data| == |String(m)| + 2 && data[0] == '"' && data[|data| - 1] == '"'
    ensures data[1..|data| - 1] == String(m)
  {
    "\"" + String(m) + "\""
  }

  /**
   * `UnmarshalJSON` as a state change: `null` is Unknown; otherwise the JSON
   * string must decode and parse, and on any error the state is left as it was.
   */
  function UnmarshalJSON(m: HandlerState, data: string, unmarshal: string -> Option<string>): (r: (HandlerState, Option<StateError>))
    ensures data == "null" ==> r == (Unknown, None)
    ensures r.1.Some? ==> r.0 == m
    ensures data != "null" && r.1.None? ==>
      unmarshal(data).Some? && IsValid(r.0) && r == FromString(unmarshal(data).value)
  {
    if data == "null" then (Unknown, None)
    else match unmarshal(data)
      case None => (m, Some(InvalidJson(data)))
      case Some(value) =>
        var (s, err) := FromString(value);
        if err.Some? then (m, err) else (s, None)
  }

  /** A valid state written out and read back is itself, whatever the state before. */
  lemma MarshalRoundTrip(m: HandlerState, before: HandlerState, unmarshal: string -> Option<string>)
    requires IsValid(m) && unmarshal(MarshalJSON(m)) == Some(String(m))
    ensures UnmarshalJSON(before, MarshalJSON(m), unmarshal) == (m, None)
  {
    FromStringString(m);
    assert MarshalJSON(m) != "null";
  }

  /**
   * Unknown is written as "UNKNOWN", which does not read back: the state is
   * kept and an error reported. Only `null` reads as Unknown.
   */
  lemma UnknownDoesNotRoundTrip(before: HandlerState, unmarshal: string -> Option<string>)
    requires unmarshal(MarshalJSON(Unknown)) == Some("UNKNOWN")
    ensures UnmarshalJSON(before, MarshalJSON(Unknown), unmarshal) == (before, Some(UnknownHandlerState("UNKNOWN")))
  {
    assert MarshalJSON(Unknown) != "null";
    assert ToUpper("UNKNOWN") == "UNKNOWN";
    assert UpperString(Started) == "STARTED";
    assert UpperString(Completed) == "COMPLETED";
    assert UpperString(Failed) == "FAILED";
  }
}
