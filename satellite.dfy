/**
 * The satellite domain entity of the app service: the two accepted
 * satellite types, the constructor that validates them, and the
 * `SatelliteInfo` aggregate that keeps a satellite's TLE sets ordered
 * newest first. Times are integer instants (nanoseconds); the uuid
 * generator is an input.
 */
module SatelliteDomain {
  import opened Wrappers

  const Active: string := "ACTIVE"
  const Other: string := "OTHER"
  const InvalidSatelliteType: string := "invalid satellite type"

  /** `SatelliteType.IsValid`: no error exactly for the two catalogue types. */
  function IsValid(t: string): (err: Option<string>)
    ensures err.None? <==> (t == Active || t == Other)
    ensures err.Some? ==> err.value == InvalidSatelliteType
  {
    if t == Active || t == Other then None else Some(InvalidSatelliteType)
  }

  /** The bookkeeping fields every persisted entity carries. */
  datatype ModelBase = ModelBase(
    id: string,
    displayName: string,
    createdAt: int,
    updatedAt: Option<int>,
    deleteAt: Option<int>,
    processedAt: Option<int>,
    isActive: bool,
    isFavourite: bool)

  datatype Satellite = Satellite(base: ModelBase, name: string, spaceId: string, satType: string)

  /**
   * `NewSatellite`: an invalid type is refused before anything is built;
   * otherwise the arguments are stored, the fresh `id` becomes the
   * entity's identifier and `createdAt` also stamps the update and
   * processing times.
   */
  function NewSatellite(name: string, spaceId: string, satType: string, isFavourite: bool,
                        isActive: bool, createdAt: int, id: string): (r: Result<Satellite, string>)
    ensures r.Err? <==> IsValid(satType).Some?
    ensures r.Err? ==> r.error == InvalidSatelliteType
    ensures r.Ok? ==>
      && r.value.name == name && r.value.spaceId == spaceId && r.value.satType == satType
      && r.value.base.id == id && r.value.base.displayName == name
      && r.value.base.createdAt == createdAt
      && r.value.base.updatedAt == Some(createdAt) && r.value.base.processedAt == Some(createdAt)
      && r.value.base.deleteAt.None?
      && r.value.base.isActive == isActive && r.value.base.isFavourite == isFavourite
  {
    match IsValid(satType)
    case Some(e) => Err(e)
    case None =>
      Ok(Satellite(ModelBase(id, name, createdAt, Some(createdAt), None, Some(createdAt), isActive, isFavourite),
                   name, spaceId, satType))
  }

  /** A two-line element set; only its epoch takes part in the ordering. */
  datatype TLE = TLE(id: string, spaceId: string, line1: string, line2: string, epoch: int)

  /** Newest first: no TLE is preceded by an older one. */
  ghost predicate NewestFirst(s: seq<TLE>) {
    forall i, j :: 0 <= i < j < |s| ==> s[i].epoch >= s[j].epoch
  }

  /**
   * The `sort.Slice` call with the "epoch after" comparison: sorts `a` in
   * place, newest first. The library sort is not stable, so nothing is
   * promised about the relative order of TLEs with equal epochs; the result
   * is a permutation of the input.
   */
  method SortNewestFirst(a: array<TLE>)
    modifies a
    ensures NewestFirst(a[..])
    ensures multiset(a[..]) == multiset(old(a[..]))
  {
    if a.Length == 0 {
      return;
    }
    var i := 1;
    while i < a.Length
      invariant 1 <= i <= a.Length
      invariant NewestFirst(a[..i])
      invariant multiset(a[..]) == multiset(old(a[..]))
    {
      InsertNewest(a, i);
      i := i + 1;
    }
    assert a[..] == a[..a.Length];
  }

  /** One insertion step: moves `a[i]` left past every older TLE. */
  method InsertNewest(a: array<TLE>, i: nat)
    requires i < a.Length
    requires NewestFirst(a[..i])
    modifies a
    ensures NewestFirst(a[..i + 1])
    ensures multiset(a[..]) == multiset(old(a[..]))
  {
    var j := i;
    while j > 0 && a[j - 1].epoch < a[j].epoch
      invariant 0 <= j <= i
      invariant forall k, l :: 0 <= k < l <= i && k != j && l != j ==> a[k].epoch >= a[l].epoch
      invariant forall l :: j < l <= i ==> a[j].epoch > a[l].epoch
      invariant multiset(a[..]) == multiset(old(a[..]))
    {
      SwapDown(a, j);
      j := j - 1;
    }
  }

  /** Exchanges `a[j - 1]` and `a[j]`, which keeps the multiset of TLEs. */
  method SwapDown(a: array<TLE>, j: nat)
    requires 0 < j < a.Length
    modifies a
    ensures a[..] == old(a[..])[j - 1 := old(a[j])][j := old(a[j - 1])]
    ensures multiset(a[..]) == multiset(old(a[..]))
  {
    a[j - 1], a[j] := a[j], a[j - 1];
  }

  /** `SatelliteInfo`: a satellite and its TLEs, most recent first. */
  class SatelliteInfo {
    var satellite: Satellite
    var tles: seq<TLE>

    ghost predicate Valid()
      reads this
    {
      NewestFirst(tles)
    }

    /**
     * `NewSatelliteInfo`: sorts the caller's slice in place (the caller
     * sees the new order) and keeps it as the TLE list.
     */
    constructor (satellite: Satellite, tles: array<TLE>)
      modifies tles
      ensures Valid()
      ensures this.satellite == satellite
      ensures this.tles == tles[..]
      ensures multiset(this.tles) == multiset(old(tles[..]))
    {
      SortNewestFirst(tles);
      this.satellite := satellite;
      this.tles := tles[..];
    }

    /**
     * `GetMostRecentTLE`: nothing for an empty list, otherwise the head,
     * which is the newest TLE whenever the list is newest first.
     */
    function GetMostRecentTLE(): (r: Option<TLE>)
      reads this
      ensures r.None? <==> |tles| == 0
      ensures r.Some? ==> r.value == tles[0]
      ensures r.Some? && Valid() ==> forall i :: 0 <= i < |tles| ==> r.value.epoch >= tles[i].epoch
    {
      if |tles| == 0 then None else Some(tles[0])
    }

    /**
     * `AddTLE`: appends the TLE and sorts again, so the list grows by one,
     * holds the old TLEs plus the new one and is newest first.
     */
    method AddTLE(tle: TLE)
      modifies this
      ensures Valid()
      ensures satellite == old(satellite)
      ensures |tles| == |old(tles)| + 1
      ensures multiset(tles) == multiset(old(tles)) + multiset{tle}
    {
      var appended := tles + [tle];
      var a := new TLE[|appended|](i requires 0 <= i < |appended| => appended[i]);
      assert a[..] == appended;
      SortNewestFirst(a);
      tles := a[..];
    }
  }

  /** After `AddTLE` the most recent TLE is at least as new as the added one. */
  lemma {:induction false} AddedTleNotNewerThanHead(s: seq<TLE>, tle: TLE)
    requires NewestFirst(s)
    requires tle in multiset(s)
    ensures |s| > 0 && s[0].epoch >= tle.epoch
  {
    var k :| 0 <= k < |s| && s[k] == tle;
    if k > 0 {
      assert s[0].epoch >= s[k].epoch;
    }
  }
}
