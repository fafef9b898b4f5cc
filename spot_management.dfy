/**
 * The spot filter and toggle service: a filtered view of the layout's spots (the AND of
 * a building, a status, a type, a feature and a text-search condition), per-status
 * counts, and a toggle that moves a spot one step around the four-status cycle.
 */
module SpotManagement {
  import opened Wrappers
  import opened Seqs
  import opened Text
  import opened Layout

  datatype StatusFilter = AllStatuses | OnlyStatus(status: SpotStatus)
  datatype TypeFilter = AllTypes | OnlyType(spotType: SpotType)

  /** The filter state; a `featureFilter` of `None` is `null`. */
  datatype SpotFilters = SpotFilters(
    statusFilter: StatusFilter,
    typeFilter: TypeFilter,
    featureFilter: Option<string>,
    searchQuery: string)

  const DefaultFilters := SpotFilters(AllStatuses, AllTypes, None, "")

  // ---------------------------------------------------------------------------------------
  // The conditions. An inactive condition passes every spot.

  /** `if (buildingId)`: an absent or empty building id filters nothing. */
  predicate BuildingFilterActive(buildingId: Option<string>) {
    buildingId.Some? && buildingId.value != ""
  }

  /** The ids of the bays on the floors of the building, computed as the source does. */
  function BuildingBayIds(floors: seq<Floor>, bays: seq<Bay>, buildingId: string): seq<string> {
    var floorIds := Map(Filter(floors, (f: Floor) => f.buildingId == buildingId), FloorIdOf);
    Map(Filter(bays, (b: Bay) => b.floorId in floorIds), BayIdOf)
  }

  /** A spot lies in the building: some bay with its bay id is on some floor of the building. */
  ghost predicate InBuilding(s: Spot, floors: seq<Floor>, bays: seq<Bay>, buildingId: string) {
    exists b :: b in bays && b.id == s.bayId && exists f :: f in floors && f.id == b.floorId && f.buildingId == buildingId
  }

  lemma BuildingBayIdsSpec(floors: seq<Floor>, bays: seq<Bay>, buildingId: string)
    ensures forall s: Spot :: s.bayId in BuildingBayIds(floors, bays, buildingId) <==> InBuilding(s, floors, bays, buildingId)
  {
    var onBuilding := Filter(floors, (f: Floor) => f.buildingId == buildingId);
    var floorIds := Map(onBuilding, FloorIdOf);
    MapIn(onBuilding, FloorIdOf);
    var onFloors := Filter(bays, (b: Bay) => b.floorId in floorIds);
    MapIn(onFloors, BayIdOf);
  }

  predicate PassesBuilding(s: Spot, floors: seq<Floor>, bays: seq<Bay>, buildingId: Option<string>) {
    !BuildingFilterActive(buildingId) || s.bayId in BuildingBayIds(floors, bays, buildingId.value)
  }

  predicate PassesStatus(s: Spot, f: StatusFilter) {
    f.AllStatuses? || s.status == f.status
  }

  predicate PassesType(s: Spot, f: TypeFilter) {
    f.AllTypes? || s.spotType == f.spotType
  }

  /** `if (filters.featureFilter)`: `null` and the empty string filter nothing. */
  predicate FeatureFilterActive(f: Option<string>) {
    f.Some? && f.value != ""
  }

  predicate PassesFeature(s: Spot, f: Option<string>) {
    !FeatureFilterActive(f) || f.value in s.features
  }

  /** A query that is blank after trimming filters nothing. */
  predicate SearchActive(query: string) {
    Trim(query) != ""
  }

  function SearchTerm(query: string): string {
    ToLower(Trim(query))
  }

  /** The spot number in decimal, or the lower-cased id, contains the term. */
  predicate MatchesSearch(s: Spot, term: string) {
    Contains(IntToDecimal(s.spotNumber), term) || Contains(ToLower(s.id), term)
  }

  predicate PassesSearch(s: Spot, query: string) {
    !SearchActive(query) || MatchesSearch(s, SearchTerm(query))
  }

  /** The reference definition: a spot is shown when it passes every condition. */
  predicate SpotMatches(s: Spot, floors: seq<Floor>, bays: seq<Bay>, filters: SpotFilters, buildingId: Option<string>) {
    && PassesBuilding(s, floors, bays, buildingId)
    && PassesStatus(s, filters.statusFilter)
    && PassesType(s, filters.typeFilter)
    && PassesFeature(s, filters.featureFilter)
    && PassesSearch(s, filters.searchQuery)
  }

  // ---------------------------------------------------------------------------------------
  // `getFilteredSpots`: the source's chain of optional filters.

  function ByBuilding(spots: seq<Spot>, floors: seq<Floor>, bays: seq<Bay>, buildingId: Option<string>): seq<Spot> {
    if BuildingFilterActive(buildingId) then
      var bayIds := BuildingBayIds(floors, bays, buildingId.value);
      Filter(spots, (s: Spot) => s.bayId in bayIds)
    else spots
  }

  function ByStatus(spots: seq<Spot>, f: StatusFilter): seq<Spot> {
    if f.OnlyStatus? then Filter(spots, (s: Spot) => s.status == f.status) else spots
  }

  function ByType(spots: seq<Spot>, f: TypeFilter): seq<Spot> {
    if f.OnlyType? then Filter(spots, (s: Spot) => s.spotType == f.spotType) else spots
  }

  function ByFeature(spots: seq<Spot>, f: Option<string>): seq<Spot> {
    if FeatureFilterActive(f) then Filter(spots, (s: Spot) => f.value in s.features) else spots
  }

  function BySearch(spots: seq<Spot>, query: string): seq<Spot> {
    if SearchActive(query) then
      var term := SearchTerm(query);
      Filter(spots, (s: Spot) => MatchesSearch(s, term))
    else spots
  }

  function FilteredSpots(spots: seq<Spot>, floors: seq<Floor>, bays: seq<Bay>, filters: SpotFilters,
                         buildingId: Option<string>): seq<Spot> {
    var byBuilding := ByBuilding(spots, floors, bays, buildingId);
    var byStatus := ByStatus(byBuilding, filters.statusFilter);
    var byType := ByType(byStatus, filters.typeFilter);
    var byFeature := ByFeature(byType, filters.featureFilter);
    BySearch(byFeature, filters.searchQuery)
  }

  /** Each optional stage is the filter by its condition. */
  lemma StagesAreFilters(spots: seq<Spot>, floors: seq<Floor>, bays: seq<Bay>, filters: SpotFilters, buildingId: Option<string>)
    ensures ByBuilding(spots, floors, bays, buildingId) == Filter(spots, (s: Spot) => PassesBuilding(s, floors, bays, buildingId))
    ensures ByStatus(spots, filters.statusFilter) == Filter(spots, (s: Spot) => PassesStatus(s, filters.statusFilter))
    ensures ByType(spots, filters.typeFilter) == Filter(spots, (s: Spot) => PassesType(s, filters.typeFilter))
    ensures ByFeature(spots, filters.featureFilter) == Filter(spots, (s: Spot) => PassesFeature(s, filters.featureFilter))
    ensures BySearch(spots, filters.searchQuery) == Filter(spots, (s: Spot) => PassesSearch(s, filters.searchQuery))
  {
    if BuildingFilterActive(buildingId) {
      var bayIds := BuildingBayIds(floors, bays, buildingId.value);
      FilterAgree(spots, (s: Spot) => s.bayId in bayIds, (s: Spot) => PassesBuilding(s, floors, bays, buildingId));
    } else {
      FilterKeepsAll(spots, (s: Spot) => PassesBuilding(s, floors, bays, buildingId));
    }
    var sf := filters.statusFilter;
    if sf.OnlyStatus? {
      FilterAgree(spots, (s: Spot) => s.status == sf.status, (s: Spot) => PassesStatus(s, sf));
    } else {
      FilterKeepsAll(spots, (s: Spot) => PassesStatus(s, sf));
    }
    var tf := filters.typeFilter;
    if tf.OnlyType? {
      FilterAgree(spots, (s: Spot) => s.spotType == tf.spotType, (s: Spot) => PassesType(s, tf));
    } else {
      FilterKeepsAll(spots, (s: Spot) => PassesType(s, tf));
    }
    var ff := filters.featureFilter;
    if FeatureFilterActive(ff) {
      FilterAgree(spots, (s: Spot) => ff.value in s.features, (s: Spot) => PassesFeature(s, ff));
    } else {
      FilterKeepsAll(spots, (s: Spot) => PassesFeature(s, ff));
    }
    var q := filters.searchQuery;
    if SearchActive(q) {
      var term := SearchTerm(q);
      FilterAgree(spots, (s: Spot) => MatchesSearch(s, term), (s: Spot) => PassesSearch(s, q));
    } else {
      FilterKeepsAll(spots, (s: Spot) => PassesSearch(s, q));
    }
  }

  /** The chain of filters is the single filter by `SpotMatches`. */
  lemma {:induction false} FilteredSpotsIsOneFilter(spots: seq<Spot>, floors: seq<Floor>, bays: seq<Bay>,
                                                     filters: SpotFilters, buildingId: Option<string>)
    ensures FilteredSpots(spots, floors, bays, filters, buildingId) ==
      Filter(spots, (s: Spot) => SpotMatches(s, floors, bays, filters, buildingId))
  {
    var p1 := (s: Spot) => PassesBuilding(s, floors, bays, buildingId);
    var p2 := (s: Spot) => PassesStatus(s, filters.statusFilter);
    var p3 := (s: Spot) => PassesType(s, filters.typeFilter);
    var p4 := (s: Spot) => PassesFeature(s, filters.featureFilter);
    var p5 := (s: Spot) => PassesSearch(s, filters.searchQuery);
    var q2 := (s: Spot) => p1(s) && p2(s);
    var q3 := (s: Spot) => q2(s) && p3(s);
    var q4 := (s: Spot) => q3(s) && p4(s);
    var q5 := (s: Spot) => q4(s) && p5(s);

    var s1 := ByBuilding(spots, floors, bays, buildingId);
    StagesAreFilters(spots, floors, bays, filters, buildingId);
    assert s1 == Filter(spots, p1);
    var s2 := ByStatus(s1, filters.statusFilter);
    StagesAreFilters(s1, floors, bays, filters, buildingId);
    FilterFilter(spots, p1, p2, q2);
    assert s2 == Filter(spots, q2);
    var s3 := ByType(s2, filters.typeFilter);
    StagesAreFilters(s2, floors, bays, filters, buildingId);
    FilterFilter(spots, q2, p3, q3);
    assert s3 == Filter(spots, q3);
    var s4 := ByFeature(s3, filters.featureFilter);
    StagesAreFilters(s3, floors, bays, filters, buildingId);
    FilterFilter(spots, q3, p4, q4);
    assert s4 == Filter(spots, q4);
    StagesAreFilters(s4, floors, bays, filters, buildingId);
    FilterFilter(spots, q4, p5, q5);
    FilterAgree(spots, q5, (s: Spot) => SpotMatches(s, floors, bays, filters, buildingId));
  }

  /**
   * The filtered view keeps the spot order, holds exactly the spots that pass every
   * condition, and with the default filters and no building it is the whole list.
   */
  lemma FilteredSpotsSpec(spots: seq<Spot>, floors: seq<Floor>, bays: seq<Bay>, filters: SpotFilters, buildingId: Option<string>)
    ensures var r := FilteredSpots(spots, floors, bays, filters, buildingId);
      && IsSubsequence(r, spots)
      && (forall s :: s in r <==> s in spots && SpotMatches(s, floors, bays, filters, buildingId))
    ensures filters == DefaultFilters && !BuildingFilterActive(buildingId) ==>
      FilteredSpots(spots, floors, bays, filters, buildingId) == spots
  {
    FilteredSpotsIsOneFilter(spots, floors, bays, filters, buildingId);
    FilterIsSubsequence(spots, (s: Spot) => SpotMatches(s, floors, bays, filters, buildingId));
    if filters == DefaultFilters && !BuildingFilterActive(buildingId) {
      assert !SearchActive("") by {
        assert Trim("") == TrimEnd(TrimStart(""));
      }
      FilterKeepsAll(spots, (s: Spot) => SpotMatches(s, floors, bays, filters, buildingId));
    }
  }

  /** The building condition is exactly "the spot's bay is on a floor of that building". */
  lemma PassesBuildingMeans(s: Spot, floors: seq<Floor>, bays: seq<Bay>, buildingId: string)
    requires buildingId != ""
    ensures PassesBuilding(s, floors, bays, Some(buildingId)) <==> InBuilding(s, floors, bays, buildingId)
  {
    BuildingBayIdsSpec(floors, bays, buildingId);
  }

  /** A query of only whitespace shows every spot; otherwise the spot number or id must contain the trimmed, lower-cased query. */
  lemma PassesSearchMeans(s: Spot, query: string)
    ensures (forall k :: 0 <= k < |query| ==> IsWhitespace(query[k])) ==> PassesSearch(s, query)
    ensures PassesSearch(s, query) <==>
      Trim(query) == [] || Contains(IntToDecimal(s.spotNumber), ToLower(Trim(query))) || Contains(ToLower(s.id), ToLower(Trim(query)))
  {
    TrimBlank(query);
  }

  // ---------------------------------------------------------------------------------------
  // `getSpotsByStatus`.

  datatype StatusCounts = StatusCounts(available: nat, occupied: nat, reserved: nat, maintenance: nat)

  function CountStatus(spots: seq<Spot>, status: SpotStatus): nat {
    |Filter(spots, (s: Spot) => s.status == status)|
  }

  /** The counts over the spots the current filters show for the building. */
  function SpotsByStatus(spots: seq<Spot>, floors: seq<Floor>, bays: seq<Bay>, filters: SpotFilters, buildingId: string): StatusCounts {
    var shown := FilteredSpots(spots, floors, bays, filters, Some(buildingId));
    StatusCounts(CountStatus(shown, Available), CountStatus(shown, Occupied), CountStatus(shown, Reserved),
      CountStatus(shown, Maintenance))
  }

  /** Every spot has exactly one of the four statuses, so the counts add up to the list's length. */
  lemma {:induction false} CountsPartition(spots: seq<Spot>)
    ensures CountStatus(spots, Available) + CountStatus(spots, Occupied) + CountStatus(spots, Reserved)
      + CountStatus(spots, Maintenance) == |spots|
    decreases |spots|
  {
    if spots != [] {
      CountsPartition(spots[1..]);
    }
  }

  lemma SpotsByStatusSum(spots: seq<Spot>, floors: seq<Floor>, bays: seq<Bay>, filters: SpotFilters, buildingId: string)
    ensures var c := SpotsByStatus(spots, floors, bays, filters, buildingId);
      c.available + c.occupied + c.reserved + c.maintenance == |FilteredSpots(spots, floors, bays, filters, Some(buildingId))|
  {
    CountsPartition(FilteredSpots(spots, floors, bays, filters, Some(buildingId)));
  }

  /** The counts see the current filters: under a status filter every other status counts zero. */
  lemma SpotsByStatusUnderStatusFilter(spots: seq<Spot>, floors: seq<Floor>, bays: seq<Bay>, filters: SpotFilters,
                                       buildingId: string, other: SpotStatus)
    requires filters.statusFilter.OnlyStatus? && other != filters.statusFilter.status
    ensures CountStatus(FilteredSpots(spots, floors, bays, filters, Some(buildingId)), other) == 0
  {
    var shown := FilteredSpots(spots, floors, bays, filters, Some(buildingId));
    FilteredSpotsSpec(spots, floors, bays, filters, Some(buildingId));
    forall s | s in shown ensures s.status != other {
      assert PassesStatus(s, filters.statusFilter);
    }
    FilterNone(shown, (s: Spot) => s.status == other);
  }

  // ---------------------------------------------------------------------------------------
  // `toggleSpotStatus`.

  /** available → occupied → reserved → maintenance → available. */
  function NextStatus(status: SpotStatus): SpotStatus {
    match status
    case Available => Occupied
    case Occupied => Reserved
    case Reserved => Maintenance
    case Maintenance => Available
  }

  /** The toggle is a single cycle through all four statuses: four steps return to the start and no fewer do. */
  lemma NextStatusCycle(status: SpotStatus)
    ensures NextStatus(NextStatus(NextStatus(NextStatus(status)))) == status
    ensures NextStatus(status) != status
    ensures NextStatus(NextStatus(status)) != status
    ensures NextStatus(NextStatus(NextStatus(status))) != status
    ensures NextStatus(NextStatus(status)) != NextStatus(status)
    ensures NextStatus(NextStatus(NextStatus(status))) != NextStatus(status)
    ensures NextStatus(NextStatus(NextStatus(status))) != NextStatus(NextStatus(status))
  {
  }

  function FindSpot(spots: seq<Spot>, id: string): Option<Spot> {
    Find(spots, (s: Spot) => s.id == id)
  }

  /** The spot list after a toggle: `None` (and `false`) when no spot has the id. */
  function Toggled(spots: seq<Spot>, id: string, now: int): Option<seq<Spot>> {
    match FindSpot(spots, id)
    case None => None
    case Some(spot) => Some(StatusUpdated(spots, id, NextStatus(spot.status), now))
  }

  /**
   * With unique spot ids, a toggle moves the spot with the id one status forward and stamps
   * it, leaves every other spot alone, and fails exactly when the id is unknown.
   */
  lemma ToggledSpec(spots: seq<Spot>, id: string, now: int)
    requires UniqueBy(spots, SpotIdOf)
    ensures Toggled(spots, id, now).None? <==> !HasSpot(spots, id)
    ensures Toggled(spots, id, now).Some? ==>
      var r := Toggled(spots, id, now).value;
      |r| == |spots| &&
      forall i :: 0 <= i < |spots| ==>
        r[i] == if spots[i].id == id then spots[i].(status := NextStatus(spots[i].status), lastUpdated := now) else spots[i]
  {
    match FindSpot(spots, id)
    case None =>
    case Some(spot) =>
      var k :| 0 <= k < |spots| && spots[k] == spot && forall j :: 0 <= j < k ==> spots[j].id != id;
      forall i | 0 <= i < |spots| && spots[i].id == id ensures spots[i] == spot {
        assert SpotIdOf(spots[i]) == SpotIdOf(spots[k]);
      }
      UpdateSpotStatusAt(spots, id, NextStatus(spot.status), now);
  }

  /** Four toggles give every spot back its status: only the toggled spot's timestamp differs. */
  lemma FourTogglesRestore(spots: seq<Spot>, id: string, t1: int, t2: int, t3: int, t4: int)
    requires UniqueBy(spots, SpotIdOf) && HasSpot(spots, id)
    ensures var r1 := Toggled(spots, id, t1).value;
      var r2 := Toggled(r1, id, t2).value;
      var r3 := Toggled(r2, id, t3).value;
      var r4 := Toggled(r3, id, t4).value;
      |r4| == |spots| &&
      forall i :: 0 <= i < |spots| ==> r4[i] == if spots[i].id == id then spots[i].(lastUpdated := t4) else spots[i]
  {
    var r1 := ToggleStep(spots, id, t1);
    var r2 := ToggleStep(r1, id, t2);
    var r3 := ToggleStep(r2, id, t3);
    var r4 := ToggleStep(r3, id, t4);
    forall i | 0 <= i < |spots|
      ensures r4[i] == if spots[i].id == id then spots[i].(lastUpdated := t4) else spots[i]
    {
      if spots[i].id == id {
        var st := spots[i].status;
        assert r1[i] == spots[i].(status := NextStatus(st), lastUpdated := t1);
        assert r2[i] == spots[i].(status := NextStatus(NextStatus(st)), lastUpdated := t2);
        assert r3[i] == spots[i].(status := NextStatus(NextStatus(NextStatus(st))), lastUpdated := t3);
        NextStatusCycle(st);
      } else {
        assert r4[i] == r3[i] == r2[i] == r1[i] == spots[i];
      }
    }
  }

  /** One toggle of a known id, with what it keeps: the length, the ids and their uniqueness. */
  lemma ToggleStep(spots: seq<Spot>, id: string, now: int) returns (r: seq<Spot>)
    requires UniqueBy(spots, SpotIdOf) && HasSpot(spots, id)
    ensures Toggled(spots, id, now) == Some(r)
    ensures UniqueBy(r, SpotIdOf) && HasSpot(r, id) && |r| == |spots|
    ensures forall i :: 0 <= i < |spots| ==>
      r[i] == if spots[i].id == id then spots[i].(status := NextStatus(spots[i].status), lastUpdated := now) else spots[i]
  {
    ToggledSpec(spots, id, now);
    r := Toggled(spots, id, now).value;
    forall i, j | 0 <= i < j < |r| ensures SpotIdOf(r[i]) != SpotIdOf(r[j]) {
      assert r[i].id == spots[i].id && r[j].id == spots[j].id;
    }
    var s :| s in spots && s.id == id;
    var k :| 0 <= k < |spots| && spots[k] == s;
    assert r[k] in r && r[k].id == id;
  }

  // ---------------------------------------------------------------------------------------
  // The service object.

  class SpotManager {
    var filters: SpotFilters
    const layout: LayoutRegistry

    constructor (layout: LayoutRegistry)
      ensures filters == DefaultFilters && this.layout == layout
    {
      filters := DefaultFilters;
      this.layout := layout;
    }

    method SetStatusFilter(status: StatusFilter)
      modifies this`filters
      ensures filters == old(filters).(statusFilter := status)
    {
      filters := filters.(statusFilter := status);
    }

    method SetTypeFilter(spotType: TypeFilter)
      modifies this`filters
      ensures filters == old(filters).(typeFilter := spotType)
    {
      filters := filters.(typeFilter := spotType);
    }

    method SetFeatureFilter(feature: Option<string>)
      modifies this`filters
      ensures filters == old(filters).(featureFilter := feature)
    {
      filters := filters.(featureFilter := feature);
    }

    method SetSearchQuery(query: string)
      modifies this`filters
      ensures filters == old(filters).(searchQuery := query)
    {
      filters := filters.(searchQuery := query);
    }

    method ResetFilters()
      modifies this`filters
      ensures filters == DefaultFilters
    {
      filters := DefaultFilters;
    }

    /** Moves the spot one status forward; `false`, with nothing changed, when no spot has the id. */
    method ToggleSpotStatus(spotId: string, now: int) returns (found: bool)
      modifies layout`spots
      ensures found <==> Toggled(old(layout.spots), spotId, now).Some?
      ensures found ==> layout.spots == Toggled(old(layout.spots), spotId, now).value
      ensures !found ==> layout.spots == old(layout.spots)
      ensures old(layout.Valid()) ==> layout.Valid()
    {
      var spot := FindSpot(layout.spots, spotId);
      if spot.None? {
        return false;
      }
      layout.UpdateSpotStatus(spotId, NextStatus(spot.value.status), now);
      return true;
    }
  }
}
