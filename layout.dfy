/**
 * The layout registry: flat lists of floors, bays and spots linked by foreign keys
 * (a bay's `floorId`, a spot's `bayId`), the selected floor and bay, create/update/delete
 * operations with a cascading delete from a floor to its bays to their spots, and the
 * filter-then-sort queries.
 */
module Layout {
  import opened Wrappers
  import opened Seqs
  import opened Text

  datatype SpotType = Standard | Compact | Oversized
  datatype SpotStatus = Available | Occupied | Reserved | Maintenance

  datatype Floor = Floor(id: string, buildingId: string, floorNumber: int, description: Option<string>)
  datatype Bay = Bay(id: string, floorId: string, bayNumber: int, description: Option<string>)

  /** A parking spot; `lastUpdated` is a time in milliseconds. */
  datatype Spot = Spot(
    id: string,
    bayId: string,
    spotNumber: int,
    spotType: SpotType,
    status: SpotStatus,
    features: seq<string>,
    lastUpdated: int)

  /** What the add operations are given: an element without its id (and, for spots, its timestamp). */
  datatype FloorInput = FloorInput(buildingId: string, floorNumber: int, description: Option<string>)
  datatype BayInput = BayInput(floorId: string, bayNumber: int, description: Option<string>)
  datatype SpotInput = SpotInput(bayId: string, spotNumber: int, spotType: SpotType, status: SpotStatus, features: seq<string>)

  /** `Partial<…>` updates: every present field replaces the element's own. */
  datatype FloorPatch = FloorPatch(
    id: Option<string>, buildingId: Option<string>, floorNumber: Option<int>, description: Option<Option<string>>)
  datatype BayPatch = BayPatch(
    id: Option<string>, floorId: Option<string>, bayNumber: Option<int>, description: Option<Option<string>>)
  datatype SpotPatch = SpotPatch(
    id: Option<string>,
    bayId: Option<string>,
    spotNumber: Option<int>,
    spotType: Option<SpotType>,
    status: Option<SpotStatus>,
    features: Option<seq<string>>,
    lastUpdated: Option<int>)

  const NoSpotChanges := SpotPatch(None, None, None, None, None, None, None)

  /** The update `updateSpotStatus` sends: `{ status }`. */
  function StatusPatch(status: SpotStatus): SpotPatch {
    NoSpotChanges.(status := Some(status))
  }

  function FloorIdOf(f: Floor): string { f.id }
  function BayIdOf(b: Bay): string { b.id }
  function SpotIdOf(s: Spot): string { s.id }
  function FloorNumberOf(f: Floor): int { f.floorNumber }
  function BayNumberOf(b: Bay): int { b.bayNumber }
  function SpotNumberOf(s: Spot): int { s.spotNumber }

  ghost predicate HasFloor(floors: seq<Floor>, id: string) {
    exists f :: f in floors && f.id == id
  }

  ghost predicate HasBay(bays: seq<Bay>, id: string) {
    exists b :: b in bays && b.id == id
  }

  ghost predicate HasSpot(spots: seq<Spot>, id: string) {
    exists s :: s in spots && s.id == id
  }

  /** An update leaves the element's id as it was. */
  predicate KeepsId(patchId: Option<string>, id: string) {
    patchId.None? || patchId == Some(id)
  }

  // ---------------------------------------------------------------------------------------
  // New elements. Ids are a letter prefix followed by the creation time in milliseconds.

  function NewFloor(input: FloorInput, now: int): Floor {
    Floor("f" + IntToDecimal(now), input.buildingId, input.floorNumber, input.description)
  }

  function NewBay(input: BayInput, now: int): Bay {
    Bay("b" + IntToDecimal(now), input.floorId, input.bayNumber, input.description)
  }

  function NewSpot(input: SpotInput, now: int): Spot {
    Spot("spot_" + IntToDecimal(now), input.bayId, input.spotNumber, input.spotType, input.status, input.features, now)
  }

  /**
   * A new element carries the input's fields, and elements created at different times
   * get different ids. Bays created here have ids starting with 'b'.
   */
  lemma NewElements(now: int, later: int, fi: FloorInput, bi: BayInput, si: SpotInput)
    ensures var f := NewFloor(fi, now);
      f.buildingId == fi.buildingId && f.floorNumber == fi.floorNumber && f.description == fi.description
    ensures var b := NewBay(bi, now);
      b.floorId == bi.floorId && b.bayNumber == bi.bayNumber && b.description == bi.description
    ensures var s := NewSpot(si, now);
      && s.bayId == si.bayId && s.spotNumber == si.spotNumber && s.spotType == si.spotType
      && s.status == si.status && s.features == si.features && s.lastUpdated == now
    ensures NewBay(bi, now).id[0] == 'b'
    ensures now != later ==> NewFloor(fi, now).id != NewFloor(fi, later).id
    ensures now != later ==> NewBay(bi, now).id != NewBay(bi, later).id
    ensures now != later ==> NewSpot(si, now).id != NewSpot(si, later).id
  {
    PrefixedDecimalInjective("f", now, later);
    PrefixedDecimalInjective("b", now, later);
    PrefixedDecimalInjective("spot_", now, later);
  }

  // ---------------------------------------------------------------------------------------
  // Updates: `list.map(x => x.id === id ? { ...x, ...updates } : x)`.

  function MergeFloor(f: Floor, p: FloorPatch): Floor {
    Floor(p.id.GetOr(f.id), p.buildingId.GetOr(f.buildingId), p.floorNumber.GetOr(f.floorNumber),
      p.description.GetOr(f.description))
  }

  function MergeBay(b: Bay, p: BayPatch): Bay {
    Bay(p.id.GetOr(b.id), p.floorId.GetOr(b.floorId), p.bayNumber.GetOr(b.bayNumber),
      p.description.GetOr(b.description))
  }

  /** `{ ...spot, ...updates, lastUpdated: now }`: the timestamp in the updates is overridden. */
  function UpdatedSpot(s: Spot, p: SpotPatch, now: int): Spot {
    Spot(p.id.GetOr(s.id), p.bayId.GetOr(s.bayId), p.spotNumber.GetOr(s.spotNumber), p.spotType.GetOr(s.spotType),
      p.status.GetOr(s.status), p.features.GetOr(s.features), now)
  }

  function UpdateFloors(floors: seq<Floor>, id: string, p: FloorPatch): seq<Floor> {
    Map(floors, (f: Floor) => if f.id == id then MergeFloor(f, p) else f)
  }

  function UpdateBays(bays: seq<Bay>, id: string, p: BayPatch): seq<Bay> {
    Map(bays, (b: Bay) => if b.id == id then MergeBay(b, p) else b)
  }

  function UpdateSpots(spots: seq<Spot>, id: string, p: SpotPatch, now: int): seq<Spot> {
    Map(spots, (s: Spot) => if s.id == id then UpdatedSpot(s, p, now) else s)
  }

  /** `updateSpotStatus(id, status)`: `updateSpot(id, { status })`. */
  function StatusUpdated(spots: seq<Spot>, id: string, status: SpotStatus, now: int): seq<Spot> {
    UpdateSpots(spots, id, StatusPatch(status), now)
  }

  /** Updates touch exactly the elements with the id, keep the length and order, and do nothing for an unknown id. */
  lemma UpdatesAt(floors: seq<Floor>, bays: seq<Bay>, spots: seq<Spot>, id: string,
                  fp: FloorPatch, bp: BayPatch, sp: SpotPatch, now: int)
    ensures |UpdateFloors(floors, id, fp)| == |floors| && |UpdateBays(bays, id, bp)| == |bays|
    ensures |UpdateSpots(spots, id, sp, now)| == |spots|
    ensures forall i :: 0 <= i < |floors| ==>
      UpdateFloors(floors, id, fp)[i] == if floors[i].id == id then MergeFloor(floors[i], fp) else floors[i]
    ensures forall i :: 0 <= i < |bays| ==>
      UpdateBays(bays, id, bp)[i] == if bays[i].id == id then MergeBay(bays[i], bp) else bays[i]
    ensures forall i :: 0 <= i < |spots| ==>
      UpdateSpots(spots, id, sp, now)[i] == if spots[i].id == id then UpdatedSpot(spots[i], sp, now) else spots[i]
    ensures forall i :: 0 <= i < |spots| && spots[i].id == id ==> UpdateSpots(spots, id, sp, now)[i].lastUpdated == now
    ensures !HasFloor(floors, id) ==> UpdateFloors(floors, id, fp) == floors
    ensures !HasBay(bays, id) ==> UpdateBays(bays, id, bp) == bays
    ensures !HasSpot(spots, id) ==> UpdateSpots(spots, id, sp, now) == spots
  {
    if !HasFloor(floors, id) {
      assert forall i :: 0 <= i < |floors| ==> floors[i] in floors;
    }
    if !HasBay(bays, id) {
      assert forall i :: 0 <= i < |bays| ==> bays[i] in bays;
    }
    if !HasSpot(spots, id) {
      assert forall i :: 0 <= i < |spots| ==> spots[i] in spots;
    }
  }

  /** `updateSpotStatus` changes that spot's status and timestamp and nothing else. */
  lemma UpdateSpotStatusAt(spots: seq<Spot>, id: string, status: SpotStatus, now: int)
    ensures |StatusUpdated(spots, id, status, now)| == |spots|
    ensures forall i :: 0 <= i < |spots| ==>
      StatusUpdated(spots, id, status, now)[i] ==
        if spots[i].id == id then spots[i].(status := status, lastUpdated := now) else spots[i]
  {
  }

  // ---------------------------------------------------------------------------------------
  // Deletes.

  function RemoveFloor(floors: seq<Floor>, id: string): seq<Floor> {
    Filter(floors, (f: Floor) => f.id != id)
  }

  function RemoveBay(bays: seq<Bay>, id: string): seq<Bay> {
    Filter(bays, (b: Bay) => b.id != id)
  }

  function RemoveSpot(spots: seq<Spot>, id: string): seq<Spot> {
    Filter(spots, (s: Spot) => s.id != id)
  }

  function BaysOnFloor(bays: seq<Bay>, floorId: string): seq<Bay> {
    Filter(bays, (b: Bay) => b.floorId == floorId)
  }

  function BaysOffFloor(bays: seq<Bay>, floorId: string): seq<Bay> {
    Filter(bays, (b: Bay) => b.floorId != floorId)
  }

  /** `bays.filter(bay => bay.floorId === id).map(bay => bay.id)`. */
  function BayIdsOnFloor(bays: seq<Bay>, floorId: string): (r: seq<string>)
    ensures forall x :: x in r <==> exists b :: b in bays && b.floorId == floorId && b.id == x
  {
    MapIn(BaysOnFloor(bays, floorId), BayIdOf);
    Map(BaysOnFloor(bays, floorId), BayIdOf)
  }

  function SpotsOutsideBays(spots: seq<Spot>, bayIds: seq<string>): seq<Spot> {
    Filter(spots, (s: Spot) => s.bayId !in bayIds)
  }

  function SpotsOutsideBay(spots: seq<Spot>, bayId: string): seq<Spot> {
    Filter(spots, (s: Spot) => s.bayId != bayId)
  }

  /** `floors.find(f => f.id === id)?.buildingId`. */
  function FloorBuilding(floors: seq<Floor>, id: string): Option<string> {
    match Find(floors, (f: Floor) => f.id == id)
    case Some(f) => Some(f.buildingId)
    case None => None
  }

  /** `bays.find(b => b.id === id)?.floorId`. */
  function BayFloor(bays: seq<Bay>, id: string): Option<string> {
    match Find(bays, (b: Bay) => b.id == id)
    case Some(b) => Some(b.floorId)
    case None => None
  }

  /** The id of the first bay on the floor, in list order. */
  function FirstBayOn(bays: seq<Bay>, floorId: string): Option<string> {
    var onFloor := BaysOnFloor(bays, floorId);
    if |onFloor| > 0 then Some(onFloor[0].id) else None
  }

  /** The whole layout state. */
  datatype Layout = Layout(
    floors: seq<Floor>,
    bays: seq<Bay>,
    spots: seq<Spot>,
    selectedFloorId: Option<string>,
    selectedBayId: Option<string>)

  /** The floor is another floor of the building of the floor with the id. */
  predicate IsSiblingFloor(f: Floor, floors: seq<Floor>, id: string) {
    Some(f.buildingId) == FloorBuilding(floors, id) && f.id != id
  }

  /** The bay is another bay on the floor of the bay with the id. */
  predicate IsSiblingBay(b: Bay, bays: seq<Bay>, id: string) {
    Some(b.floorId) == BayFloor(bays, id) && b.id != id
  }

  /** The other floors of the deleted floor's building, in list order. */
  function SiblingFloors(floors: seq<Floor>, id: string): seq<Floor> {
    Filter(floors, (f: Floor) => IsSiblingFloor(f, floors, id))
  }

  /** The other bays on the deleted bay's floor, in list order. */
  function SiblingBays(bays: seq<Bay>, id: string): seq<Bay> {
    Filter(bays, (b: Bay) => IsSiblingBay(b, bays, id))
  }

  /**
   * `deleteFloor(id)`: removes the floor, its bays and their spots; when the floor was
   * selected, selects the first other floor of its building and that floor's first bay.
   */
  function FloorDeleted(l: Layout, id: string): Layout {
    var bayIds := BayIdsOnFloor(l.bays, id);
    var remaining := SiblingFloors(l.floors, id);
    var selectedFloorId :=
      if l.selectedFloorId != Some(id) then l.selectedFloorId
      else if |remaining| > 0 then Some(remaining[0].id)
      else None;
    var selectedBayId :=
      if l.selectedFloorId != Some(id) then l.selectedBayId
      else if |remaining| > 0 then FirstBayOn(l.bays, remaining[0].id)
      else None;
    Layout(RemoveFloor(l.floors, id), BaysOffFloor(l.bays, id), SpotsOutsideBays(l.spots, bayIds),
      selectedFloorId, selectedBayId)
  }

  /**
   * `deleteBay(id)`: removes the bay and its spots; when the bay was selected, selects
   * the first other bay on its floor.
   */
  function BayDeleted(l: Layout, id: string): Layout {
    var remaining := SiblingBays(l.bays, id);
    var selectedBayId :=
      if l.selectedBayId != Some(id) then l.selectedBayId
      else if |remaining| > 0 then Some(remaining[0].id)
      else None;
    l.(bays := RemoveBay(l.bays, id), spots := SpotsOutsideBay(l.spots, id), selectedBayId := selectedBayId)
  }

  /** `deleteFloor` removes exactly the floor, the bays on it and the spots in those bays, keeping everything else in order. */
  lemma FloorDeletedRemovesExactly(l: Layout, id: string)
    ensures var r := FloorDeleted(l, id);
      && (forall f :: f in r.floors <==> f in l.floors && f.id != id)
      && (forall b :: b in r.bays <==> b in l.bays && b.floorId != id)
      && (forall s :: s in r.spots <==> s in l.spots && !exists b :: b in l.bays && b.floorId == id && b.id == s.bayId)
      && IsSubsequence(r.floors, l.floors) && IsSubsequence(r.bays, l.bays) && IsSubsequence(r.spots, l.spots)
  {
    FilterIsSubsequence(l.floors, (f: Floor) => f.id != id);
    FilterIsSubsequence(l.bays, (b: Bay) => b.floorId != id);
    FilterIsSubsequence(l.spots, (s: Spot) => s.bayId !in BayIdsOnFloor(l.bays, id));
  }

  /** `deleteBay` removes exactly the bay and its spots, keeping everything else in order. */
  lemma BayDeletedRemovesExactly(l: Layout, id: string)
    ensures var r := BayDeleted(l, id);
      && r.floors == l.floors && r.selectedFloorId == l.selectedFloorId
      && (forall b :: b in r.bays <==> b in l.bays && b.id != id)
      && (forall s :: s in r.spots <==> s in l.spots && s.bayId != id)
      && IsSubsequence(r.bays, l.bays) && IsSubsequence(r.spots, l.spots)
  {
    FilterIsSubsequence(l.bays, (b: Bay) => b.id != id);
    FilterIsSubsequence(l.spots, (s: Spot) => s.bayId != id);
  }

  /**
   * Deleting the selected floor selects another floor of the same building when there is
   * one, and then a bay on that floor when it has one; any other delete keeps the selection.
   */
  lemma FloorDeletedSelection(l: Layout, id: string)
    ensures var r := FloorDeleted(l, id);
      && (l.selectedFloorId != Some(id) ==> r.selectedFloorId == l.selectedFloorId && r.selectedBayId == l.selectedBayId)
      && (l.selectedFloorId == Some(id) ==>
            && (r.selectedFloorId.None? <==>
                  forall f :: f in l.floors ==> f.id == id || Some(f.buildingId) != FloorBuilding(l.floors, id))
            && (r.selectedFloorId.Some? ==>
                  exists f :: f in r.floors && f.id == r.selectedFloorId.value && Some(f.buildingId) == FloorBuilding(l.floors, id))
            && (r.selectedBayId.Some? ==>
                  r.selectedFloorId.Some? &&
                  exists b :: b in r.bays && b.id == r.selectedBayId.value && b.floorId == r.selectedFloorId.value)
            && (r.selectedFloorId.Some? && r.selectedBayId.None? ==>
                  forall b :: b in l.bays ==> b.floorId != r.selectedFloorId.value)
            && FirstInOrder(l, id, r))
  {
    var remaining := SiblingFloors(l.floors, id);
    if l.selectedFloorId == Some(id) {
      FloorDeletedPicksFirst(l, id);
    }
    if l.selectedFloorId == Some(id) && |remaining| > 0 {
      var f := remaining[0];
      assert f in remaining;
      var onFloor := BaysOnFloor(l.bays, f.id);
      if |onFloor| > 0 {
        assert onFloor[0] in onFloor;
      }
    }
  }

  /**
   * The floor selected in `r` after deleting floor `id` of `l` is the first sibling floor in list
   * order, and the bay selected is the first bay on that floor in list order.
   */
  ghost predicate FirstInOrder(l: Layout, id: string, r: Layout) {
    && (r.selectedFloorId.Some? ==>
          exists k :: 0 <= k < |l.floors| && l.floors[k].id == r.selectedFloorId.value
            && IsSiblingFloor(l.floors[k], l.floors, id)
            && forall j :: 0 <= j < k ==> !IsSiblingFloor(l.floors[j], l.floors, id))
    && (r.selectedBayId.Some? ==>
          r.selectedFloorId.Some? &&
          exists k :: 0 <= k < |l.bays| && l.bays[k].id == r.selectedBayId.value
            && l.bays[k].floorId == r.selectedFloorId.value
            && forall j :: 0 <= j < k ==> l.bays[j].floorId != r.selectedFloorId.value)
  }

  lemma FloorDeletedPicksFirst(l: Layout, id: string)
    requires l.selectedFloorId == Some(id)
    ensures FirstInOrder(l, id, FloorDeleted(l, id))
  {
    var remaining := SiblingFloors(l.floors, id);
    var r := FloorDeleted(l, id);
    if |remaining| > 0 {
      var f := remaining[0];
      assert r.selectedFloorId == Some(f.id) && r.selectedBayId == FirstBayOn(l.bays, f.id);
      FirstSibling(l.floors, id);
      var k :| 0 <= k < |l.floors| && l.floors[k] == f && forall j :: 0 <= j < k ==> !IsSiblingFloor(l.floors[j], l.floors, id);
      assert f in remaining;
      assert IsSiblingFloor(l.floors[k], l.floors, id);
      FirstOnFloor(l.bays, f.id);
    }
  }

  lemma FirstSibling(floors: seq<Floor>, id: string)
    ensures |SiblingFloors(floors, id)| > 0 ==>
      exists k :: 0 <= k < |floors| && floors[k] == SiblingFloors(floors, id)[0]
        && forall j :: 0 <= j < k ==> !IsSiblingFloor(floors[j], floors, id)
  {
    FilterHeadIndex(floors, (f: Floor) => IsSiblingFloor(f, floors, id));
  }

  lemma FirstOnFloor(bays: seq<Bay>, floorId: string)
    ensures FirstBayOn(bays, floorId).Some? ==>
      exists k :: 0 <= k < |bays| && bays[k].id == FirstBayOn(bays, floorId).value && bays[k].floorId == floorId
        && forall j :: 0 <= j < k ==> bays[j].floorId != floorId
  {
    var onFloor := BaysOnFloor(bays, floorId);
    FilterHeadIndex(bays, (b: Bay) => b.floorId == floorId);
    if |onFloor| > 0 {
      assert onFloor[0] in onFloor;
    }
  }

  /** Deleting the selected bay selects another bay on the same floor when there is one; any other delete keeps it. */
  lemma BayDeletedSelection(l: Layout, id: string)
    ensures var r := BayDeleted(l, id);
      && (l.selectedBayId != Some(id) ==> r.selectedBayId == l.selectedBayId)
      && (l.selectedBayId == Some(id) ==>
            && (r.selectedBayId.None? <==>
                  forall b :: b in l.bays ==> b.id == id || Some(b.floorId) != BayFloor(l.bays, id))
            && (r.selectedBayId.Some? ==>
                  exists b :: b in r.bays && b.id == r.selectedBayId.value && Some(b.floorId) == BayFloor(l.bays, id))
            && (r.selectedBayId.Some? ==>
                  exists k :: 0 <= k < |l.bays| && l.bays[k].id == r.selectedBayId.value
                    && IsSiblingBay(l.bays[k], l.bays, id)
                    && forall j :: 0 <= j < k ==> !IsSiblingBay(l.bays[j], l.bays, id)))
  {
    var remaining := SiblingBays(l.bays, id);
    FilterHeadIsFind(l.bays, (b: Bay) => IsSiblingBay(b, l.bays, id));
    if l.selectedBayId == Some(id) && |remaining| > 0 {
      assert remaining[0] in remaining;
    }
  }

  // ---------------------------------------------------------------------------------------
  // The layout invariant.

  /** Every bay's floor and every spot's bay exists. */
  ghost predicate RefsResolve(l: Layout) {
    && (forall b :: b in l.bays ==> HasFloor(l.floors, b.floorId))
    && (forall s :: s in l.spots ==> HasBay(l.bays, s.bayId))
  }

  /** The selected floor exists, and a selected bay exists and lies on the selected floor. */
  ghost predicate SelectionValid(l: Layout) {
    && (l.selectedFloorId.Some? ==> HasFloor(l.floors, l.selectedFloorId.value))
    && (l.selectedBayId.Some? ==>
          l.selectedFloorId.Some? &&
          exists b :: b in l.bays && b.id == l.selectedBayId.value && b.floorId == l.selectedFloorId.value)
  }

  ghost predicate UniqueIds(l: Layout) {
    UniqueBy(l.floors, FloorIdOf) && UniqueBy(l.bays, BayIdOf) && UniqueBy(l.spots, SpotIdOf)
  }

  ghost predicate LayoutValid(l: Layout) {
    RefsResolve(l) && SelectionValid(l) && UniqueIds(l)
  }

  lemma FloorDeletedKeepsValid(l: Layout, id: string)
    requires LayoutValid(l)
    ensures LayoutValid(FloorDeleted(l, id))
  {
    var r := FloorDeleted(l, id);
    FloorDeletedRemovesExactly(l, id);
    FloorDeletedSelection(l, id);
    forall b | b in r.bays ensures HasFloor(r.floors, b.floorId) {
      var f :| f in l.floors && f.id == b.floorId;
      assert f in r.floors;
    }
    forall s | s in r.spots ensures HasBay(r.bays, s.bayId) {
      var b :| b in l.bays && b.id == s.bayId;
      assert b in r.bays;
    }
    if l.selectedFloorId != Some(id) {
      if l.selectedFloorId.Some? {
        var f :| f in l.floors && f.id == l.selectedFloorId.value;
        assert f in r.floors;
      }
      if l.selectedBayId.Some? {
        var b :| b in l.bays && b.id == l.selectedBayId.value && b.floorId == l.selectedFloorId.value;
        assert b in r.bays;
      }
    }
    FilterUniqueBy(l.floors, (f: Floor) => f.id != id, FloorIdOf);
    FilterUniqueBy(l.bays, (b: Bay) => b.floorId != id, BayIdOf);
    FilterUniqueBy(l.spots, (s: Spot) => s.bayId !in BayIdsOnFloor(l.bays, id), SpotIdOf);
  }

  /** With unique bay ids, the bay `find` returns for an id is the only one with it. */
  lemma FindUniqueBay(bays: seq<Bay>, b: Bay)
    requires UniqueBy(bays, BayIdOf) && b in bays
    ensures BayFloor(bays, b.id) == Some(b.floorId)
  {
    var found := Find(bays, (x: Bay) => x.id == b.id);
    var i :| 0 <= i < |bays| && bays[i] == b;
    var k :| 0 <= k < |bays| && bays[k] == found.value && forall j :: 0 <= j < k ==> bays[j].id != b.id;
    assert BayIdOf(bays[k]) == BayIdOf(bays[i]);
  }

  lemma BayDeletedKeepsValid(l: Layout, id: string)
    requires LayoutValid(l)
    ensures LayoutValid(BayDeleted(l, id))
  {
    var r := BayDeleted(l, id);
    BayDeletedRemovesExactly(l, id);
    BayDeletedSelection(l, id);
    forall s | s in r.spots ensures HasBay(r.bays, s.bayId) {
      var b :| b in l.bays && b.id == s.bayId;
      assert b in r.bays;
    }
    if l.selectedBayId.Some? {
      var b :| b in l.bays && b.id == l.selectedBayId.value && b.floorId == l.selectedFloorId.value;
      if l.selectedBayId == Some(id) {
        FindUniqueBay(l.bays, b);
      } else {
        assert b in r.bays;
      }
    }
    FilterUniqueBy(l.bays, (b: Bay) => b.id != id, BayIdOf);
    FilterUniqueBy(l.spots, (s: Spot) => s.bayId != id, SpotIdOf);
  }

  lemma SpotDeletedKeepsValid(l: Layout, id: string)
    requires LayoutValid(l)
    ensures LayoutValid(l.(spots := RemoveSpot(l.spots, id)))
    ensures forall s :: s in RemoveSpot(l.spots, id) <==> s in l.spots && s.id != id
    ensures IsSubsequence(RemoveSpot(l.spots, id), l.spots)
  {
    FilterUniqueBy(l.spots, (s: Spot) => s.id != id, SpotIdOf);
    FilterIsSubsequence(l.spots, (s: Spot) => s.id != id);
  }

  /** Adding keeps the invariant when the new id is unused and, for bays and spots, the parent exists. */
  lemma AddsKeepValid(l: Layout, fi: FloorInput, bi: BayInput, si: SpotInput, now: int)
    requires LayoutValid(l)
    ensures !HasFloor(l.floors, NewFloor(fi, now).id) ==> LayoutValid(l.(floors := l.floors + [NewFloor(fi, now)]))
    ensures !HasBay(l.bays, NewBay(bi, now).id) && HasFloor(l.floors, bi.floorId) ==>
      LayoutValid(l.(bays := l.bays + [NewBay(bi, now)]))
    ensures !HasSpot(l.spots, NewSpot(si, now).id) && HasBay(l.bays, si.bayId) ==>
      LayoutValid(l.(spots := l.spots + [NewSpot(si, now)]))
  {
    var f := NewFloor(fi, now);
    if !HasFloor(l.floors, f.id) {
      UniqueByAppend(l.floors, f, FloorIdOf);
      var r := l.(floors := l.floors + [f]);
      forall b | b in r.bays ensures HasFloor(r.floors, b.floorId) {
        var g :| g in l.floors && g.id == b.floorId;
        assert g in r.floors;
      }
      if l.selectedFloorId.Some? {
        var g :| g in l.floors && g.id == l.selectedFloorId.value;
        assert g in r.floors;
      }
    }
    var b := NewBay(bi, now);
    if !HasBay(l.bays, b.id) && HasFloor(l.floors, bi.floorId) {
      UniqueByAppend(l.bays, b, BayIdOf);
      var r := l.(bays := l.bays + [b]);
      forall s | s in r.spots ensures HasBay(r.bays, s.bayId) {
        var c :| c in l.bays && c.id == s.bayId;
        assert c in r.bays;
      }
      if l.selectedBayId.Some? {
        var c :| c in l.bays && c.id == l.selectedBayId.value && c.floorId == l.selectedFloorId.value;
        assert c in r.bays;
      }
    }
    var s := NewSpot(si, now);
    if !HasSpot(l.spots, s.id) && HasBay(l.bays, si.bayId) {
      UniqueByAppend(l.spots, s, SpotIdOf);
    }
  }

  lemma UpdateFloorKeepsValid(l: Layout, id: string, p: FloorPatch)
    requires LayoutValid(l) && KeepsId(p.id, id)
    ensures LayoutValid(l.(floors := UpdateFloors(l.floors, id, p)))
  {
    var floors := UpdateFloors(l.floors, id, p);
    forall i, j | 0 <= i < j < |floors| ensures FloorIdOf(floors[i]) != FloorIdOf(floors[j]) {
      assert floors[i].id == l.floors[i].id && floors[j].id == l.floors[j].id;
    }
    forall x | HasFloor(l.floors, x) ensures HasFloor(floors, x) {
      var f :| f in l.floors && f.id == x;
      var k :| 0 <= k < |l.floors| && l.floors[k] == f;
      assert floors[k] in floors && floors[k].id == x;
    }
  }

  lemma UpdateBayKeepsValid(l: Layout, id: string, p: BayPatch)
    requires LayoutValid(l) && KeepsId(p.id, id)
    requires p.floorId.Some? ==> HasFloor(l.floors, p.floorId.value) && l.selectedBayId != Some(id)
    ensures LayoutValid(l.(bays := UpdateBays(l.bays, id, p)))
  {
    var bays := UpdateBays(l.bays, id, p);
    forall i, j | 0 <= i < j < |bays| ensures BayIdOf(bays[i]) != BayIdOf(bays[j]) {
      assert bays[i].id == l.bays[i].id && bays[j].id == l.bays[j].id;
    }
    forall b | b in bays ensures HasFloor(l.floors, b.floorId) {
      var k :| 0 <= k < |bays| && bays[k] == b;
      assert l.bays[k] in l.bays;
    }
    forall s | s in l.spots ensures HasBay(bays, s.bayId) {
      var c :| c in l.bays && c.id == s.bayId;
      var k :| 0 <= k < |l.bays| && l.bays[k] == c;
      assert bays[k] in bays && bays[k].id == s.bayId;
    }
    if l.selectedBayId.Some? {
      var c :| c in l.bays && c.id == l.selectedBayId.value && c.floorId == l.selectedFloorId.value;
      var k :| 0 <= k < |l.bays| && l.bays[k] == c;
      assert bays[k] in bays;
    }
  }

  lemma UpdateSpotKeepsValid(l: Layout, id: string, p: SpotPatch, now: int)
    requires LayoutValid(l) && KeepsId(p.id, id)
    requires p.bayId.Some? ==> HasBay(l.bays, p.bayId.value)
    ensures LayoutValid(l.(spots := UpdateSpots(l.spots, id, p, now)))
  {
    var spots := UpdateSpots(l.spots, id, p, now);
    forall i, j | 0 <= i < j < |spots| ensures SpotIdOf(spots[i]) != SpotIdOf(spots[j]) {
      assert spots[i].id == l.spots[i].id && spots[j].id == l.spots[j].id;
    }
    forall s | s in spots ensures HasBay(l.bays, s.bayId) {
      var k :| 0 <= k < |spots| && spots[k] == s;
      assert l.spots[k] in l.spots;
    }
  }

  // ---------------------------------------------------------------------------------------
  // Queries: filter, then sort ascending by number.

  function FloorsByBuilding(floors: seq<Floor>, buildingId: string): seq<Floor> {
    SortBy(Filter(floors, (f: Floor) => f.buildingId == buildingId), FloorNumberOf)
  }

  function BaysByFloor(bays: seq<Bay>, floorId: string): seq<Bay> {
    SortBy(BaysOnFloor(bays, floorId), BayNumberOf)
  }

  function SpotsByBay(spots: seq<Spot>, bayId: string): seq<Spot> {
    SortBy(Filter(spots, (s: Spot) => s.bayId == bayId), SpotNumberOf)
  }

  /** Each query returns a permutation of exactly the matching elements, sorted ascending by number. */
  lemma QueriesSpec(floors: seq<Floor>, bays: seq<Bay>, spots: seq<Spot>, id: string)
    ensures SortedBy(FloorsByBuilding(floors, id), FloorNumberOf)
    ensures forall f :: multiset(FloorsByBuilding(floors, id))[f] == if f.buildingId == id then multiset(floors)[f] else 0
    ensures SortedBy(BaysByFloor(bays, id), BayNumberOf)
    ensures forall b :: multiset(BaysByFloor(bays, id))[b] == if b.floorId == id then multiset(bays)[b] else 0
    ensures SortedBy(SpotsByBay(spots, id), SpotNumberOf)
    ensures forall s :: multiset(SpotsByBay(spots, id))[s] == if s.bayId == id then multiset(spots)[s] else 0
  {
  }

  // ---------------------------------------------------------------------------------------
  // The fixed initial layout.

  const SampleFloors := [
    Floor("f1", "1", 1, Some("Ground Floor")),
    Floor("f2", "1", 2, None),
    Floor("f3", "1", 3, None),
    Floor("f4", "2", 1, Some("Entry Level")),
    Floor("f5", "2", 2, None),
    Floor("f6", "3", 1, None)
  ]

  const SampleBays := [
    Bay("b1", "f1", 1, Some("Section A")),
    Bay("b2", "f1", 2, Some("Section B")),
    Bay("b3", "f2", 1, None),
    Bay("b4", "f2", 2, None),
    Bay("b5", "f3", 1, None),
    Bay("b6", "f4", 1, None),
    Bay("b7", "f5", 1, None),
    Bay("b8", "f6", 1, None)
  ]

  /**
   * One spot per bay with the id scheme `spot_<bay>_<n>`, stamped with the start time; the
   * spots of the two sample cars that are parked are occupied.
   */
  function SampleSpots(now: int): seq<Spot> {
    [
      Spot("spot_b1_1", "b1", 1, Standard, Occupied, [], now),
      Spot("spot_b2_2", "b2", 2, Compact, Occupied, ["ev_charging"], now),
      Spot("spot_b3_1", "b3", 1, Oversized, Reserved, ["handicap"], now),
      Spot("spot_b4_1", "b4", 1, Standard, Maintenance, ["premium"], now),
      Spot("spot_b5_1", "b5", 1, Compact, Available, ["ev_charging", "premium"], now),
      Spot("spot_b6_1", "b6", 1, Oversized, Available, ["handicap", "premium"], now),
      Spot("spot_b7_1", "b7", 1, Standard, Occupied, [], now),
      Spot("spot_b8_1", "b8", 1, Standard, Available, [], now)
    ]
  }

  lemma SampleLayoutValid(now: int)
    ensures LayoutValid(Layout(SampleFloors, SampleBays, SampleSpots(now), None, None))
  {
    SampleRefsResolve(now);
    SampleIdsUnique(now);
  }

  lemma SampleRefsResolve(now: int)
    ensures RefsResolve(Layout(SampleFloors, SampleBays, SampleSpots(now), None, None))
  {
    SampleBaysResolve();
    SampleSpotsResolve(now);
  }

  lemma SampleBaysResolve()
    ensures forall b | b in SampleBays :: HasFloor(SampleFloors, b.floorId)
  {
    forall x | x in SampleFloorIds ensures HasFloor(SampleFloors, x) {
      var k :| 0 <= k < |SampleFloorIds| && SampleFloorIds[k] == x;
      assert SampleFloors[k] in SampleFloors && SampleFloors[k].id == x;
    }
    SampleParents(0);
  }

  lemma SampleSpotsResolve(now: int)
    ensures forall s | s in SampleSpots(now) :: HasBay(SampleBays, s.bayId)
  {
    forall x | x in SampleBayIds ensures HasBay(SampleBays, x) {
      var k :| 0 <= k < |SampleBayIds| && SampleBayIds[k] == x;
      assert SampleBays[k] in SampleBays && SampleBays[k].id == x;
    }
    SampleParents(now);
  }

  const SampleFloorIds := ["f1", "f2", "f3", "f4", "f5", "f6"]
  const SampleBayIds := ["b1", "b2", "b3", "b4", "b5", "b6", "b7", "b8"]

  lemma SampleParents(now: int)
    ensures forall b | b in SampleBays :: b.floorId in SampleFloorIds
    ensures forall s | s in SampleSpots(now) :: s.bayId in SampleBayIds
  {
  }

  lemma SampleIdsUnique(now: int)
    ensures UniqueBy(SampleFloors, FloorIdOf) && UniqueBy(SampleBays, BayIdOf) && UniqueBy(SampleSpots(now), SpotIdOf)
  {
    var spots := SampleSpots(now);
    forall i, j | 0 <= i < j < |spots| ensures SpotIdOf(spots[i]) != SpotIdOf(spots[j]) {
      assert spots[i].id[6] != spots[j].id[6];
    }
  }

  class LayoutRegistry {
    var floors: seq<Floor>
    var bays: seq<Bay>
    var spots: seq<Spot>
    var selectedFloorId: Option<string>
    var selectedBayId: Option<string>

    function State(): Layout
      reads this
    {
      Layout(floors, bays, spots, selectedFloorId, selectedBayId)
    }

    ghost predicate Valid()
      reads this
    {
      LayoutValid(State())
    }

    /** The sample floors and bays, one spot per bay stamped `now`, and no selection. */
    constructor (now: int)
      ensures State() == Layout(SampleFloors, SampleBays, SampleSpots(now), None, None)
      ensures Valid()
    {
      floors := SampleFloors;
      bays := SampleBays;
      spots := SampleSpots(now);
      selectedFloorId := None;
      selectedBayId := None;
      SampleLayoutValid(now);
    }

    method SetSelectedFloorId(id: Option<string>)
      modifies this`selectedFloorId
      ensures selectedFloorId == id
    {
      selectedFloorId := id;
    }

    method SetSelectedBayId(id: Option<string>)
      modifies this`selectedBayId
      ensures selectedBayId == id
    {
      selectedBayId := id;
    }

    method AddFloor(input: FloorInput, now: int) returns (floor: Floor)
      modifies this`floors
      ensures floor == NewFloor(input, now)
      ensures floors == old(floors) + [floor]
      ensures old(Valid()) && !HasFloor(old(floors), floor.id) ==> Valid()
    {
      floor := NewFloor(input, now);
      if Valid() {
        AddsKeepValid(State(), input, BayInput([], 0, None), SpotInput([], 0, Standard, Available, []), now);
      }
      floors := floors + [floor];
    }

    method UpdateFloor(id: string, patch: FloorPatch)
      modifies this`floors
      ensures floors == UpdateFloors(old(floors), id, patch)
      ensures old(Valid()) && KeepsId(patch.id, id) ==> Valid()
    {
      if Valid() && KeepsId(patch.id, id) {
        UpdateFloorKeepsValid(State(), id, patch);
      }
      floors := UpdateFloors(floors, id, patch);
    }

    method DeleteFloor(id: string)
      modifies this`floors, this`bays, this`spots, this`selectedFloorId, this`selectedBayId
      ensures State() == FloorDeleted(old(State()), id)
      ensures old(Valid()) ==> Valid()
    {
      var after := FloorDeleted(State(), id);
      if Valid() {
        FloorDeletedKeepsValid(State(), id);
      }
      floors, bays, spots := after.floors, after.bays, after.spots;
      selectedFloorId, selectedBayId := after.selectedFloorId, after.selectedBayId;
    }

    method AddBay(input: BayInput, now: int) returns (bay: Bay)
      modifies this`bays
      ensures bay == NewBay(input, now)
      ensures bays == old(bays) + [bay]
      ensures old(Valid()) && !HasBay(old(bays), bay.id) && HasFloor(floors, input.floorId) ==> Valid()
    {
      bay := NewBay(input, now);
      if Valid() {
        AddsKeepValid(State(), FloorInput([], 0, None), input, SpotInput([], 0, Standard, Available, []), now);
      }
      bays := bays + [bay];
    }

    method UpdateBay(id: string, patch: BayPatch)
      modifies this`bays
      ensures bays == UpdateBays(old(bays), id, patch)
      ensures (old(Valid()) && KeepsId(patch.id, id) &&
        (patch.floorId.Some? ==> HasFloor(floors, patch.floorId.value) && selectedBayId != Some(id))) ==> Valid()
    {
      if Valid() && KeepsId(patch.id, id) &&
        (patch.floorId.Some? ==> HasFloor(floors, patch.floorId.value) && selectedBayId != Some(id))
      {
        UpdateBayKeepsValid(State(), id, patch);
      }
      bays := UpdateBays(bays, id, patch);
    }

    method DeleteBay(id: string)
      modifies this`bays, this`spots, this`selectedBayId
      ensures State() == BayDeleted(old(State()), id)
      ensures old(Valid()) ==> Valid()
    {
      if Valid() {
        BayDeletedKeepsValid(State(), id);
      }
      var remaining := SiblingBays(bays, id);
      spots := SpotsOutsideBay(spots, id);
      bays := RemoveBay(bays, id);
      if selectedBayId == Some(id) {
        selectedBayId := if |remaining| > 0 then Some(remaining[0].id) else None;
      }
    }

    method AddSpot(input: SpotInput, now: int) returns (spot: Spot)
      modifies this`spots
      ensures spot == NewSpot(input, now)
      ensures spots == old(spots) + [spot]
      ensures old(Valid()) && !HasSpot(old(spots), spot.id) && HasBay(bays, input.bayId) ==> Valid()
    {
      spot := NewSpot(input, now);
      if Valid() {
        AddsKeepValid(State(), FloorInput([], 0, None), BayInput([], 0, None), input, now);
      }
      spots := spots + [spot];
    }

    method UpdateSpot(id: string, patch: SpotPatch, now: int)
      modifies this`spots
      ensures spots == UpdateSpots(old(spots), id, patch, now)
      ensures old(Valid()) && KeepsId(patch.id, id) && (patch.bayId.Some? ==> HasBay(bays, patch.bayId.value)) ==> Valid()
    {
      if Valid() && KeepsId(patch.id, id) && (patch.bayId.Some? ==> HasBay(bays, patch.bayId.value)) {
        UpdateSpotKeepsValid(State(), id, patch, now);
      }
      spots := UpdateSpots(spots, id, patch, now);
    }

    method DeleteSpot(id: string)
      modifies this`spots
      ensures spots == RemoveSpot(old(spots), id)
      ensures old(Valid()) ==> Valid()
    {
      if Valid() {
        SpotDeletedKeepsValid(State(), id);
      }
      spots := RemoveSpot(spots, id);
    }

    method UpdateSpotStatus(id: string, status: SpotStatus, now: int)
      modifies this`spots
      ensures spots == StatusUpdated(old(spots), id, status, now)
      ensures old(Valid()) ==> Valid()
    {
      UpdateSpot(id, StatusPatch(status), now);
    }
  }
}
