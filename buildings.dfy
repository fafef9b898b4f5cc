/**
 * The building registry: the list of buildings and the currently selected building,
 * changed by add, update (a field merge) and delete, each of which repairs the selection.
 */
module Buildings {
  import opened Wrappers
  import opened Seqs
  import opened Text

  datatype Building = Building(
    id: string,
    name: string,
    address: string,
    description: Option<string>,
    floorCount: int,
    totalSpots: int,
    occupiedSpots: int)

  /** What a new building is created from: a building without its id and counters. */
  datatype BuildingInput = BuildingInput(name: string, address: string, description: Option<string>)

  /**
   * A `Partial<Building>`: every present field replaces the building's own. A present
   * `description` of `None` clears the description, as an explicit `undefined` does.
   */
  datatype BuildingPatch = BuildingPatch(
    id: Option<string>,
    name: Option<string>,
    address: Option<string>,
    description: Option<Option<string>>,
    floorCount: Option<int>,
    totalSpots: Option<int>,
    occupiedSpots: Option<int>)

  const NoChanges := BuildingPatch(None, None, None, None, None, None, None)

  /** The patch the vehicle service sends to set a building's occupancy counter. */
  function OccupancyPatch(count: int): BuildingPatch {
    NoChanges.(occupiedSpots := Some(count))
  }

  /** `{ ...b, ...patch }`. */
  function Merge(b: Building, patch: BuildingPatch): Building {
    Building(
      patch.id.GetOr(b.id),
      patch.name.GetOr(b.name),
      patch.address.GetOr(b.address),
      patch.description.GetOr(b.description),
      patch.floorCount.GetOr(b.floorCount),
      patch.totalSpots.GetOr(b.totalSpots),
      patch.occupiedSpots.GetOr(b.occupiedSpots))
  }

  /** Merging keeps every field the patch leaves out, and applying a patch twice changes nothing more. */
  lemma MergeProperties(b: Building, patch: BuildingPatch)
    ensures Merge(b, NoChanges) == b
    ensures Merge(Merge(b, patch), patch) == Merge(b, patch)
    ensures Merge(b, OccupancyPatch(b.occupiedSpots)) == b
    ensures forall n: int :: Merge(b, OccupancyPatch(n)) == b.(occupiedSpots := n)
  {
  }

  /**
   * The building `addBuilding` creates at time `now` (milliseconds): the input's fields,
   * the printed time as its id, and zero counters.
   */
  function NewBuilding(input: BuildingInput, now: int): Building {
    Building(IntToDecimal(now), input.name, input.address, input.description, 0, 0, 0)
  }

  /** A new building has the input's fields and zero counters, and buildings created at different times get different ids. */
  lemma NewBuildingSpec(input: BuildingInput, now: int, later: int)
    ensures var b := NewBuilding(input, now);
      && b.name == input.name && b.address == input.address && b.description == input.description
      && b.floorCount == 0 && b.totalSpots == 0 && b.occupiedSpots == 0
    ensures now != later ==> NewBuilding(input, now).id != NewBuilding(input, later).id
  {
    IntToDecimalInjective(now, later);
  }

  /** `addBuilding` selects the new building only when nothing is selected. */
  function SelectionAfterAdd(selected: Option<Building>, added: Building): Option<Building> {
    if selected.None? then Some(added) else selected
  }

  /** `buildings.map(b => b.id === id ? { ...b, ...patch } : b)`. */
  function UpdateBuildings(buildings: seq<Building>, id: string, patch: BuildingPatch): seq<Building> {
    Map(buildings, (b: Building) => if b.id == id then Merge(b, patch) else b)
  }

  /** Updating merges into every building with the id, keeps the others and keeps the order. */
  lemma UpdateBuildingsAt(buildings: seq<Building>, id: string, patch: BuildingPatch)
    ensures |UpdateBuildings(buildings, id, patch)| == |buildings|
    ensures forall i :: 0 <= i < |buildings| && buildings[i].id == id ==>
      UpdateBuildings(buildings, id, patch)[i] == Merge(buildings[i], patch)
    ensures forall i :: 0 <= i < |buildings| && buildings[i].id != id ==>
      UpdateBuildings(buildings, id, patch)[i] == buildings[i]
    ensures (forall b :: b in buildings ==> b.id != id) ==> UpdateBuildings(buildings, id, patch) == buildings
  {
  }

  /** The selection follows an update of the selected building's id; otherwise it is untouched. */
  function SelectionAfterUpdate(selected: Option<Building>, id: string, patch: BuildingPatch): Option<Building> {
    if selected.Some? && selected.value.id == id then Some(Merge(selected.value, patch)) else selected
  }

  /** `buildings.filter(b => b.id !== id)`. */
  function RemoveBuilding(buildings: seq<Building>, id: string): seq<Building> {
    Filter(buildings, (b: Building) => b.id != id)
  }

  /** Deleting removes exactly the buildings with the id and keeps the survivors in order. */
  lemma RemoveBuildingSpec(buildings: seq<Building>, id: string)
    ensures forall b :: b in RemoveBuilding(buildings, id) <==> b in buildings && b.id != id
    ensures IsSubsequence(RemoveBuilding(buildings, id), buildings)
    ensures (forall b :: b in buildings ==> b.id != id) ==> RemoveBuilding(buildings, id) == buildings
  {
    FilterIsSubsequence(buildings, (b: Building) => b.id != id);
    if forall b :: b in buildings ==> b.id != id {
      FilterKeepsAll(buildings, (b: Building) => b.id != id);
    }
  }

  /**
   * Deleting the selected building selects the first survivor, or nothing when none is left;
   * deleting any other building leaves the selection alone.
   */
  function SelectionAfterDelete(selected: Option<Building>, buildings: seq<Building>, id: string): Option<Building> {
    if selected.Some? && selected.value.id == id then
      var rest := RemoveBuilding(buildings, id);
      if |rest| > 0 then Some(rest[0]) else None
    else selected
  }

  /** The registry's invariant: something is selected exactly when there are buildings, and it is one of them. */
  ghost predicate SelectionValid(buildings: seq<Building>, selected: Option<Building>) {
    && (selected.None? <==> buildings == [])
    && (selected.Some? ==> selected.value in buildings)
  }

  function IdOf(b: Building): string {
    b.id
  }

  /** No two buildings share an id. */
  ghost predicate UniqueIds(buildings: seq<Building>) {
    UniqueBy(buildings, IdOf)
  }

  /** Ids stay unique under an add with an unused id, an update that leaves ids alone, and a delete. */
  lemma AddKeepsUniqueIds(buildings: seq<Building>, added: Building)
    requires UniqueIds(buildings)
    requires forall b :: b in buildings ==> b.id != added.id
    ensures UniqueIds(buildings + [added])
  {
    UniqueByAppend(buildings, added, IdOf);
  }

  lemma UpdateKeepsUniqueIds(buildings: seq<Building>, id: string, patch: BuildingPatch)
    requires UniqueIds(buildings)
    requires patch.id.None? || patch.id == Some(id)
    ensures UniqueIds(UpdateBuildings(buildings, id, patch))
  {
    var updated := UpdateBuildings(buildings, id, patch);
    forall i, j | 0 <= i < j < |updated| ensures IdOf(updated[i]) != IdOf(updated[j]) {
      assert updated[i].id == buildings[i].id && updated[j].id == buildings[j].id;
    }
  }

  lemma DeleteKeepsUniqueIds(buildings: seq<Building>, id: string)
    requires UniqueIds(buildings)
    ensures UniqueIds(RemoveBuilding(buildings, id))
  {
    FilterUniqueBy(buildings, (b: Building) => b.id != id, IdOf);
  }

  lemma AddKeepsSelectionValid(buildings: seq<Building>, selected: Option<Building>, added: Building)
    requires SelectionValid(buildings, selected)
    ensures SelectionValid(buildings + [added], SelectionAfterAdd(selected, added))
  {
  }

  lemma {:induction false} UpdateKeepsSelectionValid(buildings: seq<Building>, selected: Option<Building>, id: string, patch: BuildingPatch)
    requires SelectionValid(buildings, selected)
    ensures SelectionValid(UpdateBuildings(buildings, id, patch), SelectionAfterUpdate(selected, id, patch))
  {
    var updated := UpdateBuildings(buildings, id, patch);
    if selected.Some? {
      var k :| 0 <= k < |buildings| && buildings[k] == selected.value;
      assert updated[k] == SelectionAfterUpdate(selected, id, patch).value;
    }
  }

  lemma DeleteKeepsSelectionValid(buildings: seq<Building>, selected: Option<Building>, id: string)
    requires SelectionValid(buildings, selected)
    ensures SelectionValid(RemoveBuilding(buildings, id), SelectionAfterDelete(selected, buildings, id))
    ensures selected.Some? && selected.value.id == id ==>
      var r := SelectionAfterDelete(selected, buildings, id);
      && (r.None? <==> forall b :: b in buildings ==> b.id == id)
      && (r.Some? ==> exists k :: 0 <= k < |buildings| && buildings[k] == r.value && buildings[k].id != id
                        && forall j :: 0 <= j < k ==> buildings[j].id == id)
    ensures (selected.None? || selected.value.id != id) ==> SelectionAfterDelete(selected, buildings, id) == selected
  {
    var rest := RemoveBuilding(buildings, id);
    FilterHeadIsFind(buildings, (b: Building) => b.id != id);
    if |rest| > 0 {
      assert rest[0] in rest;
    }
  }

  const SampleBuildings := [
    Building("1", "Main Garage", "123 Main Street, New York, NY 10001",
      Some("Main parking facility with 5 floors"), 5, 250, 168),
    Building("2", "West End Facility", "456 West Avenue, New York, NY 10002",
      Some("Secondary parking garage near downtown"), 3, 120, 76),
    Building("3", "East Side Parking", "789 East Boulevard, New York, NY 10003", None, 4, 180, 95)
  ]

  class BuildingRegistry {
    var buildings: seq<Building>
    var selected: Option<Building>

    ghost predicate Valid()
      reads this
    {
      SelectionValid(buildings, selected) && UniqueIds(buildings)
    }

    /** The registry starts with the three sample buildings, the first one selected. */
    constructor ()
      ensures buildings == SampleBuildings && selected == Some(SampleBuildings[0])
      ensures Valid()
    {
      buildings := SampleBuildings;
      selected := Some(SampleBuildings[0]);
    }

    method SetSelectedBuilding(b: Building)
      modifies this`selected
      ensures selected == Some(b)
      ensures old(Valid()) && b in buildings ==> Valid()
    {
      selected := Some(b);
    }

    method AddBuilding(input: BuildingInput, now: int)
      modifies this`buildings, this`selected
      ensures buildings == old(buildings) + [NewBuilding(input, now)]
      ensures selected == SelectionAfterAdd(old(selected), NewBuilding(input, now))
      ensures old(Valid()) && (forall b :: b in old(buildings) ==> b.id != NewBuilding(input, now).id) ==> Valid()
    {
      var added := NewBuilding(input, now);
      if old(Valid()) {
        AddKeepsSelectionValid(buildings, selected, added);
        if forall b :: b in buildings ==> b.id != added.id {
          AddKeepsUniqueIds(buildings, added);
        }
      }
      buildings := buildings + [added];
      if selected.None? {
        selected := Some(added);
      }
    }

    method UpdateBuilding(id: string, patch: BuildingPatch)
      modifies this`buildings, this`selected
      ensures buildings == UpdateBuildings(old(buildings), id, patch)
      ensures selected == SelectionAfterUpdate(old(selected), id, patch)
      ensures old(Valid()) && (patch.id.None? || patch.id == Some(id)) ==> Valid()
    {
      if old(Valid()) {
        UpdateKeepsSelectionValid(buildings, selected, id, patch);
        if patch.id.None? || patch.id == Some(id) {
          UpdateKeepsUniqueIds(buildings, id, patch);
        }
      }
      buildings := UpdateBuildings(buildings, id, patch);
      if selected.Some? && selected.value.id == id {
        selected := Some(Merge(selected.value, patch));
      }
    }

    /** Deletes the building only: floors, bays and spots of the building stay where they are. */
    method DeleteBuilding(id: string)
      modifies this`buildings, this`selected
      ensures buildings == RemoveBuilding(old(buildings), id)
      ensures selected == SelectionAfterDelete(old(selected), old(buildings), id)
      ensures old(Valid()) ==> Valid()
    {
      if old(Valid()) {
        DeleteKeepsSelectionValid(buildings, selected, id);
        DeleteKeepsUniqueIds(buildings, id);
      }
      var rest := RemoveBuilding(buildings, id);
      if selected.Some? && selected.value.id == id {
        selected := if |rest| > 0 then Some(rest[0]) else None;
      }
      buildings := rest;
    }
  }
}
