/**
 * The vehicle service: cars and parking records. Check-in normalises the plate, refuses a
 * plate that is already parked, takes the first available spot of the building, records
 * the car and its session and marks the spot occupied; check-out closes the session with
 * a fee and frees the spot. Both adjust the building's occupancy counter when the building
 * is the selected one. Times are milliseconds.
 */
module CarManagement {
  import opened Wrappers
  import opened Seqs
  import opened Text
  import opened Buildings
  import opened Layout

  /** A car; `spotId` and `checkOutTime` are `None` for `null`. */
  datatype Car = Car(
    id: string,
    licensePlate: string,
    buildingId: string,
    spotId: Option<string>,
    checkInTime: int,
    checkOutTime: Option<int>)

  /** A parking session; `fee` is `None` until the session is closed. */
  datatype ParkingRecord = ParkingRecord(
    id: string,
    carId: string,
    licensePlate: string,
    buildingId: string,
    spotId: string,
    checkInTime: int,
    checkOutTime: Option<int>,
    fee: Option<int>)

  function CarIdOf(c: Car): string { c.id }

  /** `licensePlate.toUpperCase().trim()`. */
  function NormalizePlate(plate: string): string {
    Trim(ToUpper(plate))
  }

  /** Normalising twice changes nothing more, and the result has no surrounding whitespace and no lower-case letter. */
  lemma NormalizePlateSpec(plate: string)
    ensures var n := NormalizePlate(plate); n == [] || (!IsWhitespace(n[0]) && !IsWhitespace(n[|n| - 1]))
    ensures forall c :: c in NormalizePlate(plate) ==> !('a' <= c <= 'z')
    ensures NormalizePlate(NormalizePlate(plate)) == NormalizePlate(plate)
  {
    var n := NormalizePlate(plate);
    NormalizedIsUpper(plate);
    ToUpperFixed(n);
    TrimSpec(ToUpper(plate));
    assert NormalizePlate(n) == Trim(n);
  }

  lemma NormalizedIsUpper(plate: string)
    ensures forall c :: c in NormalizePlate(plate) ==> !('a' <= c <= 'z')
  {
    ToUpperHasNoLower(plate);
    TrimKeepsChars(ToUpper(plate));
  }

  /** An active car with the plate: `car.licensePlate === plate && car.checkOutTime === null`. */
  predicate IsActiveWithPlate(c: Car, plate: string) {
    c.licensePlate == plate && c.checkOutTime.None?
  }

  function ActiveCarIndex(cars: seq<Car>, plate: string): Option<nat> {
    FindIndex(cars, (c: Car) => IsActiveWithPlate(c, plate))
  }

  /** The car's open record: `record.carId === car.id && record.checkOutTime === null`. */
  function OpenRecordIndex(records: seq<ParkingRecord>, carId: string): Option<nat> {
    FindIndex(records, (r: ParkingRecord) => r.carId == carId && r.checkOutTime.None?)
  }

  // ---------------------------------------------------------------------------------------
  // Choosing a spot.

  /** The building of the spot's bay's floor, each found with `find`; `None` when a link is missing. */
  function SpotBuilding(s: Spot, floors: seq<Floor>, bays: seq<Bay>): Option<string> {
    match Find(bays, (b: Bay) => b.id == s.bayId)
    case None => None
    case Some(bay) => FloorBuilding(floors, bay.floorId)
  }

  predicate SpotQualifies(s: Spot, floors: seq<Floor>, bays: seq<Bay>, buildingId: string) {
    s.status == Available && StartsWith(s.bayId, "b") && SpotBuilding(s, floors, bays) == Some(buildingId)
  }

  /** `getAvailableSpot`: the first qualifying spot of the filtered list. */
  function AvailableSpot(spots: seq<Spot>, floors: seq<Floor>, bays: seq<Bay>, buildingId: string): Option<Spot> {
    var available := Filter(spots, (s: Spot) => SpotQualifies(s, floors, bays, buildingId));
    if |available| > 0 then Some(available[0]) else None
  }

  /** The chosen spot is the first spot in list order that is available, in a 'b' bay and in the building. */
  lemma AvailableSpotSpec(spots: seq<Spot>, floors: seq<Floor>, bays: seq<Bay>, buildingId: string)
    ensures AvailableSpot(spots, floors, bays, buildingId).None? <==>
      forall s :: s in spots ==> !SpotQualifies(s, floors, bays, buildingId)
    ensures AvailableSpot(spots, floors, bays, buildingId).Some? ==>
      var s := AvailableSpot(spots, floors, bays, buildingId).value;
      && s.status == Available && |s.bayId| > 0 && s.bayId[0] == 'b'
      && SpotBuilding(s, floors, bays) == Some(buildingId)
      && exists k :: 0 <= k < |spots| && spots[k] == s && forall j :: 0 <= j < k ==> !SpotQualifies(spots[j], floors, bays, buildingId)
  {
    FilterHeadIsFind(spots, (s: Spot) => SpotQualifies(s, floors, bays, buildingId));
  }

  /** With unique ids, a spot's building is that of the one floor holding its one bay. */
  lemma SpotBuildingUnique(s: Spot, floors: seq<Floor>, bays: seq<Bay>, bay: Bay, floor: Floor)
    requires UniqueBy(bays, BayIdOf) && UniqueBy(floors, FloorIdOf)
    requires bay in bays && bay.id == s.bayId && floor in floors && floor.id == bay.floorId
    ensures SpotBuilding(s, floors, bays) == Some(floor.buildingId)
  {
    var b := Find(bays, (x: Bay) => x.id == s.bayId).value;
    var i :| 0 <= i < |bays| && bays[i] == bay;
    var k :| 0 <= k < |bays| && bays[k] == b && forall j :: 0 <= j < k ==> bays[j].id != s.bayId;
    assert BayIdOf(bays[k]) == BayIdOf(bays[i]);
    var f := Find(floors, (x: Floor) => x.id == bay.floorId).value;
    var m :| 0 <= m < |floors| && floors[m] == floor;
    var n :| 0 <= n < |floors| && floors[n] == f && forall j :: 0 <= j < n ==> floors[j].id != bay.floorId;
    assert FloorIdOf(floors[n]) == FloorIdOf(floors[m]);
  }

  // ---------------------------------------------------------------------------------------
  // New sessions, fees and closed sessions.

  /** `car${Date.now()}`. */
  function CarId(now: int): string {
    "car" + IntToDecimal(now)
  }

  function NewCar(plate: string, buildingId: string, spotId: string, now: int): Car {
    Car(CarId(now), plate, buildingId, Some(spotId), now, None)
  }

  function NewRecord(plate: string, buildingId: string, spotId: string, now: int): ParkingRecord {
    ParkingRecord("record" + IntToDecimal(now), NewCar(plate, buildingId, spotId, now).id, plate, buildingId, spotId,
      now, None, None)
  }

  /** The car and the record of a check-in agree on everything they share, and both are open. */
  lemma NewSessionAgrees(plate: string, buildingId: string, spotId: string, now: int, later: int)
    ensures var c := NewCar(plate, buildingId, spotId, now);
      var r := NewRecord(plate, buildingId, spotId, now);
      && r.carId == c.id && r.licensePlate == c.licensePlate == plate
      && r.buildingId == c.buildingId == buildingId && c.spotId == Some(r.spotId) && r.spotId == spotId
      && r.checkInTime == c.checkInTime == now && c.checkOutTime.None? && r.checkOutTime.None? && r.fee.None?
    ensures now != later ==> NewCar(plate, buildingId, spotId, now).id != NewCar(plate, buildingId, spotId, later).id
  {
    PrefixedDecimalInjective("car", now, later);
  }

  const MsPerHour := 3600000

  /** `Math.max(1, Math.ceil(elapsed / (1000 * 60 * 60)))` for a whole number of milliseconds. */
  function Hours(elapsed: int): int {
    if elapsed <= 0 then 1 else (elapsed + MsPerHour - 1) / MsPerHour
  }

  /** Five per started hour, at least one hour. */
  function Fee(checkIn: int, checkOut: int): int {
    Hours(checkOut - checkIn) * 5
  }

  /** The hours are the least whole number, at least one, that covers the elapsed time. */
  lemma HoursSpec(elapsed: int)
    ensures Hours(elapsed) >= 1
    ensures elapsed <= Hours(elapsed) * MsPerHour
    ensures Hours(elapsed) > 1 ==> (Hours(elapsed) - 1) * MsPerHour < elapsed
  {
    if elapsed > 0 {
      var h := (elapsed + MsPerHour - 1) / MsPerHour;
      var rem := (elapsed + MsPerHour - 1) % MsPerHour;
      assert elapsed + MsPerHour - 1 == h * MsPerHour + rem;
    }
  }

  /** The fee is a positive multiple of five, five for an immediate check-out, and never falls as the stay grows. */
  lemma FeeSpec(checkIn: int, checkOut: int, later: int)
    ensures Fee(checkIn, checkOut) >= 5 && Fee(checkIn, checkOut) % 5 == 0
    ensures Fee(checkIn, checkIn) == 5
    ensures checkOut <= later ==> Fee(checkIn, checkOut) <= Fee(checkIn, later)
  {
    HoursSpec(checkOut - checkIn);
    HoursSpec(later - checkIn);
  }

  /** `{ ...car, checkOutTime, spotId: null }`. */
  function CheckedOutCar(c: Car, now: int): Car {
    c.(checkOutTime := Some(now), spotId := None)
  }

  /** `if (car.spotId) updateSpotStatus(car.spotId, 'available')`: an absent or empty spot id frees nothing. */
  function SpotsAfterRelease(spots: seq<Spot>, spotId: Option<string>, now: int): seq<Spot> {
    if spotId.Some? && spotId.value != "" then StatusUpdated(spots, spotId.value, Available, now) else spots
  }

  /** `{ ...record, checkOutTime, fee }`, the fee counted from the car's check-in time. */
  function ClosedRecord(r: ParkingRecord, c: Car, now: int): ParkingRecord {
    r.(checkOutTime := Some(now), fee := Some(Fee(c.checkInTime, now)))
  }

  // ---------------------------------------------------------------------------------------
  // The occupancy counter.

  /** The counter is touched only when the selected building is the one the car is in. */
  predicate CountsFor(selected: Option<Building>, buildingId: string) {
    selected.Some? && selected.value.id == buildingId
  }

  function CheckInCount(count: int): int {
    count + 1
  }

  /** `Math.max(0, count - 1)`. */
  function CheckOutCount(count: int): int {
    if count - 1 > 0 then count - 1 else 0
  }

  /** The registry's buildings and selection once a check-in or check-out in `buildingId` has moved the counter. */
  function OccupancyAdjusted(buildings: seq<Building>, selected: Option<Building>, buildingId: string, checkIn: bool)
    : (seq<Building>, Option<Building>)
  {
    if CountsFor(selected, buildingId) then
      var n := selected.value.occupiedSpots;
      var patch := OccupancyPatch(if checkIn then CheckInCount(n) else CheckOutCount(n));
      (UpdateBuildings(buildings, buildingId, patch), SelectionAfterUpdate(selected, buildingId, patch))
    else (buildings, selected)
  }

  /**
   * Only the selected building's counter moves: every building with its id gets the new
   * count and keeps every other field, every other building stays, and so does the
   * selection apart from its count. Otherwise nothing changes.
   */
  lemma OccupancyAdjustedSpec(buildings: seq<Building>, selected: Option<Building>, buildingId: string, checkIn: bool)
    ensures !CountsFor(selected, buildingId) ==> OccupancyAdjusted(buildings, selected, buildingId, checkIn) == (buildings, selected)
    ensures CountsFor(selected, buildingId) ==>
      var (bs, sel) := OccupancyAdjusted(buildings, selected, buildingId, checkIn);
      var n := selected.value.occupiedSpots;
      var count := if checkIn then CheckInCount(n) else CheckOutCount(n);
      && |bs| == |buildings|
      && (forall i :: 0 <= i < |buildings| ==>
            bs[i] == if buildings[i].id == buildingId then buildings[i].(occupiedSpots := count) else buildings[i])
      && sel == Some(selected.value.(occupiedSpots := count))
  {
    if CountsFor(selected, buildingId) {
      var n := selected.value.occupiedSpots;
      var patch := OccupancyPatch(if checkIn then CheckInCount(n) else CheckOutCount(n));
      UpdateBuildingsAt(buildings, buildingId, patch);
      forall b | true ensures Merge(b, patch) == b.(occupiedSpots := patch.occupiedSpots.value) {
        MergeProperties(b, NoChanges);
      }
    }
  }

  /** The counter values: one more on check-in, one less but not below zero on check-out. */
  lemma CountsSpec(count: int)
    ensures CheckInCount(count) == count + 1
    ensures CheckOutCount(count) >= 0 && CheckOutCount(count) >= count - 1
    ensures count >= 1 ==> CheckOutCount(count) == count - 1
    ensures count >= 0 ==> CheckOutCount(CheckInCount(count)) == count
  {
  }

  // ---------------------------------------------------------------------------------------
  // The session invariant.

  /** At most one active car per plate. */
  ghost predicate OneActivePerPlate(cars: seq<Car>) {
    forall i, j :: 0 <= i < j < |cars| && cars[i].checkOutTime.None? && cars[j].checkOutTime.None? ==>
      cars[i].licensePlate != cars[j].licensePlate
  }

  /** Every active car has an open record. */
  ghost predicate ActiveCarsRecorded(cars: seq<Car>, records: seq<ParkingRecord>) {
    forall c :: c in cars && c.checkOutTime.None? ==> exists r :: r in records && r.carId == c.id && r.checkOutTime.None?
  }

  ghost predicate SessionsValid(cars: seq<Car>, records: seq<ParkingRecord>) {
    OneActivePerPlate(cars) && UniqueBy(cars, CarIdOf) && ActiveCarsRecorded(cars, records)
  }

  /** Under the invariant a check-out never fails for a missing record. */
  lemma ActiveCarHasOpenRecord(cars: seq<Car>, records: seq<ParkingRecord>, k: nat)
    requires SessionsValid(cars, records) && k < |cars| && cars[k].checkOutTime.None?
    ensures OpenRecordIndex(records, cars[k].id).Some?
  {
    assert cars[k] in cars;
    var r :| r in records && r.carId == cars[k].id && r.checkOutTime.None?;
    var m :| 0 <= m < |records| && records[m] == r;
  }

  /** Adding a car whose plate has no active car keeps at most one active car per plate. */
  lemma CheckInKeepsOnePerPlate(cars: seq<Car>, car: Car)
    requires OneActivePerPlate(cars) && ActiveCarIndex(cars, car.licensePlate).None?
    ensures OneActivePerPlate(cars + [car])
  {
    var cs := cars + [car];
    forall i, j | 0 <= i < j < |cs| && cs[i].checkOutTime.None? && cs[j].checkOutTime.None?
      ensures cs[i].licensePlate != cs[j].licensePlate
    {
      if j == |cars| {
        assert !IsActiveWithPlate(cars[i], car.licensePlate);
      }
    }
  }

  /** Checking out any car keeps at most one active car per plate. */
  lemma CheckOutKeepsOnePerPlate(cars: seq<Car>, k: nat, now: int)
    requires OneActivePerPlate(cars) && k < |cars|
    ensures OneActivePerPlate(cars[k := CheckedOutCar(cars[k], now)])
  {
    var cs := cars[k := CheckedOutCar(cars[k], now)];
    forall i, j | 0 <= i < j < |cs| && cs[i].checkOutTime.None? && cs[j].checkOutTime.None?
      ensures cs[i].licensePlate != cs[j].licensePlate
    {
      assert cs[i] == cars[i] && cs[j] == cars[j];
    }
  }

  lemma CheckInKeepsValid(cars: seq<Car>, records: seq<ParkingRecord>, car: Car, record: ParkingRecord)
    requires SessionsValid(cars, records)
    requires ActiveCarIndex(cars, car.licensePlate).None?
    requires forall c :: c in cars ==> c.id != car.id
    requires car.checkOutTime.None? && record.carId == car.id && record.checkOutTime.None?
    ensures SessionsValid(cars + [car], records + [record])
  {
    var cs := cars + [car];
    CheckInKeepsOnePerPlate(cars, car);
    UniqueByAppend(cars, car, CarIdOf);
    forall c | c in cs && c.checkOutTime.None?
      ensures exists r :: r in records + [record] && r.carId == c.id && r.checkOutTime.None?
    {
      if c == car {
        assert record in records + [record];
      } else {
        var r :| r in records && r.carId == c.id && r.checkOutTime.None?;
        assert r in records + [record];
      }
    }
  }

  lemma CheckOutKeepsValid(cars: seq<Car>, records: seq<ParkingRecord>, k: nat, m: nat, now: int)
    requires SessionsValid(cars, records)
    requires k < |cars| && m < |records| && records[m].carId == cars[k].id
    ensures SessionsValid(cars[k := CheckedOutCar(cars[k], now)], records[m := ClosedRecord(records[m], cars[k], now)])
  {
    var cs := cars[k := CheckedOutCar(cars[k], now)];
    var rs := records[m := ClosedRecord(records[m], cars[k], now)];
    forall i, j | 0 <= i < j < |cs| ensures CarIdOf(cs[i]) != CarIdOf(cs[j]) {
      assert cs[i].id == cars[i].id && cs[j].id == cars[j].id;
    }
    CheckOutKeepsOnePerPlate(cars, k, now);
    forall c | c in cs && c.checkOutTime.None?
      ensures exists r :: r in rs && r.carId == c.id && r.checkOutTime.None?
    {
      var i :| 0 <= i < |cs| && cs[i] == c;
      assert i != k && c == cars[i];
      var r :| r in records && r.carId == c.id && r.checkOutTime.None?;
      var n :| 0 <= n < |records| && records[n] == r;
      assert CarIdOf(cars[i]) != CarIdOf(cars[k]);
      assert rs[n] == r;
    }
  }

  // ---------------------------------------------------------------------------------------
  // Queries.

  /** `cars.filter(car => car.spotId !== null && car.checkOutTime === null)`. */
  function CheckedInCars(cars: seq<Car>): seq<Car> {
    Filter(cars, (c: Car) => c.spotId.Some? && c.checkOutTime.None?)
  }

  /** `cars.find(car => car.licensePlate.toUpperCase() === licensePlate.toUpperCase())`. */
  function FindCarByLicensePlate(cars: seq<Car>, plate: string): Option<Car> {
    Find(cars, (c: Car) => ToUpper(c.licensePlate) == ToUpper(plate))
  }

  /** The lookup ignores the case of the query and returns the first car in list order whose plate matches. */
  lemma FindCarByLicensePlateSpec(cars: seq<Car>, plate: string)
    ensures FindCarByLicensePlate(cars, ToLower(plate)) == FindCarByLicensePlate(cars, plate)
    ensures FindCarByLicensePlate(cars, ToUpper(plate)) == FindCarByLicensePlate(cars, plate)
    ensures FindCarByLicensePlate(cars, plate).None? <==> forall c :: c in cars ==> ToUpper(c.licensePlate) != ToUpper(plate)
    ensures FindCarByLicensePlate(cars, plate).Some? ==>
      exists k :: 0 <= k < |cars| && cars[k] == FindCarByLicensePlate(cars, plate).value &&
        ToUpper(cars[k].licensePlate) == ToUpper(plate) &&
        forall j :: 0 <= j < k ==> ToUpper(cars[j].licensePlate) != ToUpper(plate)
  {
    ToUpperForgetsCase(plate);
    FilterAgreeFind(cars, plate, ToLower(plate));
    FilterAgreeFind(cars, plate, ToUpper(plate));
  }

  lemma FilterAgreeFind(cars: seq<Car>, plate: string, other: string)
    requires ToUpper(other) == ToUpper(plate)
    ensures FindCarByLicensePlate(cars, other) == FindCarByLicensePlate(cars, plate)
  {
  }

  function NegCheckIn(r: ParkingRecord): int { -r.checkInTime }

  /** The time of a record's latest event: its check-out when it has one, else its check-in. */
  function LastActivity(r: ParkingRecord): int {
    if r.checkOutTime.Some? then r.checkOutTime.value else r.checkInTime
  }

  function NegLastActivity(r: ParkingRecord): int { -LastActivity(r) }

  /** `getCarsParkingHistory`: the plate's records, most recent check-in first. */
  function ParkingHistory(records: seq<ParkingRecord>, plate: string): seq<ParkingRecord> {
    var normalized := NormalizePlate(plate);
    SortBy(Filter(records, (r: ParkingRecord) => r.licensePlate == normalized), NegCheckIn)
  }

  /** `getTodaysCheckIns`: the building's records checked in at or after `midnight`, latest first. */
  function TodaysCheckIns(records: seq<ParkingRecord>, buildingId: string, midnight: int): seq<ParkingRecord> {
    SortBy(Filter(records, (r: ParkingRecord) => r.buildingId == buildingId && r.checkInTime >= midnight), NegCheckIn)
  }

  /** `getRecentActivity`: the building's records by latest event, newest first, cut to `limit` by `slice(0, limit)`; `limit` defaults to ten. */
  function RecentActivity(records: seq<ParkingRecord>, buildingId: string, limit: int := DefaultActivityLimit): seq<ParkingRecord> {
    SliceTo(SortBy(Filter(records, (r: ParkingRecord) => r.buildingId == buildingId), NegLastActivity), limit)
  }

  const DefaultActivityLimit := 10

  lemma CheckedInCarsSpec(cars: seq<Car>)
    ensures forall c :: c in CheckedInCars(cars) <==> c in cars && c.spotId.Some? && c.checkOutTime.None?
    ensures IsSubsequence(CheckedInCars(cars), cars)
    ensures OneActivePerPlate(cars) ==> OneActivePerPlate(CheckedInCars(cars))
  {
    FilterIsSubsequence(cars, (c: Car) => c.spotId.Some? && c.checkOutTime.None?);
    if OneActivePerPlate(cars) {
      SubsequenceKeepsOneActive(CheckedInCars(cars), cars);
    }
  }

  lemma {:induction false} SubsequenceKeepsOneActive(a: seq<Car>, b: seq<Car>)
    requires IsSubsequence(a, b) && OneActivePerPlate(b)
    ensures OneActivePerPlate(a)
    decreases |b|
  {
    if a != [] {
      var tail := b[1..];
      assert OneActivePerPlate(tail) by {
        forall i, j | 0 <= i < j < |tail| && tail[i].checkOutTime.None? && tail[j].checkOutTime.None?
          ensures tail[i].licensePlate != tail[j].licensePlate
        {
          assert tail[i] == b[i + 1] && tail[j] == b[j + 1];
        }
      }
      if a[0] == b[0] && IsSubsequence(a[1..], tail) {
        SubsequenceKeepsOneActive(a[1..], tail);
        SubsequenceMembers(a[1..], tail);
        forall i, j | 0 <= i < j < |a| && a[i].checkOutTime.None? && a[j].checkOutTime.None?
          ensures a[i].licensePlate != a[j].licensePlate
        {
          if i == 0 {
            assert a[j] == a[1..][j - 1] && a[j] in tail;
            var m :| 0 <= m < |tail| && tail[m] == a[j];
            assert b[m + 1] == a[j];
          } else {
            assert a[i] == a[1..][i - 1] && a[j] == a[1..][j - 1];
          }
        }
      } else {
        SubsequenceKeepsOneActive(a, tail);
      }
    }
  }

  /** The plate's history is its records, each as often as in the list, latest check-in first. */
  lemma ParkingHistorySpec(records: seq<ParkingRecord>, plate: string)
    ensures var h := ParkingHistory(records, plate);
      && (forall i, j :: 0 <= i < j < |h| ==> h[i].checkInTime >= h[j].checkInTime)
      && (forall r :: multiset(h)[r] == if r.licensePlate == NormalizePlate(plate) then multiset(records)[r] else 0)
  {
    var h := ParkingHistory(records, plate);
    assert forall i, j :: 0 <= i < j < |h| ==> NegCheckIn(h[i]) <= NegCheckIn(h[j]);
  }

  /** Today's check-ins are the building's records from `midnight` on, each as often as in the list, latest first. */
  lemma TodaysCheckInsSpec(records: seq<ParkingRecord>, buildingId: string, midnight: int)
    ensures var t := TodaysCheckIns(records, buildingId, midnight);
      && (forall i, j :: 0 <= i < j < |t| ==> t[i].checkInTime >= t[j].checkInTime)
      && (forall r :: multiset(t)[r] == if r.buildingId == buildingId && r.checkInTime >= midnight then multiset(records)[r] else 0)
  {
    var t := TodaysCheckIns(records, buildingId, midnight);
    assert forall i, j :: 0 <= i < j < |t| ==> NegCheckIn(t[i]) <= NegCheckIn(t[j]);
  }

  /**
   * Recent activity is a prefix of the building's records ordered by latest event, newest
   * first, and holds at most `limit` records when `limit` is not negative.
   */
  lemma RecentActivitySpec(records: seq<ParkingRecord>, buildingId: string, limit: int)
    ensures var a := RecentActivity(records, buildingId, limit);
            var mine := Filter(records, (r: ParkingRecord) => r.buildingId == buildingId);
      && (forall i, j :: 0 <= i < j < |a| ==> LastActivity(a[i]) >= LastActivity(a[j]))
      && (forall r :: r in a ==> r in records && r.buildingId == buildingId)
      && (limit >= 0 ==> |a| == if limit < |mine| then limit else |mine|)
      && (limit < 0 ==> |a| == if |mine| + limit > 0 then |mine| + limit else 0)
      && a <= SortBy(mine, NegLastActivity)
  {
    var mine := Filter(records, (r: ParkingRecord) => r.buildingId == buildingId);
    var sorted := SortBy(mine, NegLastActivity);
    var a := RecentActivity(records, buildingId, limit);
    PrefixOfSorted(a, sorted, NegLastActivity);
    forall i, j | 0 <= i < j < |a| ensures LastActivity(a[i]) >= LastActivity(a[j]) {
      assert NegLastActivity(a[i]) <= NegLastActivity(a[j]);
    }
    forall r | r in a ensures r in records && r.buildingId == buildingId {
      assert r in multiset(sorted);
      assert r in multiset(mine);
    }
  }

  /** Without a `limit`, recent activity holds ten of the building's records, or all of them when it has fewer. */
  lemma DefaultRecentActivity(records: seq<ParkingRecord>, buildingId: string)
    ensures var n := |Filter(records, (r: ParkingRecord) => r.buildingId == buildingId)|;
      |RecentActivity(records, buildingId)| == if n < 10 then n else 10
  {
    RecentActivitySpec(records, buildingId, DefaultActivityLimit);
  }

  // ---------------------------------------------------------------------------------------
  // Check-in and check-out as plans over the current state.

  /** The spot a check-in of the plate would take: none when the plate is parked or no spot qualifies. */
  function CheckInSpot(cars: seq<Car>, l: Layout, plate: string, buildingId: string): Option<Spot> {
    if ActiveCarIndex(cars, NormalizePlate(plate)).Some? then None
    else AvailableSpot(l.spots, l.floors, l.bays, buildingId)
  }

  /** The indices a check-out would rewrite: the plate's active car and that car's open record. */
  function CheckOutPlan(cars: seq<Car>, records: seq<ParkingRecord>, plate: string): Option<(nat, nat)> {
    match ActiveCarIndex(cars, NormalizePlate(plate))
    case None => None
    case Some(k) =>
      match OpenRecordIndex(records, cars[k].id)
      case None => None
      case Some(m) => Some((k, m))
  }

  /** A check-in fails exactly when the normalised plate is already parked or the building has no qualifying spot. */
  lemma CheckInSpotSpec(cars: seq<Car>, l: Layout, plate: string, buildingId: string)
    ensures CheckInSpot(cars, l, plate, buildingId).None? <==>
      (exists c :: c in cars && IsActiveWithPlate(c, NormalizePlate(plate))) ||
      (forall s :: s in l.spots ==> !SpotQualifies(s, l.floors, l.bays, buildingId))
    ensures CheckInSpot(cars, l, plate, buildingId).Some? ==>
      && CheckInSpot(cars, l, plate, buildingId).value in l.spots
      && SpotQualifies(CheckInSpot(cars, l, plate, buildingId).value, l.floors, l.bays, buildingId)
      && forall c :: c in cars ==> !IsActiveWithPlate(c, NormalizePlate(plate))
  {
    var normalized := NormalizePlate(plate);
    var p := (s: Spot) => SpotQualifies(s, l.floors, l.bays, buildingId);
    FilterHeadIsFind(l.spots, p);
    match ActiveCarIndex(cars, normalized)
    case Some(k) =>
      assert cars[k] in cars && IsActiveWithPlate(cars[k], normalized);
    case None =>
      forall c | c in cars ensures !IsActiveWithPlate(c, normalized) {
        var i :| 0 <= i < |cars| && cars[i] == c;
      }
  }

  /** A check-out fails only when the plate has no active car, or, breaking the invariant, no open record. */
  lemma CheckOutPlanSpec(cars: seq<Car>, records: seq<ParkingRecord>, plate: string)
    ensures CheckOutPlan(cars, records, plate).Some? ==>
      var (k, m) := CheckOutPlan(cars, records, plate).value;
      && k < |cars| && m < |records| && IsActiveWithPlate(cars[k], NormalizePlate(plate))
      && records[m].carId == cars[k].id && records[m].checkOutTime.None?
    ensures SessionsValid(cars, records) ==>
      (CheckOutPlan(cars, records, plate).None? <==> forall c :: c in cars ==> !IsActiveWithPlate(c, NormalizePlate(plate)))
  {
    if SessionsValid(cars, records) {
      match ActiveCarIndex(cars, NormalizePlate(plate))
      case None =>
      case Some(k) =>
        ActiveCarHasOpenRecord(cars, records, k);
    }
  }

  // ---------------------------------------------------------------------------------------
  // The fixed initial sessions, relative to the start time.

  function SampleCars(now: int): seq<Car> {
    [
      Car("car1", "ABC1234", "1", Some("spot_b1_1"), now - 3 * MsPerHour, None),
      Car("car2", "XYZ5678", "1", Some("spot_b2_2"), now - 2 * MsPerHour, None),
      Car("car3", "DEF9012", "1", None, now - 8 * MsPerHour, Some(now - 2 * MsPerHour))
    ]
  }

  function SampleRecords(now: int): seq<ParkingRecord> {
    [
      ParkingRecord("record1", "car1", "ABC1234", "1", "spot_b1_1", now - 3 * MsPerHour, None, None),
      ParkingRecord("record2", "car2", "XYZ5678", "1", "spot_b2_2", now - 2 * MsPerHour, None, None),
      ParkingRecord("record3", "car3", "DEF9012", "1", "spot_b1_3", now - 8 * MsPerHour, Some(now - 2 * MsPerHour), Some(15)),
      ParkingRecord("record4", "car4", "GHI3456", "1", "spot_b3_1", now - 48 * MsPerHour, Some(now - 44 * MsPerHour), Some(8)),
      ParkingRecord("record5", "car5", "JKL7890", "2", "spot_b6_1", now - 26 * MsPerHour, Some(now - 20 * MsPerHour), Some(12))
    ]
  }

  /** A stay of a whole number of hours is charged exactly that many hours. */
  lemma HoursOfWhole(h: int)
    requires h >= 1
    ensures Hours(h * MsPerHour) == h
  {
    var e := h * MsPerHour + MsPerHour - 1;
    var q := e / MsPerHour;
    var rem := e % MsPerHour;
    assert e == q * MsPerHour + rem && 0 <= rem < MsPerHour;
    assert (q - h) * MsPerHour == MsPerHour - 1 - rem;
  }

  /**
   * The closed sample sessions carry fees of 15, 8 and 12, while the fee rule charges 30,
   * 20 and 30 for their six-, four- and six-hour stays.
   */
  lemma SampleFeesDifferFromRule(now: int)
    ensures var r := SampleRecords(now);
      && r[2].fee == Some(15) && Fee(r[2].checkInTime, r[2].checkOutTime.value) == 30
      && r[3].fee == Some(8) && Fee(r[3].checkInTime, r[3].checkOutTime.value) == 20
      && r[4].fee == Some(12) && Fee(r[4].checkInTime, r[4].checkOutTime.value) == 30
  {
    HoursOfWhole(6);
    HoursOfWhole(4);
    var r := SampleRecords(now);
    assert r[2].checkOutTime.value - r[2].checkInTime == 6 * MsPerHour;
    assert r[3].checkOutTime.value - r[3].checkInTime == 4 * MsPerHour;
    assert r[4].checkOutTime.value - r[4].checkInTime == 6 * MsPerHour;
  }

  lemma SampleSessionsValid(now: int)
    ensures SessionsValid(SampleCars(now), SampleRecords(now))
  {
    var cars := SampleCars(now);
    var records := SampleRecords(now);
    forall c | c in cars && c.checkOutTime.None?
      ensures exists r :: r in records && r.carId == c.id && r.checkOutTime.None?
    {
      if c == cars[0] {
        assert records[0] in records;
      } else {
        assert records[1] in records;
      }
    }
  }

  class CarManager {
    var cars: seq<Car>
    var records: seq<ParkingRecord>
    const layout: LayoutRegistry
    const registry: BuildingRegistry

    ghost predicate Valid()
      reads this
    {
      SessionsValid(cars, records)
    }

    constructor (layout: LayoutRegistry, registry: BuildingRegistry, now: int)
      ensures this.layout == layout && this.registry == registry
      ensures cars == SampleCars(now) && records == SampleRecords(now)
      ensures Valid()
    {
      this.layout := layout;
      this.registry := registry;
      cars := SampleCars(now);
      records := SampleRecords(now);
      SampleSessionsValid(now);
    }

    /**
     * Moves the occupancy counter of the building, when it is the selected one, up by one
     * for a check-in and down by one, not below zero, for a check-out.
     */
    method AdjustOccupancy(buildingId: string, checkIn: bool)
      modifies registry`buildings, registry`selected
      ensures (registry.buildings, registry.selected) ==
        OccupancyAdjusted(old(registry.buildings), old(registry.selected), buildingId, checkIn)
      ensures old(registry.Valid()) ==> registry.Valid()
    {
      if CountsFor(registry.selected, buildingId) {
        var n := registry.selected.value.occupiedSpots;
        registry.UpdateBuilding(buildingId, OccupancyPatch(if checkIn then CheckInCount(n) else CheckOutCount(n)));
      }
    }

    /** Appends a new car and its open record. */
    method OpenSession(car: Car, record: ParkingRecord)
      modifies this`cars, this`records
      ensures cars == old(cars) + [car] && records == old(records) + [record]
      ensures (old(Valid()) && ActiveCarIndex(old(cars), car.licensePlate).None? &&
               (forall c :: c in old(cars) ==> c.id != car.id) &&
               car.checkOutTime.None? && record.carId == car.id && record.checkOutTime.None?) ==> Valid()
      ensures old(OneActivePerPlate(cars)) && ActiveCarIndex(old(cars), car.licensePlate).None? ==> OneActivePerPlate(cars)
    {
      if OneActivePerPlate(cars) && ActiveCarIndex(cars, car.licensePlate).None? {
        CheckInKeepsOnePerPlate(cars, car);
      }
      if Valid() && ActiveCarIndex(cars, car.licensePlate).None? && (forall c :: c in cars ==> c.id != car.id) &&
        car.checkOutTime.None? && record.carId == car.id && record.checkOutTime.None?
      {
        CheckInKeepsValid(cars, records, car, record);
      }
      cars := cars + [car];
      records := records + [record];
    }

    /** Marks car `k` checked out and closes record `m`, the car's session. */
    method CloseSession(k: nat, m: nat, now: int)
      requires k < |cars| && m < |records| && records[m].carId == cars[k].id
      modifies this`cars, this`records
      ensures cars == old(cars)[k := CheckedOutCar(old(cars)[k], now)]
      ensures records == old(records)[m := ClosedRecord(old(records)[m], old(cars)[k], now)]
      ensures old(Valid()) ==> Valid()
      ensures old(OneActivePerPlate(cars)) ==> OneActivePerPlate(cars)
    {
      if Valid() {
        CheckOutKeepsValid(cars, records, k, m, now);
      }
      if OneActivePerPlate(cars) {
        CheckOutKeepsOnePerPlate(cars, k, now);
      }
      records := records[m := ClosedRecord(records[m], cars[k], now)];
      cars := cars[k := CheckedOutCar(cars[k], now)];
    }

    /** Frees the car's spot, if it has one. */
    method ReleaseSpot(spotId: Option<string>, now: int)
      modifies layout`spots
      ensures layout.spots == SpotsAfterRelease(old(layout.spots), spotId, now)
      ensures old(layout.Valid()) ==> layout.Valid()
    {
      if spotId.Some? && spotId.value != "" {
        layout.UpdateSpotStatus(spotId.value, Available, now);
      }
    }

    /**
     * `checkInCar(licensePlate, buildingId)` at time `now`: the new car, or `None` with
     * nothing changed.
     */
    method CheckIn(plate: string, buildingId: string, now: int) returns (car: Option<Car>)
      modifies this`cars, this`records, layout`spots, registry`buildings, registry`selected
      ensures var spot := CheckInSpot(old(cars), old(layout.State()), plate, buildingId);
        && (spot.None? ==> car.None? && unchanged(this, layout, registry))
        && (spot.Some? ==>
              var normalized := NormalizePlate(plate);
              && car == Some(NewCar(normalized, buildingId, spot.value.id, now))
              && cars == old(cars) + [car.value]
              && records == old(records) + [NewRecord(normalized, buildingId, spot.value.id, now)]
              && layout.spots == StatusUpdated(old(layout.spots), spot.value.id, Occupied, now)
              && (registry.buildings, registry.selected) ==
                   OccupancyAdjusted(old(registry.buildings), old(registry.selected), buildingId, true))
      ensures old(Valid()) && (forall c :: c in old(cars) ==> c.id != CarId(now)) ==> Valid()
      ensures old(OneActivePerPlate(cars)) ==> OneActivePerPlate(cars)
      ensures old(layout.Valid()) ==> layout.Valid()
      ensures old(registry.Valid()) ==> registry.Valid()
    {
      var normalized := NormalizePlate(plate);
      var spot := CheckInSpot(cars, layout.State(), plate, buildingId);
      if spot.None? {
        return None;
      }
      var newCar := NewCar(normalized, buildingId, spot.value.id, now);
      var newRecord := NewRecord(normalized, buildingId, spot.value.id, now);
      OpenSession(newCar, newRecord);
      layout.UpdateSpotStatus(spot.value.id, Occupied, now);
      AdjustOccupancy(buildingId, true);
      return Some(newCar);
    }

    /**
     * `checkOutCar(licensePlate)` at time `now`: the closed record, or `None` with nothing
     * changed.
     */
    method CheckOut(plate: string, now: int) returns (record: Option<ParkingRecord>)
      modifies this`cars, this`records, layout`spots, registry`buildings, registry`selected
      ensures var plan := CheckOutPlan(old(cars), old(records), plate);
        && (plan.None? ==> record.None? && unchanged(this, layout, registry))
        && (plan.Some? ==>
              var (k, m) := plan.value;
              var car := old(cars)[k];
              && record == Some(ClosedRecord(old(records)[m], car, now))
              && cars == old(cars)[k := CheckedOutCar(car, now)]
              && records == old(records)[m := record.value]
              && layout.spots == SpotsAfterRelease(old(layout.spots), car.spotId, now)
              && (registry.buildings, registry.selected) ==
                   OccupancyAdjusted(old(registry.buildings), old(registry.selected), car.buildingId, false))
      ensures old(Valid()) ==> Valid()
      ensures old(OneActivePerPlate(cars)) ==> OneActivePerPlate(cars)
      ensures old(layout.Valid()) ==> layout.Valid()
      ensures old(registry.Valid()) ==> registry.Valid()
    {
      var plan := CheckOutPlan(cars, records, plate);
      if plan.None? {
        return None;
      }
      CheckOutPlanSpec(cars, records, plate);
      var (k, m) := plan.value;
      var car := cars[k];
      var closed := ClosedRecord(records[m], car, now);
      CloseSession(k, m, now);
      ReleaseSpot(car.spotId, now);
      AdjustOccupancy(car.buildingId, false);
      return Some(closed);
    }
  }
}
