# spot-pms core, modelled in Dafny

spot-pms is a parking management console. Its logic lives in four in-memory registries, which are React contexts in the original. The rest is presentation. This project models those registries and two small string helpers, and proves what they promise.

- **Building registry** (`buildings.dfy`, module `Buildings`). It holds the list of buildings and the selected building. Adding, updating and deleting a building keep the selection pointing at a building in the list.
- **Layout registry** (`layout.dfy`, module `Layout`). It holds flat lists of floors, bays and spots, linked by foreign keys, plus the selected floor and bay.
  - It provides add, update and delete for each kind of element.
  - Deleting a floor also deletes its bays and their spots.
  - A delete repairs the selection.
  - It answers filter-then-sort queries.
- **Spot filter and toggle service** (`spot_management.dfy`, module `SpotManagement`).
  - A filtered view of the spots: the AND of a building, a status, a type, a feature and a text-search condition.
  - Per-status counts.
  - A toggle that moves a spot one step round the cycle available → occupied → reserved → maintenance.
- **Vehicle check-in/check-out service** (`car_management.dfy`, module `CarManagement`). It is the one operation in the system that touches several entities at once.
  - Check-in normalises the plate, refuses a plate that is already parked, and takes the first available spot in the building.
  - It records a car and a parking record, marks the spot occupied and increments the selected building's occupancy.
  - Check-out closes the session, charges 5 per started hour with a minimum of one hour, frees the spot and decrements the occupancy.
- **Page title** (`main_layout.dfy`) and **feature badge label and class** (`feature_badge.dfy`). These are pure string functions.

The registries are classes whose `seq` fields their methods reassign. Every method is specified by a pure function of the old state, for example `State() == FloorDeleted(old(State()), id)`. The properties are lemmas about those functions:
- what a delete removes;
- how the selection is repaired;
- that each invariant is preserved:
  - unique ids;
  - references that resolve;
  - a valid selection;
  - at most one active session per plate, each with an open record.

`seqs.dfy` holds the JavaScript array operations the code uses, with their laws: `filter`, `map`, `find`, `findIndex`, a stable `sort` by key, and `slice`. `text.dfy` holds the string operations:
- `toUpperCase` and `toLowerCase`;
- `trim`, over the ECMAScript whitespace set;
- `includes`, `split` and `join`;
- `startsWith`;
- decimal printing of integers.

`wrappers.dfy` holds `Option`.

Time is an integer number of milliseconds. The current time and today's midnight are parameters. Ids that the source derives from `Date.now()` are derived from that parameter in the same way, for example `"f" + now` and `"car" + now`.

Where the behaviour described for the system and the code differ, the model follows the code:
- `findCarByLicensePlate` returns the first car in list order whose plate matches without regard to case. It does not trim, and it also finds cars that have already left (`CarManagementContext.tsx:139-141`).
- `getRecentActivity` slices with `slice(0, limit)`. A negative limit therefore drops records from the end instead of bounding the length.
- The fees in the sample check-outs (15, 8 and 12) do not follow the fee rule, which gives 30, 20 and 30 for those stays. `CarManagement.SampleFeesDifferFromRule` states both.
- The computed title of `/api-documentation` is "Api Documentation". The sidebar's label for that route is "API Documentation" (`src/components/layout/Sidebar.tsx:28`).
- `getFilteredSpots` treats an empty building id as "no building filter" (JavaScript truthiness). It also treats an empty feature filter as no filter.
- Check-out leaves the spot alone when the car's spot id is empty.

## Model

| member | source | states |
|---|---|---|
| Buildings.BuildingRegistry.constructor | src/contexts/BuildingsContext.tsx:27-58 | the registry starts with the three sample buildings, the first selected, and satisfies the registry invariant |
| Buildings.BuildingRegistry.SetSelectedBuilding | src/contexts/BuildingsContext.tsx:57-58 | only the selection changes; selecting a listed building keeps the invariant |
| Buildings.BuildingRegistry.AddBuilding | src/contexts/BuildingsContext.tsx:61-79 | exactly one new building is appended after the unchanged earlier ones; it is selected only when nothing was; the invariant survives when the new id is unused |
| Buildings.BuildingRegistry.UpdateBuilding | src/contexts/BuildingsContext.tsx:81-96 | the list is the pointwise merge on that id; the selection is merged only when it has that id; the invariant survives an update that keeps ids |
| Buildings.BuildingRegistry.DeleteBuilding | src/contexts/BuildingsContext.tsx:98-111 | only the list and the selection change (no cascade to the layout); the invariant always survives |
| Buildings.NewBuildingSpec | src/contexts/BuildingsContext.tsx:64-70 | a new building carries the input's name, address and description and zero counters; different creation times give different ids |
| Buildings.MergeProperties | src/contexts/BuildingsContext.tsx:84-86 | merging no fields is the identity, merging twice equals merging once, and an occupancy patch changes nothing but `occupiedSpots` |
| Buildings.UpdateBuildingsAt | src/contexts/BuildingsContext.tsx:84-87 | length kept, exactly the buildings with the id merged, every other building unchanged, an unknown id a no-op |
| Buildings.RemoveBuildingSpec | src/contexts/BuildingsContext.tsx:101-102 | the survivors are exactly the buildings without the id, in their original order; an unknown id is a no-op |
| Buildings.AddKeepsUniqueIds | src/contexts/BuildingsContext.tsx:64-76 | appending a building with an unused id keeps ids unique |
| Buildings.UpdateKeepsUniqueIds | src/contexts/BuildingsContext.tsx:84-87 | an update whose patch keeps the id keeps ids unique |
| Buildings.DeleteKeepsUniqueIds | src/contexts/BuildingsContext.tsx:101-102 | a delete keeps ids unique |
| Buildings.AddKeepsSelectionValid | src/contexts/BuildingsContext.tsx:73-75 | after an add the selection is still a listed building (the new one when nothing was selected) |
| Buildings.UpdateKeepsSelectionValid | src/contexts/BuildingsContext.tsx:90-92 | the merged selection equals the merged list entry, so it is still a listed building |
| Buildings.DeleteKeepsSelectionValid | src/contexts/BuildingsContext.tsx:105-107 | deleting the selected building selects the first survivor in list order, or nothing exactly when no building survives; any other delete leaves the selection unchanged; either way the selection stays a listed building |
| Layout.NewElements | src/contexts/LayoutContext.tsx:141-267 | new floors, bays and spots carry every input field (spots also the creation time as `lastUpdated`); bay ids start with 'b'; different times give different ids |
| Layout.UpdatesAt | src/contexts/LayoutContext.tsx:152-162 | each update keeps the length, rewrites exactly the elements with the id, stamps updated spots with now, and is a no-op for an unknown id |
| Layout.UpdateSpotStatusAt | src/contexts/LayoutContext.tsx:294-296 | only that spot's status and timestamp change |
| Layout.BayIdsOnFloor | src/contexts/LayoutContext.tsx:168-169 | an id is listed exactly when some bay on the floor has it |
| Layout.FloorDeletedRemovesExactly | src/contexts/LayoutContext.tsx:164-178 | the floor, its bays and the spots in those bays are removed, everything else stays in order |
| Layout.BayDeletedRemovesExactly | src/contexts/LayoutContext.tsx:228-235 | the bay and its spots are removed, everything else stays in order, floors untouched |
| Layout.FloorDeletedSelection | src/contexts/LayoutContext.tsx:181-197 | deleting the selected floor selects the first other floor of the same building in list order (none only when there is none), and the first bay on that floor in list order (none only when it has no bay); other deletes keep the selection |
| Layout.FloorDeletedPicksFirst | src/contexts/LayoutContext.tsx:181-192 | after deleting the selected floor, the selected floor is the earliest sibling floor in the old list and the selected bay the earliest bay on it |
| Layout.BayDeletedSelection | src/contexts/LayoutContext.tsx:238-247 | deleting the selected bay selects the first other bay on the same floor in list order, none only when there is none; other deletes keep it |
| Layout.FloorDeletedKeepsValid | src/contexts/LayoutContext.tsx:164-202 | the cascading floor delete keeps references resolving, the selection valid and ids unique |
| Layout.BayDeletedKeepsValid | src/contexts/LayoutContext.tsx:228-251 | the bay delete keeps the layout invariant |
| Layout.SpotDeletedKeepsValid | src/contexts/LayoutContext.tsx:285-292 | deleting a spot removes exactly that id, in order, and keeps the invariant |
| Layout.AddsKeepValid | src/contexts/LayoutContext.tsx:141-267 | adds with unused ids and existing parents keep the invariant |
| Layout.UpdateFloorKeepsValid | src/contexts/LayoutContext.tsx:152-162 | a floor update that keeps the id keeps the invariant |
| Layout.UpdateBayKeepsValid | src/contexts/LayoutContext.tsx:216-226 | a bay update that keeps the id and moves the bay, if at all, to an existing floor (and not the selected bay) keeps the invariant |
| Layout.UpdateSpotKeepsValid | src/contexts/LayoutContext.tsx:269-283 | a spot update that keeps the id and moves it, if at all, to an existing bay keeps the invariant |
| Layout.QueriesSpec | src/contexts/LayoutContext.tsx:299-312 | each query is a permutation of exactly the matching elements, sorted ascending by number |
| Layout.SampleLayoutValid | src/contexts/LayoutContext.tsx:57-75 | the fixed initial layout satisfies the invariant |
| Layout.LayoutRegistry.constructor | src/contexts/LayoutContext.tsx:113-117 | the registry starts with the sample layout and no selection, and is valid |
| Layout.LayoutRegistry.SetSelectedFloorId | src/contexts/LayoutContext.tsx:113-117 | only the selected floor changes |
| Layout.LayoutRegistry.SetSelectedBayId | src/contexts/LayoutContext.tsx:113-117 | only the selected bay changes |
| Layout.LayoutRegistry.AddFloor | src/contexts/LayoutContext.tsx:141-150 | appends exactly the new floor, returns it, touches nothing else, keeps the invariant for an unused id |
| Layout.LayoutRegistry.UpdateFloor | src/contexts/LayoutContext.tsx:152-162 | only the floor list changes, as the pointwise merge; invariant kept |
| Layout.LayoutRegistry.DeleteFloor | src/contexts/LayoutContext.tsx:164-202 | the new state is the cascading delete with selection repair; invariant kept |
| Layout.LayoutRegistry.AddBay | src/contexts/LayoutContext.tsx:205-214 | appends exactly the new bay; invariant kept for an unused id on an existing floor |
| Layout.LayoutRegistry.UpdateBay | src/contexts/LayoutContext.tsx:216-226 | only the bay list changes, as the pointwise merge; invariant kept under the bay-update conditions |
| Layout.LayoutRegistry.DeleteBay | src/contexts/LayoutContext.tsx:228-251 | the new state is the bay delete with selection repair; floors and floor selection untouched; invariant kept |
| Layout.LayoutRegistry.AddSpot | src/contexts/LayoutContext.tsx:254-267 | appends exactly the new spot stamped now; invariant kept for an unused id in an existing bay |
| Layout.LayoutRegistry.UpdateSpot | src/contexts/LayoutContext.tsx:269-283 | only the spot list changes, stamped now; invariant kept |
| Layout.LayoutRegistry.DeleteSpot | src/contexts/LayoutContext.tsx:285-292 | only the spot list changes; invariant kept |
| Layout.LayoutRegistry.UpdateSpotStatus | src/contexts/LayoutContext.tsx:294-296 | only that spot's status and timestamp change; invariant kept |
| SpotManagement.BuildingBayIdsSpec | src/contexts/SpotManagementContext.tsx:66-79 | a spot's bay id is among the computed ids exactly when its bay lies on a floor of the building |
| SpotManagement.StagesAreFilters | src/contexts/SpotManagementContext.tsx:62-105 | each stage of the filter chain keeps exactly the spots passing its condition |
| SpotManagement.FilteredSpotsIsOneFilter | src/contexts/SpotManagementContext.tsx:62-108 | the chain of five filters equals one filter by the AND of the conditions |
| SpotManagement.FilteredSpotsSpec | src/contexts/SpotManagementContext.tsx:28-33 | the result is an order-preserving subsequence holding exactly the spots that pass every active condition; with the default filters and no building it is all spots |
| SpotManagement.PassesBuildingMeans | src/contexts/SpotManagementContext.tsx:66-79 | the building condition holds exactly when the spot's bay is on a floor of the building |
| SpotManagement.PassesSearchMeans | src/contexts/SpotManagementContext.tsx:99-105 | a blank query passes everything; otherwise the decimal spot number or the lower-cased id must contain the trimmed lower-cased query |
| SpotManagement.CountsPartition | src/contexts/SpotManagementContext.tsx:111-120 | the four status counts of any list sum to its length |
| SpotManagement.SpotsByStatusSum | src/contexts/SpotManagementContext.tsx:111-120 | the four counts sum to the size of the building's filtered view |
| SpotManagement.SpotsByStatusUnderStatusFilter | src/contexts/SpotManagementContext.tsx:82-84 | under a status filter every other status counts zero |
| SpotManagement.NextStatusCycle | src/contexts/SpotManagementContext.tsx:131-146 | the status cycle has period exactly four |
| SpotManagement.ToggledSpec | src/contexts/SpotManagementContext.tsx:123-154 | a toggle fails exactly for an unknown id; otherwise only that spot moves one status forward and is stamped |
| SpotManagement.FourTogglesRestore | src/contexts/SpotManagementContext.tsx:131-149 | four toggles give every spot back its status; only the timestamp of the toggled spot differs |
| SpotManagement.ToggleStep | src/contexts/SpotManagementContext.tsx:123-149 | a toggle of a known id keeps the length, the ids and their uniqueness |
| SpotManagement.SpotManager.constructor | src/contexts/SpotManagementContext.tsx:28-36 | the filters start at their defaults |
| SpotManagement.SpotManager.SetStatusFilter | src/contexts/SpotManagementContext.tsx:41-43 | only the status filter changes |
| SpotManagement.SpotManager.SetTypeFilter | src/contexts/SpotManagementContext.tsx:45-47 | only the type filter changes |
| SpotManagement.SpotManager.SetFeatureFilter | src/contexts/SpotManagementContext.tsx:49-51 | only the feature filter changes |
| SpotManagement.SpotManager.SetSearchQuery | src/contexts/SpotManagementContext.tsx:53-55 | only the search query changes |
| SpotManagement.SpotManager.ResetFilters | src/contexts/SpotManagementContext.tsx:57-59 | the filters are the defaults again |
| SpotManagement.SpotManager.ToggleSpotStatus | src/contexts/SpotManagementContext.tsx:123-154 | returns true exactly when the id exists, then the spots are the toggled list; otherwise nothing changes; the layout invariant is kept |
| CarManagement.NormalizePlateSpec | src/contexts/CarManagementContext.tsx:165 | the normalised plate has no whitespace at either end and no lower-case letter, and normalising is idempotent |
| CarManagement.AvailableSpotSpec | src/contexts/CarManagementContext.tsx:143-159 | no spot is chosen exactly when none is available, in a 'b' bay and in the building; otherwise the first such spot in list order |
| CarManagement.SpotBuildingUnique | src/contexts/CarManagementContext.tsx:149-157 | with unique ids, a spot's building is the building of its bay's floor |
| CarManagement.NewSessionAgrees | src/contexts/CarManagementContext.tsx:184-202 | the new car and record share plate, building, spot and check-in time, both open, the record pointing at the car; different times give different car ids |
| CarManagement.HoursSpec | src/contexts/CarManagementContext.tsx:264-265 | billed hours are the least whole number, at least one, that covers the stay |
| CarManagement.FeeSpec | src/contexts/CarManagementContext.tsx:264-266 | a fee is at least 5 and a multiple of 5, an instant stay costs 5, and a longer stay never costs less |
| CarManagement.HoursOfWhole | src/contexts/CarManagementContext.tsx:264-265 | a stay of exactly h whole hours bills h hours |
| CarManagement.OccupancyAdjustedSpec | src/contexts/CarManagementContext.tsx:208-212 | only the selected building with that id changes, pointwise in the list and in the selection, to the new count; otherwise nothing changes |
| CarManagement.CountsSpec | src/contexts/CarManagementContext.tsx:281-285 | check-in adds one; check-out subtracts one but never below zero, and undoes a check-in |
| CarManagement.ActiveCarHasOpenRecord | src/contexts/CarManagementContext.tsx:254-261 | under the session invariant every active car has an open record |
| CarManagement.CheckInKeepsValid | src/contexts/CarManagementContext.tsx:168-216 | adding a fresh active car with an unused plate and its open record keeps at most one active car per plate, unique car ids and an open record per active car |
| CarManagement.CheckInKeepsOnePerPlate | src/contexts/CarManagementContext.tsx:168-175 | adding a car whose plate has no active car keeps at most one active car per plate, with no assumption on ids or records |
| CarManagement.CheckOutKeepsOnePerPlate | src/contexts/CarManagementContext.tsx:247-290 | checking out any car keeps at most one active car per plate |
| CarManagement.CheckOutKeepsValid | src/contexts/CarManagementContext.tsx:234-294 | closing a car and its record keeps the session invariant |
| CarManagement.FindCarByLicensePlateSpec | src/contexts/CarManagementContext.tsx:139-141 | the lookup ignores case, finds nothing exactly when no plate matches case-insensitively, and otherwise returns the first match |
| CarManagement.CheckedInCarsSpec | src/contexts/CarManagementContext.tsx:137 | exactly the cars with a spot and no check-out time, in order, and at most one per plate when that held before |
| CarManagement.SubsequenceKeepsOneActive | src/contexts/CarManagementContext.tsx:137 | any order-preserving selection of cars keeps at most one active car per plate |
| CarManagement.ParkingHistorySpec | src/contexts/CarManagementContext.tsx:305-310 | the history is exactly the plate's records, each as often as in the list, latest check-in first |
| CarManagement.TodaysCheckInsSpec | src/contexts/CarManagementContext.tsx:312-320 | exactly the building's records with a check-in since midnight, as often as in the list, latest first |
| CarManagement.RecentActivitySpec | src/contexts/CarManagementContext.tsx:322-332 | with `limit` defaulting to ten: newest event first, only the building's records, exactly the smaller of `limit` and the building's record count when `limit` is not negative, that count plus `limit` (but not below zero) when it is negative, and a prefix of the building's records in that order |
| CarManagement.DefaultRecentActivity | src/contexts/CarManagementContext.tsx:322-332 | called without a limit, the list holds ten of the building's records, or all of them when it has fewer |
| CarManagement.CheckInSpotSpec | src/contexts/CarManagementContext.tsx:165-181 | a check-in fails exactly when the normalised plate is parked or no spot qualifies; otherwise the spot is a listed qualifying spot |
| CarManagement.CheckOutPlanSpec | src/contexts/CarManagementContext.tsx:234-261 | a planned check-out names the plate's active car and its open record; under the invariant it fails exactly when the plate has no active car |
| CarManagement.SampleFeesDifferFromRule | src/contexts/CarManagementContext.tsx:73-122 | the sample records' fees 15, 8 and 12 differ from the rule's 30, 20 and 30 for their stays |
| CarManagement.SampleSessionsValid | src/contexts/CarManagementContext.tsx:46-122 | the initial cars and records satisfy the session invariant |
| CarManagement.CarManager.constructor | src/contexts/CarManagementContext.tsx:46-122 | the service starts with the sample sessions and satisfies its invariant |
| CarManagement.CarManager.AdjustOccupancy | src/contexts/CarManagementContext.tsx:208-212 | the building registry takes the adjusted occupancy and keeps its invariant |
| CarManagement.CarManager.OpenSession | src/contexts/CarManagementContext.tsx:215-216 | appends the car and the record; at most one active car per plate survives a car with an unparked plate, and the whole session invariant survives when the car id is also fresh |
| CarManagement.CarManager.CloseSession | src/contexts/CarManagementContext.tsx:288-294 | replaces exactly the car and the record at their indices by their closed forms; the session invariant, and on its own the one-active-car-per-plate part, survive |
| CarManagement.CarManager.ReleaseSpot | src/contexts/CarManagementContext.tsx:275-278 | a present, non-empty spot id becomes available and stamped; otherwise the spots are unchanged; the layout invariant is kept |
| CarManagement.CarManager.CheckIn | src/contexts/CarManagementContext.tsx:161-225 | a refused check-in changes nothing; otherwise the new car and record are appended, the spot becomes occupied, the selected building's occupancy is adjusted; the layout and registry invariants are kept, at most one active car per plate is kept, and the session invariant is kept when no earlier car has the id `CarId(now)` |
| CarManagement.CarManager.CheckOut | src/contexts/CarManagementContext.tsx:227-303 | a refused check-out changes nothing; otherwise exactly the car and its record are closed, the spot freed when set, the occupancy adjusted; all three invariants are kept, and at most one active car per plate is kept on its own |
| MainLayout.PageTitleAt | src/layouts/MainLayout.tsx:16-20 | the title has one character per character after the first; each '-' becomes ' ', each segment's first character is upper-cased, the rest unchanged |
| MainLayout.PageTitleWords | src/layouts/MainLayout.tsx:19 | the title's words are the capitalised dash segments, one more than the number of dashes |
| MainLayout.RootTitle | src/layouts/MainLayout.tsx:18 | "/" is "Dashboard" |
| MainLayout.TitleOfTwoWords | src/layouts/MainLayout.tsx:19 | a two-segment path becomes its two capitalised words with one space |
| MainLayout.CarManagementTitle | src/layouts/MainLayout.tsx:16-20 | "/car-management" is "Car Management" |
| MainLayout.ApiDocumentationTitle | src/layouts/MainLayout.tsx:16-20 | "/api-documentation" is "Api Documentation" |
| FeatureBadge.FormatFeatureNameAt | src/components/ui/FeatureBadge.tsx:14-19 | length kept, no '_' left, each '_' becomes ' ', each segment's first character upper-cased, the rest unchanged |
| FeatureBadge.FormatFeatureNameWords | src/components/ui/FeatureBadge.tsx:15-18 | the label's words are the capitalised underscore segments, as many as there are segments |
| FeatureBadge.FormatTwoWords | src/components/ui/FeatureBadge.tsx:15-18 | a two-segment name becomes its two capitalised words with one space |
| FeatureBadge.FormatOneWord | src/components/ui/FeatureBadge.tsx:15-18 | a name without '_' is just capitalised |
| FeatureBadge.FormatEvCharging | src/components/ui/FeatureBadge.tsx:14-19 | "ev_charging" is "Ev Charging" |
| FeatureBadge.FormatHandicap | src/components/ui/FeatureBadge.tsx:14-19 | "handicap" is "Handicap" |
| FeatureBadge.FeatureClass | src/components/ui/FeatureBadge.tsx:21-26 | the four known features get their own classes, and the neutral default is returned exactly for every other name |

## Left out

- Rendering, forms, routing, toasts and icons. Everything outside the six source files cited in the table is presentation.
- `isLoading` flags, `async`/`Promise` wrappers, `try`/`finally` and console output. Every operation is one atomic, sequential update. React batching and stale closures are not modelled.
- The `useState` initialiser at `LayoutContext.tsx:121-138`, which selects a first floor and bay as a side effect. The layout starts with no selection.
- The randomised sample-spot generator at `LayoutContext.tsx:77-103`. A fixed list of one spot per bay stands in for it, using the spot id scheme and the checked-in cars' spots.
- `Date.now()` and `new Date()`. The current time and today's midnight are parameters. ISO timestamp strings are integer milliseconds. The ids built from the time are modelled as the decimal printing of that integer.
- Case mapping covers ASCII letters only: `toUpperCase` and `toLowerCase` on other characters, such as 'ß', are the identity here. Strings are sequences of characters, not UTF-16 code units.
- `featureClasses` lookups of inherited object keys such as `"constructor"` are not modelled. Any name other than the four features gets the default class.
- CarManagement.CheckIn: the source reads the clock three times, for the car id, the check-in time and the record id. The model uses one `now` for all three.
- CarManagement.CheckOut: the source reads the clock twice, once for the check-out time and once for the fee. The model uses one `now` for both.
- Floor, bay and spot numbers are JavaScript numbers; the model uses integers. Fractional numbers, and the way the search at `SpotManagementContext.tsx:99-104` prints them (such as "1.5"), are not modelled.
- SpotManagement.NextStatus: the `default` arm of the status switch cannot be reached for a spot status, so it is not modelled.
- Layout.QueriesSpec: states sortedness and permutation but not the stability of the sort. The sort used is stable.
- Sequence and string helpers in `seqs.dfy` and `text.dfy` have no row. Their lemmas are used only through the rows above.
