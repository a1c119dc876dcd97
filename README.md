# Cargo load optimizer: packing core

A model in Dafny of the packing engine of a browser-based cargo load optimizer.
The user defines items: boxes or cylinders, with dimensions, weight, quantity,
a "non-stackable" flag and the axes about which a unit may be turned. The user
also picks a container size, a payload limit, one or two containers and a
strategy:

- **First Fit Decreasing (FFD)** commits the first valid position found.
- **Best Fit Decreasing (BFD)** commits the valid position whose anchor is
  furthest back, left and down.

The model covers:

- the effective bounding box of a unit under quarter-turn rotations
  (`getEffectiveDimensions`);
- the orientations a unit may take (`generateOrientationsToTry`);
- the anchor points tried for a new unit;
- the placement validator (`checkPlacementValidity`): container bounds, no
  overlap, support from below, and non-stackable tops;
- both strategies (`packItemsFFDAlgorithm`, `packItemsBFDAlgorithm`) over one
  container, including the per-container report of units they could not place;
- the orchestration in `handleOptimizeLoad`:
  - input checks;
  - expansion of items into units;
  - the dimensional pre-filter;
  - one attempt per container on the units still to pack;
  - the leftover entries;
  - the final report merge (`consolidateFinalUnplacedReport`);
- the display helpers `getRotationPreferencesText` and `rgbToHex`;
- the spreadsheet boolean parser `parseBooleanFlexible`;
- the local-storage item cache (`loadItemsFromLocalStorage`,
  `saveItemsToLocalStorage`).

Modules, one per file, in dependency order:

| module | file | contents |
|---|---|---|
| `Util` | util.dfy | options and results, first-occurrence de-duplication, `join`, decimal rendering, sums |
| `Geometry` | geometry.dfy | items, Euler XYZ quarter turns, effective dimensions |
| `Orientations` | orientations.dfy | the orientation enumerator |
| `Layout` | layout.dfy | points, containers, units, placement records, the mesh-centre / local-base conversion |
| `Validity` | validity.dfy | the placement validator |
| `Anchors` | anchors.dfy | anchor generation: raw points, lexicographic sort, de-duplication |
| `Search` | search.dfy | the per-unit search of both strategies over (orientation, anchor) pairs |
| `Report` | report.dfy | the per-container report map and the final consolidation by item name |
| `Packing` | packing.dfy | the unit order and one container attempt, over an `array<bool>` of `placed` flags |
| `Prefilter` | prefilter.dfy | expansion into units and the dimensional pre-filter |
| `Optimize` | optimize.dfy | the container loop, leftovers, totals and input errors |
| `Display` | display.dfy | rotation-preference label, RGB to `#RRGGBB` |
| `Storage` | storage.dfy | `parseBooleanFlexible`, loading and saving the item cache |

Numbers are exact `real`s. The source compares with two small tolerances:
`EPSILON_VALIDITY` in the validator and `EPSILON_PACK` elsewhere. The model
takes each of them to its limit 0+:

- `|a - b| < eps` becomes `a == b`;
- `a < b - eps` becomes `a < b`;
- `x > m + eps` becomes `x > m`;
- `area > eps` becomes `area > 0`.

A literal zero tolerance would not work: the anchor de-duplication (`< 0`) and
the support test (`|..| < 0`) could then never succeed. The limit reading is
therefore the exact counterpart of the tolerant code.

A rotation is `Rotation(x, y, z)`, with each angle `Zero` or `Quarter`. Three.js
applies Euler order 'XYZ', so a point is turned about z first, then y, then x.
The unrotated mesh has extents (length, height, width) on (x, y, z) for a box
and (diameter, height, diameter) for a cylinder. Effective dimensions are
`Dims(l, w, h)`, where `l` is the x extent, `w` the z extent and `h` the y
extent.

The container loop is modelled over an abstract attempt
`AttemptFn = (nat, seq<Instance>) -> PackState`. The lemmas about the loop hold
for any attempt that:

- tags its units with its container;
- takes them from its pool;
- leaves a valid packing of the weight it reports.

`Optimize.StrategiesAreGood` proves both strategies are such attempts.

## Model

| member | source | states |
|---|---|---|
| `Geometry.EffectiveDimensionsRearrange` | src/index.tsx:1243-1262 | For every rotation, a box's effective dimensions are a permutation of (length, width, height) and a cylinder's of (diameter, diameter, height). |
| `Geometry.CylinderTurnAboutOwnAxis` | src/index.tsx:1243-1262 | A quarter turn about y, the cylinder's own axis, does not change its bounding box. |
| `Geometry.CylinderKeepsDiameterTwice` | src/index.tsx:1243-1262 | Under any rotation, a cylinder's height lies on one axis and its diameter on the other two. |
| `Geometry.Max3` | src/index.tsx:1459-1460 | `Math.max` of three numbers: at least each of them and equal to one of them. |
| `Orientations.GenerateOrientations` | src/index.tsx:1413-1447 | The identity comes first, no orientation repeats, and a cylinder gets at most 4 orientations. |
| `Orientations.OrientationsArePermitted` | src/index.tsx:1427-1445 | A rotation is listed exactly when the unit's shape and allowed axes permit it: the single turns on allowed axes, the identity, and for a box also the paired turns on two allowed axes. |
| `Orientations.FullyRotatableBox` | src/index.tsx:1427-1440 | A box free on all three axes gets exactly 7 orientations: identity, x, y, z, xy, xz, yz. |
| `Orientations.FullyRotatableBoxReachesEveryArrangement` | src/index.tsx:1429-1440 | Those 7 orientations give all six arrangements of (length, width, height). |
| `Orientations.NoRotationAllowed` | src/index.tsx:1427-1445 | With no axis allowed, the only orientation is the identity. |
| `Layout.LocalBaseRoundTrip` | src/index.tsx:1383-1390 | Converting a base corner to the mesh centre and back, as the validator and anchor code do, gives the same corner. The model therefore stores base corners directly. |
| `Validity.CheckPlacementValidity` | src/index.tsx:1265-1353 | An accepted box lies inside the container and overlaps no existing unit. If it is off the floor, it rests with positive contact area on a stackable unit. |
| `Validity.SupportScanExactly` | src/index.tsx:1314-1350 | The support loop succeeds exactly when some unit supports the new box and no non-stackable unit it touches comes earlier in the list. |
| `Validity.NonStackableNeverSupports` | src/index.tsx:1327-1333 | A non-stackable unit that would support the box always blocks it instead. |
| `Validity.SupportDependsOnPlacementOrder` | src/index.tsx:1316-1349 | A concrete case where the verdict depends on list order. A box resting half on a stackable unit and half on a non-stackable one is accepted when the stackable unit was placed first, and rejected otherwise. |
| `Validity.ValidPackingSnoc` | src/index.tsx:1517-1522 | A unit accepted against the units already placed extends a valid packing. |
| `Validity.ValidPackingInvariants` | src/index.tsx:1265-1353 | In a valid packing, every unit is inside the container and no two units overlap. Every unit off the floor rests on an earlier stackable unit. |
| `Validity.AcceptedBoxFitsContainer` | src/index.tsx:1282-1289 | An accepted box's dimensions do not exceed the container's. |
| `Anchors.RawAnchorsExactly` | src/index.tsx:1488-1501 | A point is a raw anchor exactly when some placed unit contributes it: its right face, its front face, or (only for a stackable unit) its top. |
| `Anchors.SortPoints` | src/index.tsx:1502-1506 | The anchor sort returns a permutation of its input, ordered by x, then y, then z. |
| `Anchors.LexTotal` | src/index.tsx:1502-1506 | The anchor order is total and antisymmetric. |
| `Anchors.DedupOfSorted` | src/index.tsx:1508-1514 | De-duplicating a sorted list keeps the first of each equal run, so the result is strictly sorted. |
| `Anchors.CandidateAnchorsExactly` | src/index.tsx:1485-1514 | The anchor list holds the origin and exactly the contributed points. |
| `Anchors.CandidateAnchorsSorted` | src/index.tsx:1485-1514 | The anchor list is strictly sorted, has no duplicates and contains the origin. |
| `Anchors.OriginFirst` | src/index.tsx:1485-1506 | When every placed unit has non-negative coordinates, the origin is the first anchor. |
| `Anchors.GenerateAnchors` | src/index.tsx:1598-1623 | The loop builds the same list as the specification function: the origin included and strictly sorted. |
| `Search.SearchSpec` | src/index.tsx:1474-1534 | A committed pair passes the validator and keeps the payload within the limit. It uses a permitted orientation with its effective dimensions and a generated anchor. Nothing is committed exactly when the payload would be exceeded or no pair passes. |
| `Search.FirstFitIsFirst` | src/index.tsx:1474-1533 | First fit commits the first passing pair in trial order: orientations in list order, anchors in list order within each. |
| `Search.BestFitIsSmallest` | src/index.tsx:1625-1638 | No passing pair has an anchor lexicographically smaller than best fit's choice. |
| `Search.BestFitKeepsEarliest` | src/index.tsx:1587-1640 | Best fit keeps the earliest of equally small anchors: every passing pair tried before its choice has a strictly larger anchor. |
| `Search.FirstFitOverAnchors` | src/index.tsx:1516-1532 | The anchor loop of one orientation stops at the first accepted anchor. |
| `Search.FirstFitSearch` | src/index.tsx:1474-1534 | The nested loops compute the first-fit choice. |
| `Search.BestFitOverAnchors` | src/index.tsx:1625-1638 | The anchor loop of one orientation replaces the best pair only by a strictly smaller anchor. |
| `Search.BestFitSearch` | src/index.tsx:1587-1640 | The nested loops compute the best-fit choice. |
| `Report.UpsertSpec` | src/index.tsx:1538-1542 | Writing a report key sets its count to 1 and its reason to the new one, and keeps the first name. Other keys keep their values, and the key order is the order of first insertion. |
| `Report.ConsolidateSpec` | src/index.tsx:1746-1761 | The report of a consolidation that completes (no name is inherited from `Object.prototype`; see `Report.ConsolidateReport`) has one entry per item name, in first-seen order. Each quantity is the sum for that name. Each reason is that name's distinct reasons, in first-seen order, joined with "; ". |
| `Report.ConsolidateKeepsTotal` | src/index.tsx:1748-1755 | Consolidation keeps the total quantity. |
| `Report.ConsolidateReport` | src/index.tsx:1746-1761 | The loop throws exactly when some entry's item name is a property every object inherits from `Object.prototype` (`constructor`, `toString`, `__proto__`, ...). Otherwise it computes the consolidation function. |
| `Report.ThrowsOnName` | src/index.tsx:1748-1754 | Whether consolidation throws depends only on the set of item names reported. |
| `Packing.SortOrderSpec` | src/index.tsx:1455-1462 | The unit order is a permutation of the input positions. Units are sorted by volume, then largest dimension, both decreasing, and ties keep input order. |
| `Packing.FirstIndexWithId` | src/index.tsx:1526 | `find` by id returns the first unit with that id, or none when no unit has it. |
| `Packing.ReasonForSpec` | src/index.tsx:1537 | The reason is the weight-limit text exactly when the payload would be exceeded. |
| `Packing.PackStepSkipsPlaced` | src/index.tsx:1470 | A unit already marked placed is skipped and nothing changes. |
| `Packing.PackStepGrows` | src/index.tsx:1518-1524 | A commit appends exactly that unit, tagged with this container. Otherwise the placed list is unchanged. |
| `Packing.PackStepMarks` | src/index.tsx:1526-1527 | A commit sets the flag of the first input unit with the same id and no flag of another id. |
| `Packing.PackStepReports` | src/index.tsx:1536-1543 | An uncommitted unit is written under its own key with count 1. It gets the weight reason exactly when the payload would be exceeded. Other keys are unchanged. |
| `Packing.PackRunInvariant` | src/index.tsx:1469-1544 | Throughout an attempt, the units form a valid packing tagged with the container. The weight is their sum and stays within the payload limit. |
| `Packing.CommittedMatchesPlaced` | src/index.tsx:1469-1534 | The committed input positions and the placed units correspond one to one, in order. |
| `Packing.CommittedAtMostOnce` | src/index.tsx:1469-1534 | No input position is committed twice. |
| `Packing.PlacedOnlyGrows` | src/index.tsx:1522 | Every earlier placed list is a prefix of every later one. |
| `Packing.PackUnit` | src/index.tsx:1470-1543 | One pass of the outer loop, in place on the flag array, equals one step of the specification. |
| `Packing.PackContainer` | src/index.tsx:1449-1554 | The whole attempt equals the specification run over the sorted order: flags, placed units, report and weight. |
| `Prefilter.ExpandExactly` | src/index.tsx:1825-1833 | The units are exactly, for each item, ids `<id>_instance_<i>` for i below the loop count. |
| `Prefilter.CanFitDimensionally` | src/index.tsx:1835-1843 | The loop's verdict is true exactly when some permitted orientation fits the container's dimensions. |
| `Prefilter.OversizedNeverPlaced` | src/index.tsx:1835-1843 | A unit that fits in no permitted orientation is never committed by either strategy. |
| `Prefilter.PreFilterKeeps` | src/index.tsx:1844-1845 | The kept units are exactly the input units that fit in some orientation. |
| `Prefilter.PreFilterReports` | src/index.tsx:1846-1851 | Every dropped unit is reported under its own key with count 1. |
| `Prefilter.ExpandItem` | src/index.tsx:1826-1852 | The per-item loop equals the filter over that item's units. |
| `Prefilter.ExpandAndFilter` | src/index.tsx:1823-1853 | The nested loops equal the pre-filter of the expansion. |
| `Optimize.RemovePackedSpec` | src/index.tsx:1892-1893 | The pool keeps exactly those units whose ids were not just packed. |
| `Optimize.StrategiesAreGood` | src/index.tsx:1881-1885 | Both strategies tag units with their container, commit units from their pool and leave a valid packing within the payload. |
| `Optimize.ContainerRunShape` | src/index.tsx:1865-1888 | After n containers there are n weights, and every packed unit names one of those containers. |
| `Optimize.ContainerRunValidAt` | src/index.tsx:1865-1894 | Later containers leave each container's units and weight untouched. Each container is a valid packing, its weight is their sum and it is within the payload. |
| `Optimize.ContainerRunPoolFrom` | src/index.tsx:1865-1894 | The pool only shrinks, and every packed unit came from the starting pool. |
| `Optimize.ContainerRunFresh` | src/index.tsx:1892-1893 | No id already packed is left in the pool. |
| `Optimize.ContainerRunDistinct` | src/index.tsx:1865-1894 | No id is packed into two containers. |
| `Optimize.ContainerTurn` | src/index.tsx:1866-1893 | One pass of the container loop equals one step of the specification. |
| `Optimize.RunContainers` | src/index.tsx:1865-1894 | The container loop equals the specification run. |
| `Optimize.ReportLeftovers` | src/index.tsx:1897-1899 | Each unit still in the pool adds one entry with quantity 1 and the "not packed" reason. |
| `Optimize.TotalWeight` | src/index.tsx:1902 | The total weight is the sum of the per-container weights. |
| `Optimize.PackedUnitsFit` | src/index.tsx:1835-1894 | Every packed unit comes from the expansion and fits in some orientation, so pre-filter drops never enter an attempt. |
| `Optimize.PipelineContainers` | src/index.tsx:1855-1902 | One weight per container and the total is their sum. Each container is valid and within the payload, and no id is in two containers. |
| `Optimize.PipelineReport` | src/index.tsx:1855-1901 | When the run completes, the final report names every leftover unit's item once, in first-seen order, and keeps the total quantity. |
| `Optimize.OptimizeLoad` | src/index.tsx:1800-1949 | Non-positive container dimensions give the dimension error, and an empty item list gives the no-items error. A throw in consolidation gives the "Error during ... packing" message of the `catch`. Otherwise the result is the pipeline's. |
| `Optimize.OptimizeOutcome` | src/index.tsx:1800-1949 | The run fails exactly on a non-positive container dimension, an empty item list, or an unplaced unit whose item name is inherited from `Object.prototype`. Each cause gives its own message. A run that completes reports no inherited name. |
| `Display.RotationTextCases` | src/index.tsx:843-849 | The label is "No Rotation" exactly when no axis is allowed, and otherwise starts with "Allow: ". |
| `Display.RotationTextRoundTrip` | src/index.tsx:843-849 | The allowed axes can be read back from the label. |
| `Display.RgbToHexShape` | src/index.tsx:876-878 | For channels 0..255, the code is '#' followed by six upper-case hexadecimal digits. |
| `Display.RgbHexRoundTrip` | src/index.tsx:876-878 | Reading the code back gives the three channels. |
| `Storage.ParseBooleanTemplate` | src/index.tsx:2315-2326 | The template's "TRUE"/"FALSE" and the other accepted spellings ("Yes"/"No", native booleans, the numbers 1/0) read as the boolean they stand for. |
| `Storage.ParseBooleanPadded` | src/index.tsx:2317-2319 | Surrounding white space does not change the result. |
| `Storage.ParseBooleanIgnoresCase` | src/index.tsx:2318 | Letter case does not change the result. |
| `Storage.LoopCount` | src/index.tsx:1826 | For a positive quantity q, the expansion loop runs k times, where k is the least integer with q <= k. |
| `Storage.ToItem` | src/index.tsx:569-585 | A restored item has positive dimensions, non-negative weight and quantity at least 1. It keeps the entry's id and name. |
| `Storage.FilterStoredItems` | src/index.tsx:567-593 | The loop keeps the valid entries in order. It asks for a rewrite exactly when some entry is invalid. |
| `Storage.StoredItemsDropped` | src/index.tsx:588-593 | The filter never grows the list, and keeps every entry exactly when all are valid. |
| `Storage.LoadItems` | src/index.tsx:554-600 | No entry leaves everything alone. Unparsable text or a non-array clears the cache and keeps the list. An array replaces the list with its valid entries and rewrites the cache exactly when some were dropped. |
| `Storage.SavedItemRestores` | src/index.tsx:546-549 | A saved item with positive dimensions and quantity passes the load-time test and is restored unchanged. |
| `Storage.SaveLoadRoundTrip` | src/index.tsx:546-593 | Loading a saved list of such items gives the same list. Nothing is dropped, so the cache is not rewritten. |

## Left out

- Rendering: Three.js meshes, colours, edges, camera and world offsets
  (`containerWorldOffsetX`). The offset cancels out of every placement
  decision (`Layout.LocalBaseRoundTrip`).
- `placeAndRecordItem` without a scene (`if (!scene) return`): the model
  assumes the scene exists, so every committed unit has a mesh position and
  counts as an obstacle and an anchor source.
- The `await` yields between commits. They only let the browser repaint.
- Floating point: the model uses exact reals with the tolerances taken to
  their limit, as described above. Rounding effects of the tolerant
  comparisons are not captured.
- `Report.ConsolidateSpec`: the key order of the JavaScript object used as a
  map in `consolidateFinalUnplacedReport` puts integer-like names first. The
  model uses first-seen order for every name. Names inherited from
  `Object.prototype` are modelled: they make the run fail
  (`Report.ConsolidateReport`, `Optimize.OptimizeOutcome`).
- `Optimize.OptimizeLoad`: the `catch` at src/index.tsx:1946-1949 also clears
  the scene and the report. Only its message is modelled. A failed
  consolidation may already have written to a prototype object's `quantity`.
  That side effect lasts across runs and is not modelled.
- The orientation key's `toFixed(4)` rounding. Angles are 0 or pi/2, so
  equal keys mean equal rotations.
- The number of containers is any natural number. The page offers 1 or 2,
  and that choice only affects the world offset.
- Reading inputs from the DOM, including the payload default 999999 and
  `NaN` checks, the trial counter, sign-in, the HTML summary and the
  rendering of the report. `OptimizeLoad` receives parsed numbers.
- `Array.prototype.sort` is modelled as a stable insertion sort.
  `Packing.SortOrderSpec` states the order, which is stable.
- Spreadsheet import other than `parseBooleanFlexible`, exports, the PDF
  report, AI tips and the backend: outside the packing core.
- `Storage.ParseBooleanFlexible`: `toLowerCase` is modelled on ASCII letters
  only. No non-ASCII character lower-cases into one of the accepted
  spellings, so the verdict is the same.
- `Storage.LoadItems`: text-level JSON parsing is not modelled. The method
  receives the parse outcome. The errors `localStorage` itself may throw,
  which the outer `try` swallows, are left out. A restored item's extra
  properties, which `rawItem as Item` keeps, are dropped.
- `Storage.ToItem`: a fractional quantity is stored as the loop count it
  produces (the smallest integer at least as large) rather than as the number
  itself.
- `Display.RgbToHex`: only channels 0..255 are modelled, which is the range
  its caller produces. Larger values would carry into the next channel.
