# atip-data-prep, modelled in Dafny

This project models the data preparation behind the ATIP map layers. The programs turn OpenStreetMap tags and third-party datasets into GeoJSON layers and vector-tile inputs. The model covers the in-memory logic of these programs. Each core source file is one Dafny module:

- **OSM tag classifiers.** The cycle-infrastructure classifier gives the kind, direction and width of a way (layers/cycle_paths.py, `CyclePaths`). The bus-lane detector and the property callbacks of the OSM layers are in layers/osm.py (`OsmLayers`). The UK crossing classifier and its node and way pass are in crossings/src/main.rs (`Crossings`).
- **The GeoJSON normaliser** of layers/utils.py (`GeoJson`). `trimPrecision` rounds every float leaf and rejects any other leaf. `cleanUpGeojson` replaces the properties, trims the coordinates and numbers the features 1, 2, 3, … in place.
- **Osmium extract batching** (geojson_to_osmium_extracts.py and generate_tiles.py, `OsmiumExtracts`). It yields one extract per feature, in configs of at most `batch_size` extracts, with one last config always written. Also the square-tile features of generate_tiles.py.
- **The busiest hour at each stop** (bus_frequency/src/main.rs, `BusFrequency`): a sliding window over sorted arrival times. Also GTFS reading and the bucketing of arrival times by weekday (bus_frequency/src/gtfs.rs, `Gtfs`).
- **Way splitting and route gluing.** Ways are split at shared nodes in gradient/src/main.rs (`Gradient`). Route member ways are glued end to end in osm_routes/src/main.rs (`OsmRoutes`).
- **Record joins and filters:**
  - STATS19 collisions and casualties (`Stats19`);
  - DfT traffic counts (`Traffic`, `VehicleCounts`, over the CSV rows of `CsvRows`);
  - census tables and output areas (`Census`);
  - boundary clean-up (`Boundaries`);
  - the Ordnance Survey width, pavement-width and speed layers (`OsFields`, `OsWidth`, `OsPavementWidth`, `OsSpeed`);
  - the vector-tile road filter (`OsGeometry`);
  - matching local authority districts to transport authorities (`FixBoundaries`);
  - scheme records (`Schemes`);
  - the DALOG spreadsheet conversion (`Dalog`);
  - point-of-interest property pruning (`Pois`);
  - per-district file naming (`Aiuk`).

Shared modules:

- `Outcomes` holds Option, Result and the failures.
- `Json` holds JSON values.
- `Text` holds string operations.
- `Arith` holds integer facts and half-even rounding on reals.
- `Sorting` holds the sortedness and permutation facts behind `Vec::sort`.

Conventions:

- A Python exception, a Rust panic or `?` error, or a JavaScript throw is an `Err` value of `Result`. Preconditions never stand in for them.
- Integers are unbounded. Where the source casts a float to a machine width (`as usize`, `as isize`), the cast's saturation is written out. Arithmetic on the cast value is not bounded (see `OsPavementWidth.NewRoad` under "## Left out").
- Floating-point numbers are exact reals.
- Operations that work by updating state are methods with loop invariants. Each is proved equal to a recursive specification function, and the properties are proved as lemmas about that function.

`cleanUpGeojson` (layers/utils.py:41-61) keeps every feature and every top-level member of the document: it filters no feature and deletes no metadata. The boundary layers delete top-level keys themselves (`Boundaries`).

## Model

| member | source | states |
|---|---|---|
| Aiuk.SanitiseNameMeaning | experimental/aiuk_ltn_imports.py:13 | the three chained replacements rename the name character by character: the result holds no space, hyphen or apostrophe and is shorter than the name by exactly its number of apostrophes |
| Aiuk.SanitiseNameIdempotent | experimental/aiuk_ltn_imports.py:13 | sanitising an already sanitised name leaves it unchanged |
| Aiuk.ExportsOk | experimental/aiuk_ltn_imports.py:11-13 | the script gets through the features exactly when every feature has a `level` and every district has a string `name`; otherwise it stops with KeyError or AttributeError |
| Aiuk.ExportsMeaning | experimental/aiuk_ltn_imports.py:11-15 | a successful run writes exactly the features whose level is "LAD", in input order, each one to `aiuk_boundaries/<sanitised name>.geojson` |
| Aiuk.ExportDistricts | experimental/aiuk_ltn_imports.py:11-15 | the loop over the features returns the same file list, or the same first error, as the specification function `Exports` |
| Schemes.Rekey | all_schemes_geojson_prep/index.ts:5-14 | the new dictionary has exactly the keys of `schemes` |
| Schemes.RekeyRoundTrip | all_schemes_geojson_prep/index.ts:8-13 | nothing is lost: reading back the `browse` field of every record gives the original `schemes` dictionary |
| Schemes.RekeyRecords | all_schemes_geojson_prep/index.ts:8-13 | each record has exactly the fields `scheme_name`, `scheme_reference` and `browse`, and both names equal the key it is stored under |
| Schemes.PrepareSchemes | all_schemes_geojson_prep/index.ts:6-16 | a missing or non-object `schemes` fails with TypeError and changes nothing; otherwise only `schemes` is replaced, by the re-keyed dictionary, and the features and every other top-level member are unchanged |
| Pois.NameOnly | pois/generate_pois.py:81-85 | the kept properties hold at most `name`; `name` is kept exactly when it is present and truthy, and then with its original value |
| Pois.NameOnlyIdempotent | pois/generate_pois.py:81-85 | reducing the properties twice gives the same as reducing them once |
| Pois.RemoveAll | pois/generate_pois.py:79-85 | one output feature per input feature, in order, each differing from its input only in its reduced properties |
| Pois.RemoveAllIdempotent | pois/generate_pois.py:74-88 | running the clean-up on its own output changes nothing |
| Pois.RemoveExtraProperties | pois/generate_pois.py:74-85 | the in-place loop leaves the document's other members unchanged and its features equal to `RemoveAll` of the old features |
| OsFields.FieldAsDouble | ordnance_survey_layers/src/width.rs:7-8 | reading a field that does not exist fails; an unset field reads as no value; a real field reads as its value |
| OsFields.FieldAsString | ordnance_survey_layers/src/width.rs:26 | reading a field that does not exist fails; an unset field reads as no value; a string field reads as its text |
| OsFields.FieldAsInteger | ordnance_survey_layers/src/speed.rs:8-10 | reading a field that does not exist fails; an unset field reads as no value; an integer field reads as its value |
| OsWidth.RoadWidths | ordnance_survey_layers/src/width.rs:3-18 | the reads succeed exactly when both width fields can be read, and the first failing read's error is returned; there is a pair of widths exactly when both are set, and then it is (average, minimum) |
| OsWidth.RoadWidthProperties | ordnance_survey_layers/src/road_width.rs:3-18 | fails exactly when a read fails, with that error; returns true exactly when both widths are set, and then the output gains `average` and `minimum` and nothing else; otherwise the output is unchanged |
| OsWidth.PavementWidths | ordnance_survey_layers/src/width.rs:20-42 | the reads succeed exactly when the average, minimum and side fields can all be read |
| OsWidth.PavementWidthsKept | ordnance_survey_layers/src/width.rs:28-37 | a pavement is kept exactly when its average, minimum and side are all set and the two widths are not both zero; a kept pavement carries (side, average, minimum) |
| OsWidth.BothZeroDropped | ordnance_survey_layers/src/width.rs:29-32 | a pavement whose average and minimum widths are both zero is not kept |
| OsWidth.PavementWidthProperties | ordnance_survey_layers/src/width.rs:20-42 | fails exactly when a read fails, with that error; returns true exactly when the pavement is kept, and then the output gains `side`, `average` and `minimum` and nothing else; otherwise the output is unchanged |
| OsSpeed.BandAt | ordnance_survey_layers/src/speed.rs:21-32 | band `2 * t + d` of the nested loop reads the field `averagespeed_{time}{direction}_kph` and is described as `{time} / {direction}` |
| OsSpeed.ScanMax | ordnance_survey_layers/src/speed.rs:21-36 | a band recorded as the maximum is one of the bands already scanned |
| OsSpeed.ScanMaxFails | ordnance_survey_layers/src/speed.rs:28 | the scan fails exactly when the read of some band fails |
| OsSpeed.ScanMaxMeaning | ordnance_survey_layers/src/speed.rs:28-34 | the scan finds nothing exactly when no band is set; otherwise it finds a speed no band exceeds, held by its band, and every earlier band is strictly slower (the first band with the greatest speed wins) |
| OsSpeed.HighestSpeedMeaning | ordnance_survey_layers/src/speed.rs:38-46 | on success the description is that of the band holding the maximum, and the worst speed is within 0.5 of the maximum divided by 3.6 whenever that quotient lies in the `usize` range |
| OsSpeed.NoSpeedPanics | ordnance_survey_layers/src/speed.rs:39 | when no band is set, `highest_speed` panics on unwrapping `None` |
| OsSpeed.ReadBand | ordnance_survey_layers/src/speed.rs:26-28 | one read of the inner loop is the speed of band `2 * t + d`, described by that band's description |
| OsSpeed.ScanBand | ordnance_survey_layers/src/speed.rs:26-34 | one turn of the inner loop either returns the scan's error or keeps the running maximum and key in step with the scan |
| OsSpeed.ScanTime | ordnance_survey_layers/src/speed.rs:25-35 | the two directions of one time band leave the running maximum in step with the scan, or return the scan's error |
| OsSpeed.HighestSpeedScan | ordnance_survey_layers/src/speed.rs:18-42 | the nested loop returns exactly the specification `HighestSpeed`, errors and panic included |
| OsSpeed.MissingIndicativePanics | ordnance_survey_layers/src/speed.rs:8-10 | once some band is set, an unset indicative limit panics on unwrapping `None` |
| OsSpeed.SpeedProperties | ordnance_survey_layers/src/speed.rs:3-16 | fails exactly when the highest-speed scan or the indicative read fails or panics, leaving the output unchanged; otherwise the output gains exactly `indicative_mph`, `worst_mph` and `worst_description` |
| Arith.RoundHalfAway | ordnance_survey_layers/src/speed.rs:39 | `f64::round`: the result is within 0.5 of the input, and a tie goes away from zero |
| Arith.SaturateUsize | ordnance_survey_layers/src/speed.rs:39 | the `as usize` cast: the result lies in the `usize` range and equals the input when the input does |
| Arith.SaturateIsize | ordnance_survey_layers/src/pavement_width.rs:68 | the `as isize` cast: the result lies in the `isize` range, equals the input when the input does, and is the nearer bound otherwise |
| OsPavementWidth.Trim | ordnance_survey_layers/src/pavement_width.rs:112-114 | `trim_f64` moves a coordinate by at most half of its last kept decimal place |
| OsPavementWidth.NewRoad | ordnance_survey_layers/src/pavement_width.rs:51-80 | a road is made exactly from a non-empty line string; a missing geometry panics on unwrap and any other geometry panics with "Not a LineString"; the road has the trimmed points, no sides set, and an angle in [0, 360) whenever the bearing is in [-180, 180]; the rounded bearing is cast `as isize` with saturation |
| OsPavementWidth.ReadEntry | ordnance_survey_layers/src/pavement_width.rs:36-50 | a failed width read returns its error; a feature without all data, or with both widths zero, is passed over; an unset `roadlinkid` panics with "missing roadlinkid"; a kept feature carries its id, side and widths as read |
| OsPavementWidth.JoinStepMeaning | ordnance_survey_layers/src/pavement_width.rs:33-86 | one turn of the join: a passed-over feature changes nothing; otherwise only the feature's road changes, and it is made from this feature when new; a side of "Right" sets `right`, any other side sets `left`, and the other side is kept |
| OsPavementWidth.JoinKeys | ordnance_survey_layers/src/pavement_width.rs:29-86 | the joined roads are keyed by exactly the road link ids of the kept features, and every joined road has at least one side set |
| OsPavementWidth.JoinFirst | ordnance_survey_layers/src/pavement_width.rs:51-80 | a road's geometry and angle are those made from the first kept feature with its id (`or_insert_with` runs once) |
| OsPavementWidth.JoinLast | ordnance_survey_layers/src/pavement_width.rs:81-85 | a road's side holds the widths of the last kept feature for that id and side |
| OsPavementWidth.JoinUnset | ordnance_survey_layers/src/pavement_width.rs:77-85 | a side that no kept feature of the road sets stays unset |
| OsPavementWidth.AnglesInRange | ordnance_survey_layers/src/pavement_width.rs:62-69 | every joined road's angle lies in [0, 360) when bearings lie in [-180, 180] |
| OsPavementWidth.JoinFailsAt | ordnance_survey_layers/src/pavement_width.rs:36-56 | the first failing feature ends the whole join with its error |
| OsPavementWidth.MissingLinkIdPanics | ordnance_survey_layers/src/pavement_width.rs:48-50 | a kept feature with an unset `roadlinkid` ends the run with the "missing roadlinkid" panic |
| OsPavementWidth.NotLineStringPanics | ordnance_survey_layers/src/pavement_width.rs:62-72 | the first kept feature of a new road whose geometry is not a line string ends the run with the "Not a LineString" panic |
| OsPavementWidth.RoadProperties | ordnance_survey_layers/src/pavement_width.rs:96-105 | the output properties are exactly `angle` plus `left_average`/`left_minimum` when the left side is set and `right_average`/`right_minimum` when the right side is, with the joined values |
| OsPavementWidth.ReadPavements | ordnance_survey_layers/src/pavement_width.rs:29-86 | the reading loop returns exactly the specification `Join` of the features, errors and panics included |
| OsPavementWidth.WriteRoads | ordnance_survey_layers/src/pavement_width.rs:94-107 | one output feature per road, in the given enumeration order of the roads, with its geometry and `RoadProperties` |
| OsPavementWidth.Process | ordnance_survey_layers/src/pavement_width.rs:19-110 | fails exactly when the join fails, with its error; otherwise writes one feature per joined road, in the enumeration order |
| GeoJson.TrimPrecisionShape | layers/utils.py:66-72 | trimming succeeds exactly when the coordinates are a tree of lists with floats at the leaves; the result has the same shape, a float is rounded, and any other leaf raises |
| GeoJson.TrimPrecisionIdempotent | layers/utils.py:66-72 | with a rounding that is idempotent, trimming trimmed coordinates changes nothing |
| GeoJson.CleanAllOk | layers/utils.py:47-59 | the clean-up gets through exactly when every feature's properties callback succeeds and every feature's coordinates are a float tree |
| GeoJson.CleanAllMeaning | layers/utils.py:47-59 | on success there is one feature per input feature, in order; feature `i` gets id `i + 1`, the callback's properties and trimmed coordinates, and keeps its other members and geometry members |
| GeoJson.CleanAllIdsDistinct | layers/utils.py:57-59 | the ids given to two different features differ |
| GeoJson.FeatureCollection.DeleteMember | layers/boundaries.py:53-54 | `del gj[key]` removes the key, and raises KeyError exactly when the key is absent |
| GeoJson.FeatureCollection.CleanUp | layers/utils.py:41-59 | the loop leaves the document's other members unchanged and fails exactly when the specification `CleanAll` fails, with its error; on success the features are those of `CleanAll` |
| Outcomes.AllOk | layers/utils.py:68 | the list comprehension succeeds exactly when every element succeeds, and then holds every value in order; otherwise it fails with the error of the first failing element |
| Boundaries.StartsWithE | layers/boundaries.py:58 | `f["properties"][key][0] == "E"`: a missing code raises KeyError; the test succeeds exactly on a non-empty string or list code, and is true exactly when the first character (or element) is "E" |
| Boundaries.KeepEnglandFails | layers/boundaries.py:57-59 | the England filter gets through exactly when the test succeeds on every feature |
| Boundaries.KeepEnglandMeaning | layers/boundaries.py:57-59 | the kept features are, in their original order, exactly the features whose code starts with "E" |
| Boundaries.RenameAllMeaning | layers/boundaries.py:61-70 | the renaming gets through exactly when every feature has the code and name keys (and float-tree coordinates when trimmed); each output feature then has exactly the renamed code and `name`, trimmed or untouched coordinates, and its id and other members unchanged |
| Boundaries.CleanKeeps | layers/boundaries.py:50-70 | a cleaned layer deletes the layer's top-level keys, filters to England when the layer does, then renames |
| Boundaries.WardsMeaning | layers/boundaries.py:43-70 | wards: `name` and `crs` are deleted and the English wards are kept in order, each with exactly `WD23CD` and `name` (from `WD23NM`) and trimmed coordinates |
| Boundaries.CombinedAuthoritiesMeaning | layers/boundaries.py:77-113 | combined authorities: `name` and `crs` are deleted and every authority is kept in order, with exactly `CAUTH22CD` and `name` (from `CAUTH22NM`), trimmed coordinates and its id |
| Boundaries.LocalAuthorityDistrictsMeaning | layers/boundaries.py:119-160 | local authority districts: `name` and `crs` are deleted and the English districts are kept in order, each with exactly `LAD23CD` and `name` (from `LAD23NM`) and trimmed coordinates |
| Boundaries.LocalPlanningAuthoritiesMeaning | layers/boundaries.py:166-196 | local planning authorities: only `name` is deleted and every authority is kept with exactly `LPA22CD` (from `reference`) and `name`, its geometry untouched |
| Boundaries.RenameFeatures | layers/boundaries.py:61-70 | the in-place loop fails exactly when the specification `RenameAll` fails, with its error; on success the features are those of `RenameAll` and the other members are unchanged |
| Boundaries.CleanLayer | layers/boundaries.py:50-70 | the whole clean-up of one file gives exactly the members and features of the specification `Clean`, or its first error (a missing top-level key, a missing code, a bad coordinate) |
| Outcomes.FilterMeaning | layers/boundaries.py:57-59 | `filter` keeps, in their original order, exactly the elements that pass the test |
| Outcomes.FilterIdempotent | layers/boundaries.py:57-59 | filtering a filtered list again changes nothing |
| Outcomes.TryFilterFails | layers/boundaries.py:57-59 | a filter whose test can raise gets through exactly when the test succeeds on every element |
| Outcomes.TryFilterMeaning | layers/boundaries.py:57-59 | when it gets through, a raising filter keeps the same elements as the plain filter by the test's outcome |
| OsmLayers.AnyKeyExists | layers/osm.py:190-193 | the loop over a list of keys returns true exactly when some key in the list has a value matching the rule |
| OsmLayers.RoadHasBusLaneIff | layers/osm.py:185-225 | a road has a bus lane exactly when some `busway*` key is `lane` or `opposite_lane`, or some `lanes:psv`/`lanes:bus` key (plain, `:forward` or `:backward`) is non-empty and not "0", or some `psv:lanes`/`bus:lanes` key contains "designated", or `access` is "no" and `bus` or `psv` is "yes" or "designated" |
| OsmLayers.AnyKeyAgree | layers/osm.py:190-193 | the key loop depends only on the values of its listed keys |
| OsmLayers.RoadHasBusLaneOnlyListedKeys | layers/osm.py:185-225 | two tag sets that agree on the keys the detector reads get the same answer: no other tag matters |
| OsmLayers.HighwayBuswayAloneIsNotABusLane | layers/osm.py:221-225 | `highway=busway` on its own is not reported as a bus lane |
| OsmLayers.NoListedKeyNoBusLane | layers/osm.py:185-225 | a way without any of the keys the detector reads has no bus lane |
| OsmLayers.PerLaneDesignatedIsABusLane | layers/osm.py:204-212 | `bus:lanes:forward=yes\|designated` is a bus lane |
| OsmLayers.OnlyKeepName | layers/osm.py:76-81 | the output holds at most `name`, exactly when the input name is non-empty, with its value |
| OsmLayers.EducationProps | layers/osm.py:58-66 | the output holds at most `name` and `type`: `name` exactly when the name is non-empty, `type` (the `amenity`) exactly when the amenity is non-empty |
| OsmLayers.BusRouteProps | layers/osm.py:136-140 | the output holds `has_bus_lane: true` exactly when the road has a bus lane, and nothing else |
| OsmLayers.CycleParkingProps | layers/osm.py:168-175 | the output holds `capacity` exactly when the tag is present and parses as an integer, with that integer; missing or unparsable capacities are swallowed |
| OsmLayers.CycleParkingCapacityRoundTrip | layers/osm.py:171 | a capacity written as the decimal text of an integer is read back as that integer |
| OsmLayers.CrossingProps | layers/osm.py:252-260 | `osm_id` is copied exactly when `@id` is present, and `crossing` exactly when both are present, since one `try` guards both copies |
| OsmLayers.TramProps | layers/osm.py:292-295 | the output is exactly `{osm_id: @id}`, and a missing `@id` raises KeyError |
| Text.ParseIntRoundTrip | layers/osm.py:171 | `int(str(n)) == n` for every integer `n` |
| Text.NatToStringRoundTrip | layers/osm.py:171 | the decimal digits of a natural number have that number as their value |
| Text.ParseDigits | layers/osm.py:171 | `int()` of a non-empty string of digits is its decimal value |
| Text.ParseNegative | layers/osm.py:171 | `int()` of "-" followed by digits is minus their decimal value |
| Text.StripLeftMeaning | layers/osm.py:171 | `int()`'s stripping on the left removes a prefix made only of the white space `int()` skips (ASCII tab to carriage return and space, and the non-ASCII `str.isspace` characters) and stops at the first other character |
| Text.StripRightMeaning | layers/osm.py:171 | `int()`'s stripping on the right removes a suffix made only of the white space `int()` skips and stops at the last other character |
| Text.RunDigits | layers/osm.py:171 | a run of digits and separating underscores leaves a non-empty string of digits once the underscores are dropped |
| Text.DigitsRun | layers/osm.py:171 | a non-empty string of plain digits is a well-formed run for `int()` |
| Text.StripNothing | layers/osm.py:171 | `int()`'s stripping leaves alone a string that neither starts nor ends with white space `int()` skips |
| Text.ParseUnderscore | layers/osm.py:171 | an underscore between two digits is a separator: `int("1_000")` reads as `int("1000")`, the decimal value of the digits |
| Text.ParseUnderscoreMisplaced | layers/osm.py:171 | a leading, trailing or doubled underscore, or one right after the sign, makes `int()` raise |
| Text.ParseWideSpace | layers/osm.py:171 | `int()` skips non-ASCII white space around the number, such as the no-break, ideographic, line-separator and next-line characters |
| Text.ParseSeparatorNotSpace | layers/osm.py:171 | `int()` does not skip the information separators U+001C to U+001F, although `str.isspace` accepts them: a number next to one raises ValueError |
| CyclePaths.FirstNonEmpty | layers/cycle_paths.py:79-83 | the result is the value of the first key holding a non-empty value, and there is none exactly when every key is missing or empty |
| CyclePaths.SeparateWayDirection | layers/cycle_paths.py:86-93 | one-way exactly when `oneway=yes`, two-way exactly when `oneway=no`, unknown otherwise |
| CyclePaths.SeparateWayWidthOrder | layers/cycle_paths.py:77-83 | the width is a non-empty `width`, else a non-empty `est_width`, else "unknown" |
| CyclePaths.HasLaneIff | layers/cycle_paths.py:96-105 | a way has a lane exactly when one of `cycleway`, `cycleway:left`, `cycleway:right`, `cycleway:both` is non-empty and not `no`, `separate` or `share_busway` |
| CyclePaths.ScanLaneWidthFirst | layers/cycle_paths.py:109-115 | the nested width loop returns the first non-empty value over the flattened (side, width-key) pairs |
| CyclePaths.LaneWidthFirstNonEmpty | layers/cycle_paths.py:109-115 | the lane width is the first non-empty of `cycleway:width`, `cycleway:est_width`, `cycleway:left:width`, ..., `cycleway:both:est_width`, else "unknown" |
| CyclePaths.LaneDirectionCases | layers/cycle_paths.py:118-138 | a lane is never one-way; it is two-way exactly when both sides (or `cycleway:both`) carry a lane, or `oneway:bicycle=no`, or a side's `oneway=no`; unknown otherwise |
| CyclePaths.SharedUseKind | layers/cycle_paths.py:141-149 | a shared-use path is segregated exactly when `segregated=yes`, and unsegregated otherwise |
| CyclePaths.GetPropsErrors | layers/cycle_paths.py:43-74 | `getProps` only raises KeyError, on `@id` or on `highway`; it raises on `highway` exactly when there is neither a highway nor a lane; with both an `@id` and a highway or lane it does not raise; no result means no lane and no cycleway; a result carries the way's `@id` |
| CyclePaths.CyclewayIsTrackOrSharedUse | layers/cycle_paths.py:44-55 | a `highway=cycleway` is a track, or shared use exactly when `foot` is yes/designated or `segregated` is set, with the separate-way width and direction |
| CyclePaths.LaneBeforeFootway | layers/cycle_paths.py:56-62 | a way that is not a cycleway but has a lane is a lane, whatever its highway, with the lane width and lane direction |
| CyclePaths.NoCycleInfrastructure | layers/cycle_paths.py:63-74 | without a cycleway or lane, only a footway, pedestrian street, path or track with `bicycle` yes/designated is kept, as shared use |
| CyclePaths.FixtureOneWayTrack | layers/cycle_paths_tests.py:11-15 | the first test case: a one-way `highway=cycleway` is a one-way track of unknown width |
| CyclePaths.FixtureSegregatedSharedUse | layers/cycle_paths_tests.py:16-25 | the second test case: a designated-foot segregated cycleway is segregated shared use of unknown direction and width |
| CsvRows.IntCell | layers/census.py:87-92 | `int(row[column])` succeeds exactly when the column is present and its text parses as an integer, and gives that integer |
| CsvRows.FloatCell | layers/census.py:40-46 | `float(row[column])` succeeds exactly when the column is present and its text parses as a float, and gives that value |
| Arith.RoundHalfEven | layers/census.py:100-102 | half-even rounding on exact reals, standing for Python's `round`: the result is within 0.5 of the input, and a tie goes to the even neighbour |
| Census.ReadHouseholds | layers/census.py:87-92 | the four household counts are read exactly when all four cells parse as integers |
| Census.SummarizeFails | layers/census.py:85-103 | the summary fails exactly when a count does not parse or there are no households (ZeroDivisionError), and otherwise holds exactly `percent_households_with_car` and `average_cars_per_household` |
| Census.SummaryApproximates | layers/census.py:94-102 | the percentage is within 0.5 of the share of households with a car, and the average within 0.05 of cars per household, counting "3 or more" as 3 |
| Census.SummaryBounds | layers/census.py:94-102 | for non-negative counts the percentage lies in [0, 100] and the average in [0, 3] |
| Census.CarTableFails | layers/census.py:22-24 | reading the car table gets through exactly when every row summarises and has a `geography code` |
| Census.CarTableKeys | layers/census.py:22-24 | the table is keyed by exactly the codes of the rows |
| Census.CarTableLast | layers/census.py:22-24 | a code's entry is the summary of the last row with that code |
| Census.CarTableEntryKeys | layers/census.py:22-24 | every entry of the car table holds exactly the two car-availability keys |
| Census.AddDensitiesKeys | layers/census.py:36-46 | adding densities never adds or removes a code |
| Census.AddDensitiesFails | layers/census.py:36-46 | adding densities gets through exactly when every row has a code, a parsable density and a code already in the table (otherwise KeyError, as the comment in the source intends) |
| Census.AddDensitiesUntouched | layers/census.py:36-46 | an entry no density row names is unchanged |
| Census.AddDensitiesLast | layers/census.py:36-46 | a named entry gains `population_density`, the rounded density of the last row with its code |
| Census.AddDensitiesEntry | layers/census.py:36-46 | each entry is either unchanged or changed only in `population_density` |
| Census.JoinedKeys | layers/census.py:22-74 | each joined output area's properties are exactly the two car keys, `OA21CD`, and `population_density` when a density row names the area |
| Census.JoinAllMeaning | layers/census.py:70-78 | the join gets through exactly when every feature has a string `OA21CD` that is in the table and float-tree coordinates; each output feature then has the table's entry plus its own `OA21CD`, trimmed coordinates, and everything else unchanged |
| Census.ReadCarRows | layers/census.py:22-24 | the reading loop returns exactly the specification `CarTable`, or its first error |
| Census.ReadDensityRows | layers/census.py:36-46 | the reading loop returns exactly the specification `AddDensities`, or its first error |
| Census.JoinBoundaries | layers/census.py:64-78 | a missing `name` or `crs` raises KeyError on that key; otherwise the result is the specification `JoinAll` or its error, and on success `name` and `crs` are gone and the features are those of `JoinAll` |
| Census.MakeCensusOutputAreas | layers/census.py:9-78 | a failing table leaves the document unchanged with that error; otherwise the document is cleaned and joined as `JoinAll` of the tables says |
| CsvRows.InEngland | layers/vehicle_counts.py:26 | `row["Region_ons_code"][0] == "E"`: a missing column raises KeyError and an empty code IndexError; otherwise true exactly when the code starts with "E" |
| CsvRows.PointFeature | layers/traffic.py:31-48 | the point feature has the coordinates `[lon, lat]` and the given properties |
| Traffic.Keep | layers/traffic.py:28-29 | the row test succeeds exactly when `Year` is present and, for a 2022 row, the region code is present and non-empty (Python's `or` short-circuits); it keeps exactly the 2022 rows in England |
| Traffic.CountFeature | layers/traffic.py:31-48 | a feature has exactly the five properties, with the count point, the "road from start to end" location and the method copied from the row |
| Traffic.CountFeatureCounts | layers/traffic.py:45-46 | the two counts are the integers parsed from `All_motor_vehicles` and `Pedal_cycles` |
| Traffic.CountFeatureRaises | layers/traffic.py:45 | an unparsable motor-vehicle count raises ValueError on that text |
| Traffic.CountFeaturesMeaning | layers/traffic.py:25-49 | on success there is one feature per kept row, in row order, each the feature of its row |
| Traffic.CountFeaturesFails | layers/traffic.py:25-49 | the run gets through exactly when every row passes the test without raising and every kept row converts |
| Traffic.KeptRowsMeaning | layers/traffic.py:28-29 | the kept rows are exactly the input rows of 2022 in England |
| Traffic.MakeTrafficCounts | layers/traffic.py:20-49 | the loop returns exactly the specification `CountFeatures`, or its first error |
| VehicleCounts.GroupFails | layers/vehicle_counts.py:24-28 | grouping gets through exactly when no row lacks a region code, has an empty one, or is English without a `Count_point_id` |
| VehicleCounts.GroupKeys | layers/vehicle_counts.py:22-28 | the groups are listed once each, in first-seen order, and are exactly the count points of the English rows |
| VehicleCounts.GroupRows | layers/vehicle_counts.py:22-28 | each group holds exactly the English rows of its count point, in input order, and is non-empty |
| VehicleCounts.NoRowsOf | layers/vehicle_counts.py:22-28 | a count point no English row names has no rows |
| VehicleCounts.GroupFirstSeen | layers/vehicle_counts.py:22-34 | groups come in the order their first rows appear: a group listed earlier has a row before any row of a later group |
| VehicleCounts.LatestBy | layers/vehicle_counts.py:36 | the chosen row has a readable key |
| VehicleCounts.LatestFails | layers/vehicle_counts.py:36 | `max` with an `int(...)` key gets through exactly when every key converts, and otherwise raises the first failing key's error |
| VehicleCounts.LatestIsFirstMax | layers/vehicle_counts.py:36 | `max` returns the first row of greatest year |
| VehicleCounts.FirstMaxSnoc | layers/vehicle_counts.py:36 | a further row takes over as the latest only when its year is strictly greater, so a tie keeps the earlier row |
| VehicleCounts.Location | layers/vehicle_counts.py:37-39 | the location is the road name alone when the start junction is empty, and "road from start to end" otherwise |
| VehicleCounts.CountPointFeature | layers/vehicle_counts.py:41-60 | a feature has exactly the six properties, with the count point, the location and the year of the latest row |
| VehicleCounts.Features | layers/vehicle_counts.py:34-60 | on success there is one feature per group |
| VehicleCounts.FeaturesMeaning | layers/vehicle_counts.py:34-60 | each feature is that of the latest row of its group, latest by the key the script passes (the year) |
| VehicleCounts.FeaturesSnoc | layers/vehicle_counts.py:34-60 | each group appends one feature, that of its latest row, and leaves the features before it as they were |
| VehicleCounts.OneFeaturePerCountPoint | layers/vehicle_counts.py:22-60 | exactly one feature per distinct English count point, in first-seen order, each naming its count point and carrying a greatest year among its rows |
| VehicleCounts.FeatureOfCountPoint | layers/vehicle_counts.py:36-60 | the feature made from a count point's latest row names the count point and carries a year no row of it exceeds |
| VehicleCounts.RowsOfCountPoint | layers/vehicle_counts.py:26-28 | every row of a group is English and belongs to its count point |
| VehicleCounts.GroupByCountPoint | layers/vehicle_counts.py:22-28 | the grouping loop returns exactly the specification `Group`, or its first error |
| VehicleCounts.WriteCountPoints | layers/vehicle_counts.py:34-60 | the output loop returns exactly the specification `Features`, or its first error |
| VehicleCounts.MakeVehicleCounts | layers/vehicle_counts.py:22-60 | the whole run returns exactly the specification `VehicleCountFeatures` |
| Stats19.CountUnlocated | stats19/src/main.rs:77-92 | the number of skipped collision rows is at most the number of rows |
| Stats19.ReadCollisionsOk | stats19/src/main.rs:69-109 | reading the collisions stops with an error exactly when some recent row without "NULL" has a coordinate that does not parse |
| Stats19.CollisionsStep | stats19/src/main.rs:74-108 | one row adds one to the skipped count exactly when it is recent and has "NULL" or coordinates that do not convert; it adds its accident index exactly when it is recent and located; every other entry is kept, and an inserted entry is a fresh collision |
| Stats19.ReadCollisionsSkipped | stats19/src/main.rs:64-92 | the skipped count is exactly the number of recent rows that could not be located |
| Stats19.ReadCollisionsKeys | stats19/src/main.rs:93-108 | the collisions are keyed by exactly the accident indices of the recent, located rows |
| Stats19.ReadCollisionsFresh | stats19/src/main.rs:93-108 | every collision read is from 2017 or later and starts with no casualties, no flags and pedestrian details 0 |
| Stats19.ReadCollisionFile | stats19/src/main.rs:69-109 | the reading loop returns exactly the specification `ReadCollisions`, or its first error |
| Stats19.AddCasualtyMeaning | stats19/src/main.rs:129-158 | a matched casualty appends its severity, sets the flag of its road-user kind and no other, keeps every flag already set, overwrites the pedestrian location only with a value other than 0, -1 and 10 and the movement only with one other than 0, -1 and 9, and leaves year and position alone |
| Stats19.CasualtyTypeTable | stats19/src/main.rs:131-141 | casualty types 0 and 22 are pedestrians, 1 cyclists, 16 horse riders, and every other type is "other" |
| Stats19.CountUnmatched | stats19/src/main.rs:160-163 | the number of unmatched casualties is at most the number of casualty rows |
| Stats19.ReadCasualtiesKeys | stats19/src/main.rs:120-165 | reading casualties adds and removes no collision, counts exactly the unmatched casualties as skipped, and leaves each collision's year and position alone |
| Stats19.ReadCasualtiesSeverities | stats19/src/main.rs:129 | a collision's severities are its old ones followed by those of its casualties, in file order |
| Stats19.ReadCasualtiesFlags | stats19/src/main.rs:131-141 | a collision's road-user flag is set exactly when it was already set or one of its casualties is of that kind |
| Stats19.UnmatchedCasualtyChangesNothing | stats19/src/main.rs:160-163 | a casualty whose accident index is not read changes no collision and is counted as skipped |
| Stats19.FoldCasualty | stats19/src/main.rs:129-158 | the in-place updates of one matched collision give exactly `AddCasualty` |
| Stats19.ReadCasualtyFile | stats19/src/main.rs:120-165 | the casualty loop returns exactly the specification `ReadCasualties` |
| Stats19.ReadInput | stats19/src/main.rs:60-173 | `read_input` fails exactly when reading the collisions fails, with that error; otherwise it returns the collisions with every casualty folded in |
| Stats19.MinSeverity | stats19/src/main.rs:50 | the worst severity is one of the severities and no greater than any of them |
| Stats19.CollisionFeature | stats19/src/main.rs:35-38 | the point is at the collision's longitude and latitude |
| Stats19.CollisionFeatureMeaning | stats19/src/main.rs:39-50 | the feature carries the accident index, year and the pedestrian and cyclist flags, the smallest severity, and `horse_rider` and `other` exactly when not filtering to pedestrians and cyclists |
| Stats19.CollisionFeatureIdentity | stats19/src/main.rs:39-42 | the feature carries the accident index, the year and the pedestrian and cyclist flags of its collision |
| Stats19.CollisionFeatureSeverity | stats19/src/main.rs:49-50 | the feature's severity is one of its casualties' severities and no greater than any of them |
| Stats19.CollisionFeatureOptional | stats19/src/main.rs:43-46 | `horse_rider` and `other` are written together, exactly when not filtering to pedestrians and cyclists |
| Stats19.CollisionFeaturePedestrianDetails | stats19/src/main.rs:47-48 | the feature carries the collision's pedestrian location and movement |
| Stats19.WriteAllFails | stats19/src/main.rs:25-29 | writing panics exactly when some collision has no casualty, even one the filter would skip |
| Stats19.WriteAllCount | stats19/src/main.rs:25-52 | without the filter, one feature is written per collision |
| Stats19.WriteAllSound | stats19/src/main.rs:25-52 | every written feature is the feature of some collision that the filter keeps |
| Stats19.WriteAllComplete | stats19/src/main.rs:25-52 | every collision that the filter keeps is written |
| Stats19.WriteAllStep | stats19/src/main.rs:25-52 | each collision appends at most one feature to those before it, and exactly its own feature when the filter keeps it |
| Stats19.WriteCollisions | stats19/src/main.rs:25-52 | the writing loop returns exactly the specification `WriteAll`, or its panic |
| Stats19.CollisionWithoutCasualtyPanics | stats19/src/main.rs:127-164 | a collision that no casualty row names makes the writing loop panic |
| Crossings.ClassifyTable | crossings/src/main.rs:99-126 | a `crossing_ref` decides alone: zebra, tiger or parallel, pelican, puffin, toucan and pegasus map to their kinds and any other value to none; without it, `crossing` unmarked is uncontrolled, zebra is zebra, traffic_signals is signalised and any other value none; with neither tag there is no kind |
| Crossings.CrossingRefDecides | crossings/src/main.rs:101-112 | two tag sets with the same `crossing_ref` get the same class, whatever their other tags |
| Crossings.UnknownRefHidesCrossing | crossings/src/main.rs:101-112 | an unknown `crossing_ref` gives no class even when `crossing=zebra` is present |
| Crossings.RefOnlyKinds | crossings/src/main.rs:104-108 | parallel, pelican, puffin, toucan and pegasus crossings only come from a `crossing_ref` |
| Crossings.TrafficIsland | crossings/src/main.rs:48-77 | `footway=traffic_island` is kept as a way but not as a node |
| Crossings.Points | crossings/src/main.rs:45 | a way's line string is the positions of its nodes, in order; it can be built exactly when every node id was seen before, and otherwise the index into the node table panics |
| Crossings.GatherMeaning | crossings/src/main.rs:29-60 | after parsing, the node table holds exactly the node ids seen, and the ways kept are exactly the crossing and traffic-island ways, in stream order |
| Crossings.GatherFails | crossings/src/main.rs:45 | parsing panics exactly when some way names a node id not seen before it |
| Crossings.GatherFailsStep | crossings/src/main.rs:45 | after a prefix that parses, the next element panics exactly when it is a way naming a node id none of the earlier nodes has |
| Crossings.ParseElements | crossings/src/main.rs:29-60 | the parsing callback loop returns exactly the specification `Gather`, or its panic |
| Crossings.WayPoints | crossings/src/main.rs:45 | the point loop of the way callback yields exactly the way's line string, or the panic of its first unseen node id |
| Crossings.NodeFeaturesMeaning | crossings/src/main.rs:71-82 | the node features are exactly those of the nodes with a crossing key, one for each |
| Crossings.NodeFeaturesSound | crossings/src/main.rs:71-82 | every node feature written is that of a node carrying a crossing key |
| Crossings.NodeFeaturesComplete | crossings/src/main.rs:71-82 | every node carrying a crossing key has its feature written |
| Crossings.NodeFeaturesOnce | crossings/src/main.rs:71-82 | every crossing node is written |
| Crossings.WriteFeatures | crossings/src/main.rs:64-82 | the ways are written first, in order, each as its way feature, followed by the node features in the table's enumeration order |
| Crossings.WriteNodes | crossings/src/main.rs:71-82 | the node loop writes exactly `NodeFeatures` of the table in its enumeration order |
| Crossings.WriteWays | crossings/src/main.rs:64-69 | the way loop writes one feature per kept way, in order, each that way's feature |
| Gradient.CountRefsMeaning | gradient/src/main.rs:114-120 | the counter holds exactly the node ids referenced by some way, each mapped to the number of times it is referenced |
| Gradient.CountRefsAppend | gradient/src/main.rs:116-120 | counting two runs of references one after the other is counting their concatenation |
| Gradient.CountWay | gradient/src/main.rs:117-119 | the inner counting loop adds one way's references to the counter |
| Gradient.CountNodes | gradient/src/main.rs:114-120 | the counting loops give, for every referenced node and only those, its number of references over all ways |
| Gradient.SplitFromChain | gradient/src/main.rs:128-143 | the edges gathered from a cut onwards overlap at their shared endpoints and glue back to the rest of the way |
| Gradient.SplitFromSegments | gradient/src/main.rs:133-138 | each edge gathered from a cut onwards runs from one cut to the next, with no cut strictly inside |
| Gradient.SegmentFrom | gradient/src/main.rs:133-138 | an edge between cuts found past some index is also one past any earlier index |
| Gradient.SplitFromJoints | gradient/src/main.rs:138-141 | each edge starts at the node where the previous one ended |
| Gradient.SplitWayMeaning | gradient/src/main.rs:126-143 | a way of fewer than two nodes gives no edge; a longer way is cut at its endpoints and at every node referenced by more than one way, into edges between consecutive cuts that glue back to the whole way, each starting where the previous one ended |
| Gradient.EdgeNodesInWay | gradient/src/main.rs:126-143 | every node of an edge belongs to its way |
| Gradient.EdgesHaveTwoPoints | gradient/src/main.rs:137 | no edge has fewer than two points |
| Gradient.Coords | gradient/src/main.rs:132-141 | the positions of node ids, in order, exist exactly when every id is in the node table, and otherwise the index into the table panics |
| Gradient.EdgesOf | gradient/src/main.rs:138 | one edge record per split edge |
| Gradient.EdgesOfMeaning | gradient/src/main.rs:138 | when every node is known, edge `k` carries the way id and the positions of split edge `k` |
| Gradient.WayEdgesMeaning | gradient/src/main.rs:126-143 | a way's edges exist exactly when all its nodes are known, else the run panics; then edge `k` has the way's id and the positions of the `k`-th split edge, at least two of them |
| Gradient.CoordsSnoc | gradient/src/main.rs:132 | pushing a known node's position extends the point list by it |
| Gradient.CoordsSingle | gradient/src/main.rs:141 | restarting an edge from a known node gives its single position |
| Gradient.SplitFromStep | gradient/src/main.rs:131-142 | one node step either closes an edge at a cut and restarts from that node, or extends the current edge |
| Gradient.EdgesOfSnoc | gradient/src/main.rs:138 | emitting one more edge appends its record |
| Gradient.ProgressStep | gradient/src/main.rs:131-142 | one step of the inner loop keeps the emitted edges and pending points in step with the split specification |
| Gradient.SplitOneWay | gradient/src/main.rs:128-143 | the inner loop of `split_edges` emits exactly `WayEdges` of the way, or its panic |
| Gradient.AllEdgesSnoc | gradient/src/main.rs:126-144 | one more way appends its edges, or fails with its panic |
| Gradient.AllEdgesFailFrom | gradient/src/main.rs:126-144 | once a way panics, the later ways do not change the outcome |
| Gradient.SplitAll | gradient/src/main.rs:125-146 | the outer loop over the ways gives exactly the edges of all ways, in order, or the first panic |
| Gradient.SplitEdges | gradient/src/main.rs:108-147 | `split_edges` counts first, so every referenced node has a count, and then gives exactly the split of all ways |
| Gradient.Highways | gradient/src/main.rs:91-99 | no more highways than elements |
| Gradient.HighwaysMeaning | gradient/src/main.rs:91-99 | the highways are exactly the ways tagged `highway` and not `area=yes` |
| Gradient.ScrapeOsm | gradient/src/main.rs:73-106 | the callback loop builds the node table (later nodes overwrite earlier) and the highway list, then splits them |
| Gtfs.DayIndex | bus_frequency/src/gtfs.rs:18-26 | every day indexes one of the seven per-day lists |
| Gtfs.WeekIndexed | bus_frequency/src/gtfs.rs:18-26 | the week is Monday to Sunday, day `k` sits at index `k`, and every day appears in it |
| Gtfs.WeekDayIndexInjective | bus_frequency/src/gtfs.rs:18-26 | different days have different indices |
| Gtfs.DaysInMeaning | bus_frequency/src/gtfs.rs:45-57 | the days kept from a run of days in week order are exactly those whose calendar flag is 1, still in week order |
| Gtfs.CalendarDaysMeaning | bus_frequency/src/gtfs.rs:44-57 | a calendar row's days are exactly those flagged 1 (any other value excludes the day), in week order |
| Gtfs.CalendarDays | bus_frequency/src/gtfs.rs:44-57 | the loop over the seven (day, flag) pairs gives exactly the row's days in week order |
| Gtfs.CalendarMapIncreasing | bus_frequency/src/gtfs.rs:39-59 | every service's day list is in week order, without repeats |
| Gtfs.TripMapLastWins | bus_frequency/src/gtfs.rs:31-36 | a trip id maps to the service of its last row |
| Gtfs.TripMapKeys | bus_frequency/src/gtfs.rs:31-36 | the trip ids mapped are exactly those of some row |
| Gtfs.StopMapKeys | bus_frequency/src/gtfs.rs:62-75 | the stops are exactly the stop ids of some row, each starting with seven empty time lists |
| Gtfs.StopMapLastWins | bus_frequency/src/gtfs.rs:62-75 | a stop takes the name and position of its last row |
| Gtfs.ParseTime | bus_frequency/src/gtfs.rs:84 | a parsed arrival time is a time of day: at least 0 and below 24 hours, in seconds |
| Gtfs.ParseTimeExample | bus_frequency/src/gtfs.rs:84 | "07:13:00" parses to 25980 seconds past midnight |
| Gtfs.SplitTimeExample | bus_frequency/src/gtfs.rs:84 | "07:13:00" splits at its colons into its three fields |
| Gtfs.ParseTimeRejectsPastMidnight | bus_frequency/src/gtfs.rs:84-90 | a time past 24 hours such as "25:10:00" does not parse, so its row is skipped |
| Gtfs.FirstCrash | bus_frequency/src/gtfs.rs:80-105 | the index of the first stop_times row that panics, or the row count; no earlier row panics |
| Gtfs.FirstCrashIs | bus_frequency/src/gtfs.rs:80-105 | any index with no panic before it and a panic at it (or the end) is the first panic |
| Gtfs.PushDays | bus_frequency/src/gtfs.rs:100-102 | the arrival time is appended to the list of each of the service's days and no other list changes |
| Gtfs.ScrapedStart | bus_frequency/src/gtfs.rs:62-80 | before any stop_times row, each stop holds its seven initial lists |
| Gtfs.ScrapedSkip | bus_frequency/src/gtfs.rs:84-99 | a row whose time does not parse, or whose service has no calendar, changes no stop and counts as skipped |
| Gtfs.ScrapedAdd | bus_frequency/src/gtfs.rs:93-104 | a row that is kept appends its time to its stop's lists for the service's days |
| Gtfs.ScrapeRow | bus_frequency/src/gtfs.rs:83-104 | one row is skipped (unparsed time or unknown service), panics (unknown stop id, then unknown trip id), or adds its time to its stop for each of its days |
| Gtfs.ScrapeStopTimes | bus_frequency/src/gtfs.rs:77-108 | the stop_times loop panics exactly at the first panicking row; otherwise every row is scraped or skipped, the skip count is right, and each stop's list for each day is its initial list followed by the times contributed, in row order |
| Gtfs.BucketStep | bus_frequency/src/gtfs.rs:80-105 | a time is in a stop's day list after one more row iff it was before or that row contributes it |
| Gtfs.BucketSound | bus_frequency/src/gtfs.rs:80-105 | every time in a stop's day list comes from a row at that stop, with a parsed arrival time, whose service runs that day |
| Gtfs.BucketComplete | bus_frequency/src/gtfs.rs:80-105 | every such row's time is in the list |
| Gtfs.BucketMembers | bus_frequency/src/gtfs.rs:80-105 | a time is in a stop's list for a day exactly when some row at that stop has that arrival time and a service running that day |
| Gtfs.GetStops | bus_frequency/src/gtfs.rs:29-109 | `get_stops` panics exactly when some stop_times row has an unknown stop or trip; otherwise every stop of stops.txt is returned with its last name and position and, for each day, the arrival times contributed to it in row order |
| BusFrequency.CountRange | bus_frequency/src/main.rs:59-62 | a count of the times in a range is at most the range's length |
| BusFrequency.CountRangeAll | bus_frequency/src/main.rs:59-62 | a range whose times all fall in the window counts in full |
| BusFrequency.CountRangeNone | bus_frequency/src/main.rs:59-62 | a range whose times all fall past the window counts nothing |
| BusFrequency.CountRangeSplit | bus_frequency/src/main.rs:59-62 | counts over adjacent ranges add up |
| BusFrequency.WindowCount | bus_frequency/src/main.rs:59-62 | on sorted times, when the end index has passed every time within the window from the start (or reached the last index), `end_idx - start_idx` is the number of times, the last one left out, that fall within the window opening at the start |
| BusFrequency.SlidingWindowPeak | bus_frequency/src/main.rs:43-70 | `sliding_window_peak` sorts the times and returns `Peak` of the sorted times |
| BusFrequency.Slide | bus_frequency/src/main.rs:53-69 | on sorted times the loop over two indices, whose end index never moves back, returns the largest window count over every start but the last |
| BusFrequency.MaxOverBounds | bus_frequency/src/main.rs:57-67 | with at least one start, the largest count is between 1 and one less than the number of times |
| BusFrequency.PeakBounds | bus_frequency/src/main.rs:46-69 | no times give 0, one time gives 1, and more give between 1 and one less than their number |
| BusFrequency.PeakBoundsOf | bus_frequency/src/main.rs:57-69 | the same bounds for any sequence of two or more times |
| BusFrequency.PeakIgnoresOrder | bus_frequency/src/main.rs:44 | the peak depends only on the times as a multiset, not on their order |
| BusFrequency.FixtureTwoTimes | bus_frequency/src/main.rs:82 | 07:13 and 09:05 give a peak of 1 |
| BusFrequency.FixtureOnTheHour | bus_frequency/src/main.rs:84-90 | the fixture lined up on the hour gives a peak of 4 |
| BusFrequency.PeakOnTheHour | bus_frequency/src/main.rs:84-90 | the peak of the sorted on-the-hour fixture is 4 |
| BusFrequency.WindowsOnTheHour | bus_frequency/src/main.rs:84-90 | the window counts of the on-the-hour fixture from each start are 1, 4, 3, 2, 1, 1 |
| BusFrequency.FixtureOffTheHour | bus_frequency/src/main.rs:91-98 | the fixture whose peak runs from 06:35 to 07:35 gives a peak of 4 |
| BusFrequency.PeakOffTheHour | bus_frequency/src/main.rs:91-98 | the peak of the sorted off-the-hour fixture is 4 |
| BusFrequency.WindowsOffTheHour | bus_frequency/src/main.rs:91-98 | the window counts of the off-the-hour fixture from each start are 1, 4, 3, 2, 1, 1 |
| BusFrequency.LastTimeNeverCounted | bus_frequency/src/main.rs:57-62 | as written, the end index stops at the last time without counting it, so two times half an hour apart give a peak of 1 |
| BusFrequency.MaxTotal | bus_frequency/src/main.rs:22-29 | the largest number of times on any day: at least each day's count, reached by some day, and 0 with no days |
| BusFrequency.MaxPeak | bus_frequency/src/main.rs:22-29 | at least each day's peak, and 0 with no days |
| BusFrequency.MaxPeakAttained | bus_frequency/src/main.rs:23-28 | with at least one day, some day's peak equals the maximum |
| BusFrequency.PeakAtMostTotal | bus_frequency/src/main.rs:22-29 | a stop's peak never exceeds its busiest day's total |
| BusFrequency.MaxStep | bus_frequency/src/main.rs:27-28 | one more day raises each running maximum to that day's value when it is larger, and otherwise keeps it |
| BusFrequency.SummarizeStop | bus_frequency/src/main.rs:22-29 | the per-day loop gives exactly the largest daily total and the largest daily peak with a one-hour window |
| BusFrequency.SummaryOf | bus_frequency/src/main.rs:31-35 | the point written for a stop never has a peak above its total |
| BusFrequency.SummarizeStops | bus_frequency/src/main.rs:20-37 | one point is written per stop, carrying its id, name, position, largest total and largest peak |
| OsmRoutes.Reverse | osm_routes/src/main.rs:86-104 | the reversed points are the same points read from the other end |
| OsmRoutes.Glued | osm_routes/src/main.rs:84-109 | gluing drops the one shared point, so the glued piece has one point fewer than the two together |
| OsmRoutes.GluedContiguous | osm_routes/src/main.rs:84-109 | a glued piece is the old piece, possibly turned round, followed from the shared point by the way's points, possibly turned round: it runs through the shared point once |
| OsmRoutes.GlueFromMeaning | osm_routes/src/main.rs:84-113 | a way is glued to the first piece that shares an end with it, checked first-first, first-last, last-first, last-last, and only that piece changes; when none shares an end it starts a new piece at the end |
| OsmRoutes.PiecesCount | osm_routes/src/main.rs:71-126 | there are never more pieces than members, and none exactly when no member is a way the map holds |
| OsmRoutes.PiecesNeverShrink | osm_routes/src/main.rs:73-115 | pieces are never merged: later members never lower the number of pieces, and a failure later means none earlier was hidden |
| OsmRoutes.PiecesFailFrom | osm_routes/src/main.rs:85 | once a member panics on an empty line string, the whole relation panics |
| OsmRoutes.GlueRouteLinestring | osm_routes/src/main.rs:67-127 | `glue_route_linestring` panics exactly when the piece specification does; otherwise it returns no line string exactly when no member is a known way, and else exactly the pieces |
| OsmRoutes.RouteName | osm_routes/src/main.rs:40 | the feature's name is the relation's `name` tag, or the empty string without one |
| OsmRoutes.Points | osm_routes/src/main.rs:28 | a way's line string is its nodes' positions in order; it exists exactly when every node was seen before, and otherwise indexing the node table panics |
| OsmRoutes.PointsFailFrom | osm_routes/src/main.rs:28 | a single unseen node makes the way panic |
| OsmRoutes.ScanAllMeaning | osm_routes/src/main.rs:19-47 | every stored way came from a way tagged `highway` or `cycleway=crossing`, and every written feature came from a `route=bicycle` relation, with its id and name and at least one line string |
| OsmRoutes.ScanPrefixOk | osm_routes/src/main.rs:19-47 | when the whole parse gets through, so does every prefix of it |
| OsmRoutes.ScanPrefixStep | osm_routes/src/main.rs:19-47 | the state after `n` elements is the state after `n - 1` elements, stepped by element `n - 1` |
| OsmRoutes.ScanOutGrows | osm_routes/src/main.rs:34-41 | the features written so far are a prefix of those written later |
| OsmRoutes.ScanRouteWritten | osm_routes/src/main.rs:34-41 | every `route=bicycle` relation is glued against the ways stored before it, and, when it yields line strings, its feature with its id, those line strings and its name is written next, at the position after the features before it |
| OsmRoutes.ScanWayKeeps | osm_routes/src/main.rs:26-29 | a stored way keeps its line string until a later kept way with the same id replaces it |
| OsmRoutes.ScanWayStored | osm_routes/src/main.rs:26-29 | a kept way whose nodes were all seen before it is in the way table with its line string, when no later kept way has its id |
| OsmRoutes.ScanFailsFrom | osm_routes/src/main.rs:19-47 | a panic ends the parse: later elements do not change the outcome |
| OsmRoutes.ScanRoutes | osm_routes/src/main.rs:15-49 | the parse callback loop writes exactly the features of the element scan, in order, and fails exactly when the scan panics |
| OsmRoutes.WayLine | osm_routes/src/main.rs:28 | the node lookups of a kept way yield exactly its line string, or the panic of its first unseen node |
| OsmiumExtracts.ExtractFor | geojson_to_osmium_extracts.py:49-54 | a feature's extract writes `name.osm`, cut by the GeoJSON polygon file `name.geojson` |
| OsmiumExtracts.Batches | geojson_to_osmium_extracts.py:49-59 | there is always at least one batch, since the last config is written even when empty |
| OsmiumExtracts.ConcatSnoc | geojson_to_osmium_extracts.py:49-59 | joining batches with one more after them appends it |
| OsmiumExtracts.BatchesShape | geojson_to_osmium_extracts.py:45-62 | with a positive batch size there are `n / b` full batches and one last batch of `n % b`, and together they hold every extract once, in order |
| OsmiumExtracts.BatchesSnoc | geojson_to_osmium_extracts.py:49-59 | one more extract joins the open batch, and sealing it when it reaches the batch size opens an empty one |
| OsmiumExtracts.Configs | geojson_to_osmium_extracts.py:55-62 | one config per batch |
| OsmiumExtracts.PyFormat | geojson_to_osmium_extracts.py:47-52 | the f-string of a string is the string itself, of an integer its decimal digits (which `int()` reads back to it), of null "None" and of a boolean "True" or "False" |
| OsmiumExtracts.Concatenated | generate_tiles.py:54-60 | `id + ".geojson"` succeeds exactly on a string `id`, whose text is the stem; any other value raises TypeError |
| OsmiumExtracts.FeatureList | geojson_to_osmium_extracts.py:45 | `for feature in gj["features"]` gets through exactly on an object document whose `features` is a list (its items), a string (its one-character strings) or an empty object; a missing `features` raises KeyError, anything else TypeError |
| OsmiumExtracts.NameValue | geojson_to_osmium_extracts.py:46 | `feature["properties"][name_key]` gives the property's value exactly when the feature and its `properties` are objects and the given key is there; a non-object feature or `properties` (such as null) raises TypeError, a missing `properties` KeyError, a missing name KeyError of that name, and an absent `--name_key` KeyError of None |
| OsmiumExtracts.NameOf | geojson_to_osmium_extracts.py:46 | a feature can be named exactly when its lookup succeeds and the value gives a stem; a failed lookup raises its own error |
| OsmiumExtracts.ExtractsOf | geojson_to_osmium_extracts.py:45-54 | one extract per feature, the i-th writing the i-th feature's stem plus ".osm", cut by its stem plus ".geojson" |
| OsmiumExtracts.FirstUnnamed | geojson_to_osmium_extracts.py:46 | the index of the first feature that cannot be named, or the feature count; every earlier one can be |
| OsmiumExtracts.FirstUnnamedIs | geojson_to_osmium_extracts.py:46 | any index with every feature before it named and the feature at it not (or the end) is that first index |
| OsmiumExtracts.WriteConfigs | geojson_to_osmium_extracts.py:40-62 | the loop succeeds exactly when every feature can be named and then writes exactly the configs of its batches; otherwise it raises the error of the first feature that cannot be named (the TypeError or KeyError of its lookup, or its stem's error), with the configs sealed before it written |
| OsmiumExtracts.PlanExtracts | geojson_to_osmium_extracts.py:40-62 | with batches of 10 under "./" by default, the run fails exactly when the document has no feature list or some feature's lookup fails (TypeError, or KeyError of `features`, `properties`, the name key or None), writing nothing when the feature list fails; without `--name_key` it gets through only on a document without features; otherwise it writes the configs of the extracts named by the f-string of each feature's value, whatever its type |
| OsmiumExtracts.ConfigsSnoc | geojson_to_osmium_extracts.py:49-59 | one loop step keeps the sealed configs followed by the open one equal to the configs of the extracts so far |
| OsmiumExtracts.ConfigsMeaning | geojson_to_osmium_extracts.py:40-62 | every config names the output directory; all but the last hold exactly the batch size; the last holds the remainder; together they hold every extract once, in order |
| OsmiumExtracts.ConfigsTrailingEmpty | geojson_to_osmium_extracts.py:55-62 | when the feature count is a multiple of the batch size, the last config written holds no extract |
| OsmiumExtracts.NatToStringInjective | generate_tiles.py:66-71 | different batch numbers are written differently |
| OsmiumExtracts.TilesConfigNamesDistinct | generate_tiles.py:66-71 | config files `uk_tiles_k.json` for different `k` never share a name, so no config overwrites another |
| OsmiumExtracts.GeojsonToOsmiumExtracts | generate_tiles.py:49-72 | with batches of 50 under "/tmp/osmium_extract/" by default, the k-th config goes to `uk_tiles_k.json`; it succeeds exactly when the document has a feature list and every feature has an object `properties` holding a string `id`, raises KeyError of `features`, `properties` or `id`, or TypeError, otherwise, and on success writes exactly the configs of its batches |
| OsmiumExtracts.Square | generate_tiles.py:26-34 | a tile's ring has five corners and is closed |
| OsmiumExtracts.TileFeatures | generate_tiles.py:14-40 | feature `i` is the tile of the `i`-th grid point inside the outline, in walk order: the square with that south-west corner, `id` "i", and a closed five-point ring |
| OsmiumExtracts.InsidePointsMeaning | generate_tiles.py:14-19 | the points that get a tile are exactly the grid points inside the outline, no more of them than grid points, in walk order: those of the first `k` grid points come first |
| OsmiumExtracts.TileIdsDistinct | generate_tiles.py:24 | no two tiles share an `id` |
| OsGeometry.ThemeFrom | os_geometry/src/main.rs:131-135 | scanning the tag pairs either answers or panics with an index out of bounds, never anything else |
| OsGeometry.PassStep | os_geometry/src/main.rs:131-135 | a pair that resolves but does not name the roads theme leaves the answer to the pairs after it |
| OsGeometry.BadStep | os_geometry/src/main.rs:132-133 | a pair with an index out of range, or a lone last tag, reached before any match makes the scan neither find nor reject |
| OsGeometry.MatchStep | os_geometry/src/main.rs:131-134 | a pair that is `theme` = "Roads Tracks And Paths" ends the scan with true: the feature is kept |
| OsGeometry.EndStep | os_geometry/src/main.rs:131 | once the pairs run out with no match the scan answers false: the feature is dropped |
| OsGeometry.ThemeFromMeaning | os_geometry/src/main.rs:131-135 | from pair `m` on, the scan answers true exactly when some pair is `theme` = "Roads Tracks And Paths" and every pair before it resolves, and false exactly when the tags pair up and every pair resolves without matching |
| OsGeometry.IsRoadMeaning | os_geometry/src/main.rs:129-136 | a feature is kept exactly when a pair names the roads theme and no earlier pair is out of range, dropped exactly when its tags pair up and all resolve without matching, and otherwise the run panics |
| OsGeometry.OddTagsPanic | os_geometry/src/main.rs:131-133 | an odd number of tags with no earlier match panics on the last, lone tag |
| OsGeometry.ProcessLayer | os_geometry/src/main.rs:128-140 | processing keeps the layer's name, keys and values |
| OsGeometry.ProcessLayerMeaning | os_geometry/src/main.rs:128-140 | processing succeeds exactly when no feature's test panics, and then keeps exactly the road features, in order |
| OsGeometry.ProcessLayerIdempotent | os_geometry/src/main.rs:128-140 | processing a processed layer changes nothing |
| OsGeometry.ProcessTileLayersOk | os_geometry/src/main.rs:71-75 | a tile's layers are processed without a panic exactly when each layer is |
| OsGeometry.ProcessTileLayersMeaning | os_geometry/src/main.rs:71-75 | each layer of the tile is replaced by its processed form, and the tile is kept exactly when some processed layer still has a feature |
| OsGeometry.ProcessTile | os_geometry/src/main.rs:71-75 | the layer loop gives exactly the processed layers and the keep flag, or the first panic |
| OsGeometry.ProcessTileFailFrom | os_geometry/src/main.rs:71-75 | once a layer panics, later layers do not change the outcome |
| OsGeometry.ConvertProcessed | os_geometry/src/main.rs:56-97 | a run that completes processed every decoded tile without a panic |
| OsGeometry.ConvertSound | os_geometry/src/main.rs:56-97 | every tile written comes from a decoded tile at the same position, with its processed layers, that kept a feature |
| OsGeometry.ConvertComplete | os_geometry/src/main.rs:56-97 | every decoded tile that keeps a feature is written, at its position, with its processed layers; missing tiles and tiles that fail to load write nothing |
| OsGeometry.ConvertStep | os_geometry/src/main.rs:60-95 | one more tile appends its output exactly when it was decoded and keeps a feature |
| OsGeometry.ConvertTiles | os_geometry/src/main.rs:56-97 | the tile loop writes exactly the converted tiles, in reading order, or stops at the first panic |
| OsGeometry.ConvertFailFrom | os_geometry/src/main.rs:56-97 | once a tile panics, later tiles do not change the outcome |
| FixBoundaries.LadNameArray | fix_boundaries/reduce_boundary_fidelity.cjs:5-7 | `lad_names` splits exactly when it is a string; anything else throws a TypeError |
| FixBoundaries.LadNameArrayMeaning | fix_boundaries/reduce_boundary_fidelity.cjs:5-7 | there is at least one name, no name holds ", ", and joined back with ", " the names give the original string |
| FixBoundaries.NamesJson | fix_boundaries/reduce_boundary_fidelity.cjs:21 | the array stored in `lad_names` holds the names, in order |
| FixBoundaries.FirstLad | fix_boundaries/reduce_boundary_fidelity.cjs:22-27 | the search stops at the first district whose `LAD23NM` is the name, or finds none when no district has it |
| FixBoundaries.Annotate | fix_boundaries/reduce_boundary_fidelity.cjs:9-16 | a matched district gains `transport_authority_name` (the authority's `atf4_authority_name`, null when absent) and `localAuthorities` (the split names) and keeps every other property |
| FixBoundaries.AnnotateTwice | fix_boundaries/reduce_boundary_fidelity.cjs:9-16 | a later annotation replaces an earlier one entirely |
| FixBoundaries.FirstLadSameNames | fix_boundaries/reduce_boundary_fidelity.cjs:22-27 | annotating never changes a name, so each name's first district stays the same |
| FixBoundaries.AnnotateNameMeaning | fix_boundaries/reduce_boundary_fidelity.cjs:22-27 | one name annotates exactly its first district, and nothing when no district has it |
| FixBoundaries.AnnotateNamesMeaning | fix_boundaries/reduce_boundary_fidelity.cjs:22-28 | after an authority's names, exactly the districts that come first for one of them carry its annotation; the others are unchanged |
| FixBoundaries.LastClaim | fix_boundaries/reduce_boundary_fidelity.cjs:18-30 | the last authority to claim a district is one of the authorities |
| FixBoundaries.LastClaimMeaning | fix_boundaries/reduce_boundary_fidelity.cjs:18-30 | the last claim is a claim and no later authority claims the district; with no claim, no authority claims it |
| FixBoundaries.AddAllStep | fix_boundaries/reduce_boundary_fidelity.cjs:19-29 | one more authority, whose names split, is stored with its split names and annotates its districts |
| FixBoundaries.AddAllExtend | fix_boundaries/reduce_boundary_fidelity.cjs:19-29 | an authority whose names split extends a successful run in that way |
| FixBoundaries.AddAllOk | fix_boundaries/reduce_boundary_fidelity.cjs:18-30 | the pass completes exactly when every authority's `lad_names` is a string |
| FixBoundaries.AddAllAuthorities | fix_boundaries/reduce_boundary_fidelity.cjs:19-21 | after the pass, each authority's `lad_names` is its array of names, and nothing else of it changed |
| FixBoundaries.AddAllLads | fix_boundaries/reduce_boundary_fidelity.cjs:18-30 | after the pass each district carries the annotation of the last authority that claims it, or is unchanged when none does; no name changes |
| FixBoundaries.ClaimedBySameNames | fix_boundaries/reduce_boundary_fidelity.cjs:22-27 | which names claim a district depends only on the district names |
| FixBoundaries.ReduceKeeps | fix_boundaries/reduce_boundary_fidelity.cjs:51-54 | every district kept has an authority name JavaScript counts as true, and a district whose last claiming authority has such an `atf4_authority_name` (any array or object, even empty, a non-empty string, a non-zero number or `true`) is kept, annotated |
| Json.TruthyLanguages | fix_boundaries/reduce_boundary_fidelity.cjs:52-54 | JavaScript truthiness is Python's except that an empty array or object counts as true |
| FixBoundaries.AnnotateFirst | fix_boundaries/reduce_boundary_fidelity.cjs:23-27 | the while loop annotates in place exactly the first district with the name, and no other |
| FixBoundaries.FirstLadFrom | fix_boundaries/reduce_boundary_fidelity.cjs:25-26 | a match with no match before it is the first district |
| FixBoundaries.AnnotateAll | fix_boundaries/reduce_boundary_fidelity.cjs:22-28 | the `forEach` over an authority's names annotates the districts as `AnnotateNames` says |
| FixBoundaries.AddAuthority | fix_boundaries/reduce_boundary_fidelity.cjs:19-29 | one authority either throws TypeError, when `lad_names` is not a string, or has its names split in place and annotates its districts; no other authority changes |
| FixBoundaries.AddTransportAuthorities | fix_boundaries/reduce_boundary_fidelity.cjs:18-30 | `addTransportAuthorityToLocalAuthorities` leaves both collections exactly as the pass over values says, or throws its error |
| FixBoundaries.AddAllPrefixStep | fix_boundaries/reduce_boundary_fidelity.cjs:19-29 | an authority whose names do not split ends the pass with TypeError; otherwise it extends the pass |
| FixBoundaries.AddAllFailFrom | fix_boundaries/reduce_boundary_fidelity.cjs:19-29 | once an authority throws, later authorities do not change the outcome |
| FixBoundaries.ReduceBoundaries | fix_boundaries/reduce_boundary_fidelity.cjs:49-54 | annotating then filtering leaves both collections as `Reduce` says, or throws its error |
| Dalog.EntriesMeaning | dalog/convert.ts:20 | every header cell names a key of the record, and a key named by one header cell only holds the cell below it, or `undefined` past the row's end |
| Dalog.EntriesKeys | dalog/convert.ts:20 | every key of the record comes from some header cell |
| Dalog.Defined | dalog/convert.ts:50 | the properties written are exactly the entries that are not `undefined` |
| Dalog.RowOutcomeMeaning | dalog/convert.ts:19-47 | a row is skipped exactly when its issue id is null or undefined, or its coordinates are null, undefined or loosely equal to 0; a written row keeps its issue id and every defined entry except the four deleted keys, and nothing else |
| Dalog.BlankCoordinatesSkipped | dalog/convert.ts:26 | a blank or all-space coordinate string equals 0 loosely, so its row is skipped |
| Dalog.LatLonOrder | dalog/convert.ts:32 | "lat, lon" becomes the point [lon, lat]: the coordinates are reversed |
| Dalog.SplitPair | dalog/convert.ts:32 | "lat, lon" splits at the separator into its two parts |
| Dalog.RowOutcomes | dalog/convert.ts:19 | one outcome per data row, row by row |
| Dalog.Rest | dalog/convert.ts:18 | `slice(1)` drops the first cell and keeps the rest in order |
| Dalog.PushedOk | dalog/convert.ts:19-48 | the loop completes exactly when no row throws |
| Dalog.EmittedRowsMeaning | dalog/convert.ts:19-48 | the rows written are exactly the rows that emit, in increasing order, one feature each |
| Dalog.PushedMeaning | dalog/convert.ts:39-47 | the j-th feature comes from the j-th emitting row, with its properties and coordinates and id j + 1 |
| Dalog.PushedStep | dalog/convert.ts:19-48 | one more row either pushes its feature with the next id, or leaves the features as they were |
| Dalog.PushedIds | dalog/convert.ts:46 | the features are numbered 1, 2, 3, … in push order, and there are no more of them than rows |
| Dalog.ConvertMeaning | dalog/convert.ts:15-48 | the sheet converts exactly when it has a header row and no data row throws, and then the features are numbered from 1 |
| Dalog.PositionsBound | dalog/convert.ts:19-48 | strictly increasing row positions below `n` number at most `n` |
| Dalog.ConvertRow | dalog/convert.ts:20-47 | one turn of the loop gives exactly the row's outcome |
| Dalog.ConvertSheet | dalog/convert.ts:15-48 | the loop over the data rows after the header produces exactly the converted sheet, or the first error |
| Dalog.PushedFailFrom | dalog/convert.ts:19-48 | once a row throws, later rows do not change the outcome |
| Sorting.SortedAdjacent | bus_frequency/src/main.rs:44 | times in order pair by pair are in order throughout |
| Sorting.Insert | bus_frequency/src/main.rs:44 | inserting into sorted times keeps them sorted and adds exactly the one time |
| Sorting.Sort | bus_frequency/src/main.rs:44 | `times.sort()` leaves the times in non-decreasing order, as a permutation of the input |
| Sorting.SortedUnique | bus_frequency/src/main.rs:44 | two sorted orderings of the same times are the same sequence |
| Sorting.SortDependsOnMultiset | bus_frequency/src/main.rs:44 | the sorted times depend only on which times there are, not on their order |
| Sorting.SortSorted | bus_frequency/src/main.rs:44 | sorting times already in order changes nothing |
| Aiuk.Clean | experimental/aiuk_ltn_imports.py:13 | the character-by-character renaming leaves no space, hyphen or apostrophe and is shorter than the name by its apostrophes |
| Aiuk.ReplaceCharAppend | experimental/aiuk_ltn_imports.py:13 | `str.replace` of one character works on each part of a concatenation separately |
| Aiuk.CleanSafe | experimental/aiuk_ltn_imports.py:13 | a name with no space, hyphen or apostrophe is left as it is |
| Aiuk.Written | experimental/aiuk_ltn_imports.py:14-15 | one written feature per file, in the order the files are written |
| Aiuk.ExportsFailFrom | experimental/aiuk_ltn_imports.py:11-15 | once a feature raises, later features do not change the outcome |
| Census.LastRow | layers/census.py:22-24 | every row's code has a last row carrying it, at or after the row |
| Census.CarTableFailFrom | layers/census.py:22-24 | once a row raises, later rows do not change the outcome |
| Census.AddDensitiesFailFrom | layers/census.py:36-46 | once a density row raises, later rows do not change the outcome |
| Crossings.PointsFailFrom | crossings/src/main.rs:45 | a single unseen node makes the way's line string panic |
| Crossings.GatherFailsFrom | crossings/src/main.rs:29-60 | a panic ends the parse: later elements do not change the outcome |
| CyclePaths.Flatten | layers/cycle_paths.py:109-115 | the nested width scan visits two keys per pair |
| Gtfs.DigitPair | bus_frequency/src/gtfs.rs:84 | two digits read as the two-digit number they write |
| Gtfs.SplitField | bus_frequency/src/gtfs.rs:84 | a two-character field followed by ':' splits off as the first field |
| Gtfs.SplitLastField | bus_frequency/src/gtfs.rs:84 | a two-character field without ':' is the last field |
| OsFields.OutputFeature.SetProperty | ordnance_survey_layers/src/speed.rs:12-14 | `set_property` adds the key or replaces its value, and changes no other property |
| OsPavementWidth.JoinInit | ordnance_survey_layers/src/pavement_width.rs:33-86 | a successful join of all features is the join of all but the last, stepped by the last |
| OsPavementWidth.JoinKey | ordnance_survey_layers/src/pavement_width.rs:29-86 | a road id is joined exactly when some kept feature carries it, and every joined road has a side |
| OsPavementWidth.JoinAngles | ordnance_survey_layers/src/pavement_width.rs:62-76 | when every new road's angle lies in [0, 360), every joined road's does, since later features never change a road's angle |
| OsPavementWidth.JoinFailFrom | ordnance_survey_layers/src/pavement_width.rs:33-86 | once a feature fails, later features do not change the outcome |
| OsSpeed.TimesLength | ordnance_survey_layers/src/speed.rs:21-25 | there are thirteen time bands and two directions |
| OsSpeed.Speeds | ordnance_survey_layers/src/speed.rs:21-28 | the scan reads one speed per (time, direction) band: 26 of them |
| OsSpeed.SpeedsAt | ordnance_survey_layers/src/speed.rs:26-28 | read `k` of the scan is the speed field of band `k` |
| OsSpeed.ScanMaxFailFrom | ordnance_survey_layers/src/speed.rs:28 | once a band's read fails, later bands do not change the outcome |
| OsSpeed.ScanStep | ordnance_survey_layers/src/speed.rs:28-34 | a set speed above the running maximum, or the first set speed, becomes the maximum with its band's description; anything else keeps the state |
| Stats19.ReadCollisionsKey | stats19/src/main.rs:93-108 | a collision is stored exactly when its row is recent and located |
| Stats19.ReadCollisionsFailFrom | stats19/src/main.rs:69-109 | once a row fails, later rows do not change the outcome |
| Stats19.WriteAllPanicWitness | stats19/src/main.rs:25-29 | a failed write names a collision without a casualty, and is a panic |
| Stats19.WriteAllPanicsAt | stats19/src/main.rs:25-29 | any collision without a casualty makes the write panic |
| Stats19.WrittenAt | stats19/src/main.rs:25-52 | each collision the filter keeps has a place in the output holding its feature |
| Stats19.WriteAllFailFrom | stats19/src/main.rs:25-52 | once a collision panics, later collisions do not change the outcome |
| Stats19.NoSeverities | stats19/src/main.rs:120-165 | a collision that no casualty row names gets no severity |
| Traffic.CountFeaturesFailFrom | layers/traffic.py:25-49 | once a row raises, later rows do not change the outcome |
| VehicleCounts.GroupFailFrom | layers/vehicle_counts.py:22-28 | once a row raises, later rows do not change the outcome |
| VehicleCounts.FeaturesFailFrom | layers/vehicle_counts.py:34-60 | once a group raises, later groups do not change the outcome |

## Left out

**I/O and external tools**

- Downloads, subprocesses and file operations are not modelled: `run`, wget, unzip, ogr2ogr, osmium, tippecanoe, the mapshaper dissolve and simplify, gzip, directory creation, reads and writes. These are I/O. The model starts from the parsed document or rows and ends with the values that would be written.
- CSV and serde deserialization failures (`rec?`) are not modelled. Rows are given already parsed into maps or records.
- Float parsing (`float()`, `parseFloat`, `str::parse::<f64>`) is a parameter of type `string -> Option<real>`, because its decimal-to-binary behaviour is floating-point numerics.
- BNG to WGS84 conversion in stats19 is a parameter. `get_steepness`, elevation lookups and the haversine length and bearing are parameters too.

**Integer parsing and formatting**

- Text.ParseInt: reads ASCII digits only. Python's `int()` also reads the decimal digits of other scripts (Unicode category Nd, such as Arabic-Indic or full-width digits), whose set depends on the Unicode version of the interpreter. The limit of 4300 digits that Python 3.11 and later put on `int()` and `str()` is not modelled either.
- CsvRows.IntCell: a cell written in non-ASCII decimal digits raises ValueError in the model, where Python reads the number (Text.ParseInt).
- Census.ReadHouseholds: the four counts are read with Text.ParseInt, so counts in non-ASCII digits raise ValueError in the model.
- Census.SummarizeFails: "a count does not parse" means Text.ParseInt rejects it, which includes counts in non-ASCII digits that Python reads.
- Traffic.CountFeatureCounts: the counts are those Text.ParseInt reads, so a count in non-ASCII digits is not covered.
- Traffic.CountFeatureRaises: a count in non-ASCII digits raises in the model but not in Python.
- VehicleCounts.LatestFails: the `int(...)` key fails where Text.ParseInt does, which includes years in non-ASCII digits.
- OsmLayers.CycleParkingProps: a `capacity` in non-ASCII digits is dropped in the model, where Python keeps it.
- OsmiumExtracts.PyFormat: the text of a float, a list or an object in an f-string is a parameter, because it is Python's float and container `repr`.

**Rounding**

- The decimal rounding of `trimPrecision` is a parameter `round: real -> real`. Its idempotence is assumed only as a lemma precondition.
- `trim_f64` is taken as given on reals.
- Arith.RoundHalfEven: rounds the exact real half to even, while Python's `round` rounds the binary double nearest to the value. They differ where the double lies just off a tie: `round(23 / 20, 1)` is 1.1 in Python and 1.2 in the model, and `round(1 / 20, 1)` is 0.1 in Python and 0.0 in the model.
- Census.Summarize: the percentage and `average_cars_per_household` are rounded with Arith.RoundHalfEven, so they may differ from Python's by one unit of the last place at such near-ties. Census.SummaryApproximates and Census.SummaryBounds hold for the exact-real rounding.
- Census.AddDensities: the population density is rounded with Arith.RoundHalfEven and may differ from Python's `round` in the same way.

**gradient**

- Rayon's `par_iter` and the thread-local GeoTIFF reader are concurrency. `collect` keeps the order, so the model processes the ways sequentially.
- The GeoJSON writing of gradient is left out.

**Geometry and tiles**

- `lon_lat_to_tile`, the mbtiles and pmtiles plumbing and gzip are not modelled. The tiles of os_geometry are a sequence of fetched tiles in loop order.
- Only the `string_value()` of a vector-tile value is modelled. Other value kinds count as not being the wanted string.
- The panic message texts of os_geometry, such as slice-index lengths, are simplified to an error kind.
- The shapely grid walk and `contains` of generate_tiles.py are parameters: the candidate squares in walk order and an `inside` predicate.
- The `to_geo` failure of a geometry is not modelled.
- GeoJson.CleanAllOk: a feature whose `geometry` is null, a geometry without `coordinates` (such as a GeometryCollection) and a feature whose `properties` is null cannot be written as a `GeoJson.Feature`. layers/utils.py:49-55 raises TypeError or KeyError on them, or passes None to the callback; these failures are not modelled, so the contract covers only features with a geometry object holding `coordinates` and a properties object.
- OsPavementWidth.NewRoad: `bearing + 360` on an `isize` would overflow for a bearing within 360 of the `isize` maximum. The model adds without bounds. A haversine bearing lies in [-180, 180], so the overflow is never reached.

**Hash-map order**

- HashMap iteration order is not modelled. This covers the stats19 output, the crossings nodes and the pavement-width roads. These outputs are either given as maps or enumerated in an arbitrary key order that each key appears in exactly once.

**GTFS**

- The leniencies of GTFS parsing (chrono's leap second, whitespace) are not modelled. Times are seconds since midnight as `HH:MM:SS` reads them.

**JavaScript and Python value semantics**

- The `localAuthorities` array of reduce_boundary_fidelity.cjs and the census `oa_to_data` dictionary are modelled as value copies, not as aliased objects.
- An undefined `atf4_authority_name` is stored as null.
- A non-string `OA21CD` in census is reported as KeyError: such a code cannot be a key of the table, so the lookup fails.
- Boundaries.StartsWithE: a code that is neither a string nor a list is reported as TypeError. Other indexable values (a dict with key 0) are not modelled.
- Schemes.PrepareSchemes: a present `schemes` that is not an object is reported as TypeError, while JavaScript's `Object.keys` would enumerate a string or an array. Only null and undefined throw in JavaScript.
- Traffic.CountFeature: its ensures omit the two integer counts and the coordinates. The counts are stated by Traffic.CountFeatureCounts. The coordinates are the parsed `Longitude` and `Latitude` cells placed by `CsvRows.PointFeature`.

**Spreadsheets and scripts**

- In dalog, Date cells are not modelled: a cell is blank, a string, a number or a boolean. The JavaScript String and Number conversions are parameters: the number rendering and `parseFloat`, with `None` standing for NaN. The workbook reading and file output are I/O.
- A document without `features` in aiuk_ltn_imports.py is not modelled, and neither are its file writes. The features are given.
- The point-of-interest file handling of pois/generate_pois.py is I/O. Only `remove_extra_properties` is modelled.

**Wiring around the modelled functions**

- OsmRoutes: the in-place `reverse`, `pop` and `extend` of a piece are modelled by replacing that piece with the glued sequence. The labelled `continue 'MEMBER` becomes a flag.
- GDAL field reads of a kind other than the one asked for are not modelled. The typed reads return the field or an error.
- Several wiring bugs around the modelled functions are noted but not modelled, because the model follows each function's own body:
  - `speed_properties` returns `Result<()>` where its caller expects `Result<bool>`.
  - `width::width_properties` does not exist.
  - `mergeLADsWithTheSameTA` is passed two arguments but takes one.
  - `makeMRN` reads an undefined `feature`.
  - `makeWards` is called without its path.
  - Callers pass `filterFeatures`, `includeOsmID`, `autoZoom` and `args` keywords that `cleanUpGeojson` does not accept.
  - `cleanUpGeojson` (layers/utils.py:49-51) calls its callback with two arguments, the input properties and a fresh empty dictionary, ignores what it returns and stores that dictionary. The callbacks of layers/osm.py (`onlyKeepName`, `cleanUpFeature` and the `fixProps` functions) take one argument and return the new properties, so each call raises TypeError as written. The model follows the callbacks: a callback is a function from the input properties to the output properties, and the clean-up stores what it returns.
- The CLI dispatch of layers/generate_layers.py is not modelled. It is argument parsing.
- layers/sociodemographic-layers.py and layers/cars.py are left out. They are pandas and ArcGIS scripts whose logic is vectorised float banding and downloads.
- map_model, the osm2streets importer, the route snapper, the turf convex hull and `utils::Tags` are left out as foreign libraries. Tag lookups (`is`, `is_any_key`) are modelled as "the key is present with that value".
