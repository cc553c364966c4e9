# Planefence aggregation core, modelled in Dafny

Planefence listens to a local ADS-B receiver and reports the aircraft that
flew through a "fence": closer than a maximum distance and lower than a
maximum altitude. The receiver logs one CSV row per position report:
ICAO address, altitude, latitude, longitude, date, time, angle, distance,
squawk, speed, track and callsign. This project models three parts of the
code that process those rows and the configuration around them.

- **The current aggregator** (`rootfs/usr/share/planefence/planefence.py`,
  module `Planefence`).
  - `CheckArgs` models the argument checks.
  - `Decode` turns a CSV row into a sighting. The distance and altitude keep
    the 999999 sentinel unless the ICAO has six characters and the field
    parses. The altitude is corrected and then truncated.
  - `Step` updates the table of records kept per ICAO, one sighting at a
    time.
    - An empty callsign is backfilled from any later sighting.
    - An in-fence sighting moves the last-heard time, lowers the two minima
      and regenerates the tracking link.
    - The first in-fence sighting of an ICAO creates its record.
  - `Run`/`Aggregate` decode every row and fold them. The output is written
    only when a record was created.
  - The `Record` objects and the `records` dictionary are the classes
    `Record` and `Tracker`. Each method is proved against the functions
    above.
- **The legacy aggregator** (`planefence/scripts/planefence.py`, Python 2,
  module `Legacy`).
  - The same fold, kept in a numpy table of string cells whose first row is
    a header.
  - Every cell access looks up afresh the first row that holds the ICAO in
    any cell.
  - The tracking link is carried from one row to the next in a variable
    `falink`.
  - The class `LegacyTable` updates the table cell by cell, in the script's
    order. The functions `Backfill`, `Relink`, `Remeasure`, `KeepMin`,
    `Create`, `LStep` and `LFold` specify it.
- **The notifier helper library** (`rootfs/usr/lib/python3/dist-packages/pflib/__init__.py`,
  module `Pflib`).
  - Reading `planefence.config` over environment defaults.
  - Loading the plane-alert database into the global `planedb`, which is the
    class `PlaneDb`.
  - The altitude and distance-unit strings, the flightaware link and the
    emergency-squawk test.
  - Choosing the image and thumbnail of a Discord embed (`attach_media`,
    with the class `Embed`).

`PyStr` models the Python string operations these scripts use. `Wrappers`
holds the `Option` and `Result` types. Exceptions that end a run are
`Err`/`Aborted` values that carry the index of the row that raised.
`PlanefenceProps` and `LegacyProps` state what the two folds promise over
whole logs.

## Model

| member | source | states |
|---|---|---|
| Planefence.ParseTrackService | rootfs/usr/share/planefence/planefence.py:112-114 | `adsbexchange` and `flightaware` are the only accepted tracking services, each mapped to its own service |
| Planefence.ParseDistUnit | rootfs/usr/share/planefence/planefence.py:116-118 | a distance unit is accepted exactly when it is one of km, nm, mi, m |
| Planefence.CheckArgs | rootfs/usr/share/planefence/planefence.py:105-122 | the run goes ahead exactly when a log file is named, the service and unit are known and the altitude correction is non-negative; otherwise the first failing check, in the script's order, is the error |
| Planefence.PyInt | rootfs/usr/share/planefence/planefence.py:162 | `int()` truncates toward zero: the result is within one of the input and not further from zero |
| Planefence.CleanRow | rootfs/usr/share/planefence/planefence.py:132 | NUL characters are removed from every field: each field becomes the field with its NULs deleted and every other character kept in order (`RemoveChar`), so it loses exactly its NULs and is unchanged when it has none; no field is lost |
| Planefence.Decode | rootfs/usr/share/planefence/planefence.py:142-168 | a row decodes exactly when it has twelve fields; the callsign is stripped; distance and altitude stay at the sentinel unless the ICAO has six characters and the field parses; the altitude is corrected, then truncated |
| Planefence.StepOk | rootfs/usr/share/planefence/planefence.py:164-212 | one sighting keeps the table well formed: the order lists each record key once and every record is filed under its own ICAO |
| Planefence.StepKeys | rootfs/usr/share/planefence/planefence.py:179-202 | only an in-fence sighting of an unseen ICAO adds a key, at the end of the order; records of other ICAOs are untouched |
| Planefence.StepOutOfFence | rootfs/usr/share/planefence/planefence.py:171-178 | a sighting outside the fence changes at most a callsign |
| Planefence.StepCallsign | rootfs/usr/share/planefence/planefence.py:174-175 | a non-empty callsign is never overwritten; an empty one takes the sighting's callsign, in the fence or not |
| Planefence.StepMinima | rootfs/usr/share/planefence/planefence.py:186-192 | the minima never rise, each only ever takes the sighting's own value, and an in-fence sighting is at or above the new minima |
| Planefence.StepInFence | rootfs/usr/share/planefence/planefence.py:179-212 | an in-fence sighting becomes the last-heard time and regenerates the link from the current callsign; first-heard times never change; a new record starts from this sighting alone |
| Planefence.Fold | rootfs/usr/share/planefence/planefence.py:137-212 | the table after any log is well formed |
| Planefence.DecodeAll | rootfs/usr/share/planefence/planefence.py:137-142 | when no row raises, one sighting per row |
| Planefence.Output | rootfs/usr/share/planefence/planefence.py:230 | one output row per record, in insertion order, each the record filed under that ICAO |
| Planefence.Record.constructor | rootfs/usr/share/planefence/planefence.py:29-37 | the new record holds exactly the given fields |
| Planefence.Record.Absorb | rootfs/usr/share/planefence/planefence.py:183-212 | updating an existing record in place gives the refreshed record: last-heard time, minima and link |
| Planefence.Tracker.ViewOk | rootfs/usr/share/planefence/planefence.py:133 | the dictionary of live records always presents a well-formed table |
| Planefence.Tracker.constructor | rootfs/usr/share/planefence/planefence.py:133 | the dictionary starts empty |
| Planefence.Tracker.Observe | rootfs/usr/share/planefence/planefence.py:164-212 | one loop iteration over the records changes the table exactly as one fold step does |
| Planefence.Tracker.BackfillCallsign | rootfs/usr/share/planefence/planefence.py:174-175 | the callsign backfill in place matches the backfill on the table and allocates nothing |
| Planefence.Tracker.UpdateRecord | rootfs/usr/share/planefence/planefence.py:180-192 | updating the found record in place matches the in-fence step |
| Planefence.Tracker.CreateRecord | rootfs/usr/share/planefence/planefence.py:194-212 | a new record object is created and entered, matching the in-fence step |
| Planefence.Tracker.Insert | rootfs/usr/share/planefence/planefence.py:201 | storing a record adds its key to the end of the order and maps it to the record |
| Planefence.Tracker.Emit | rootfs/usr/share/planefence/planefence.py:230 | the rows produced are the output of the current table |
| Planefence.Tracker.ObserveRow | rootfs/usr/share/planefence/planefence.py:137-212 | one pass of the loop body goes ahead exactly when the row unpacks; it then extends the decoded prefix by one sighting and moves the records by one fold step, and otherwise the run ends with an exception naming this row |
| Planefence.DecodeAllNext | rootfs/usr/share/planefence/planefence.py:137-142 | decoding one more row appends its sighting, or raises there naming that row |
| Planefence.FoldNext | rootfs/usr/share/planefence/planefence.py:137-212 | folding one more sighting is one more step from the folded table |
| Planefence.Aggregate | rootfs/usr/share/planefence/planefence.py:130-234 | the imperative run computes exactly `Run`: an exception at a bad row, nothing written without a record, or the output rows |
| Planefence.DecodeAllFails | rootfs/usr/share/planefence/planefence.py:142 | a row without twelve fields, after only good rows, ends the run with an exception naming that row |
| PlanefenceProps.DedupSpec | rootfs/usr/share/planefence/planefence.py:164-201 | the first-occurrence list of ICAOs has no repeats and holds exactly the ICAOs listed |
| PlanefenceProps.FenceIcaosSpec | rootfs/usr/share/planefence/planefence.py:171-179 | the list of in-fence ICAOs holds exactly the ICAOs of some in-fence sighting |
| PlanefenceProps.FoldOrder | rootfs/usr/share/planefence/planefence.py:194-202 | records appear in the order of each ICAO's first in-fence sighting, once each |
| PlanefenceProps.FoldKeys | rootfs/usr/share/planefence/planefence.py:179-202 | an ICAO has a record exactly when it has some in-fence sighting |
| PlanefenceProps.FoldCount | rootfs/usr/share/planefence/planefence.py:194-231 | the number of records equals the number of distinct in-fence ICAOs; there is a record exactly when some sighting was in the fence |
| PlanefenceProps.StepElsewhere | rootfs/usr/share/planefence/planefence.py:174-212 | a sighting that is not an in-fence sighting of ICAO k changes at most k's callsign, and nothing of k when it is another aircraft |
| PlanefenceProps.MinAltExtend | rootfs/usr/share/planefence/planefence.py:187-188 | one more sighting keeps the minimum altitude the least of the in-fence altitudes and one of them |
| PlanefenceProps.MinDistExtend | rootfs/usr/share/planefence/planefence.py:191-192 | one more sighting keeps the minimum distance the least of the in-fence distances and one of them |
| PlanefenceProps.FoldMinAlt | rootfs/usr/share/planefence/planefence.py:186-201 | a record's minimum altitude is the minimum over its in-fence sightings: no higher than any and equal to one |
| PlanefenceProps.FoldMinDist | rootfs/usr/share/planefence/planefence.py:190-201 | a record's minimum distance is the minimum over its in-fence sightings: no larger than any and equal to one |
| PlanefenceProps.NewRecord | rootfs/usr/share/planefence/planefence.py:194-201 | an ICAO that gets its record with the last sighting had no earlier in-fence sighting |
| PlanefenceProps.FoldFirstHeard | rootfs/usr/share/planefence/planefence.py:168-201 | first-heard is the time of the ICAO's first in-fence sighting |
| PlanefenceProps.FoldLastHeard | rootfs/usr/share/planefence/planefence.py:184-212 | last-heard is the time of the ICAO's last in-fence sighting, and the link is built from that sighting and the callsign the record had then |
| PlanefenceProps.CallsignExtend | rootfs/usr/share/planefence/planefence.py:174-175 | one more sighting keeps the callsign the first non-empty one from the record's creation on |
| PlanefenceProps.FoldCallsign | rootfs/usr/share/planefence/planefence.py:144-201 | the callsign is the first non-empty one among the ICAO's sightings from its first in-fence sighting on, in the fence or not, and empty exactly when there is none |
| PlanefenceProps.NewRecordCallsign | rootfs/usr/share/planefence/planefence.py:201 | a newly created record holds the creating sighting's callsign |
| PlanefenceProps.CallsignAfterStep | rootfs/usr/share/planefence/planefence.py:174-175 | through one step, an existing callsign changes only by the backfill |
| PlanefenceProps.DecodeAllStep | rootfs/usr/share/planefence/planefence.py:137-142 | decoding one more row extends the decoded prefix, or raises at that row |
| PlanefenceProps.DecodeAllBad | rootfs/usr/share/planefence/planefence.py:142 | any row without twelve fields makes the run raise |
| PlanefenceProps.DecodeAllGood | rootfs/usr/share/planefence/planefence.py:142 | when every row has twelve fields, nothing raises |
| PlanefenceProps.DecodeAllOk | rootfs/usr/share/planefence/planefence.py:142 | decoding succeeds exactly when every row has twelve fields |
| PlanefenceProps.DecodeAllRows | rootfs/usr/share/planefence/planefence.py:132-142 | the i-th sighting is the decoding of the i-th row with its NULs removed |
| PlanefenceProps.DecodeAllErr | rootfs/usr/share/planefence/planefence.py:137-142 | the exception names the first row without twelve fields |
| PlanefenceProps.RunOutcome | rootfs/usr/share/planefence/planefence.py:130-234 | a run raises exactly when some row lacks twelve fields, at the first such row; otherwise it writes exactly when some sighting was in the fence, one row per in-fence ICAO in order of first appearance |
| PlanefenceProps.SentinelOutOfFence | rootfs/usr/share/planefence/planefence.py:146-171 | a sighting whose ICAO is not six characters long is in the fence only if both limits reach the sentinel |
| PlanefenceProps.LowerAltitudeWins | rootfs/usr/share/planefence/planefence.py:184-192 | any two in-fence sightings of one aircraft make one record, listed once, with the lower of the two altitudes and of the two distances, first-heard from the first and last-heard from the second, and the first non-empty callsign |
| PlanefenceProps.AxLinkShape | rootfs/usr/share/planefence/planefence.py:9-27 | the adsbexchange link names the lower-cased ICAO and, for an ISO date, ends with that date as the trace day |
| PlanefenceProps.TrackLinkStripped | rootfs/usr/share/planefence/planefence.py:204-212 | the stored link survives another strip, and the flightaware link is stored exactly as built |
| Legacy.ParseLinkService | planefence/scripts/planefence.py:83-85 | only `adsbx` and `fa` are accepted as link services |
| Legacy.CheckArgs | planefence/scripts/planefence.py:83-92 | the run goes ahead exactly when a log file is named, the link service and unit are known and the station coordinates parse; otherwise the first failing check is the error |
| Legacy.DistConv | planefence/scripts/planefence.py:95-102 | the per-unit divisor: 1 for km, 1.852 for nm, 1.60934 for mi, 0.001 for m |
| Legacy.RowDist | planefence/scripts/planefence.py:121-136 | without `--calcdist` the distance is field 7 or the sentinel; with it, a non-sentinel distance is the great-circle distance divided by the unit factor |
| Legacy.RowAlt | planefence/scripts/planefence.py:137-140 | the altitude is field 1 when it parses, else the sentinel; no altitude correction |
| Legacy.Locate | planefence/scripts/planefence.py:143-160 | the found row is the first row holding the ICAO in any cell; nothing is found exactly when no cell holds it |
| Legacy.Get | planefence/scripts/planefence.py:145-159 | reading a cell of the located row succeeds exactly when the ICAO is found, else raises for this row |
| Legacy.Put | planefence/scripts/planefence.py:146-160 | writing a cell changes only that cell of the located row, keeps the table's shape, and raises when the ICAO is not found |
| Legacy.At | planefence/scripts/planefence.py:118-175 | indexing a row field outside a `try` raises exactly when the row is too short |
| Legacy.Number | planefence/scripts/planefence.py:156-159 | parsing a stored cell raises exactly when it is not a number |
| Legacy.Backfill | planefence/scripts/planefence.py:145-148 | the callsign backfill keeps the table's shape and the count of created rows, and leaves every row that does not hold the ICAO unchanged; the values written are stated by `LegacyProps.BackfillAt` |
| Legacy.KeepMin | planefence/scripts/planefence.py:156-160 | the minimum update keeps the table's shape and leaves every row that does not hold the ICAO unchanged; the values written are stated by `LegacyProps.KeepMinAt` |
| Legacy.Relink | planefence/scripts/planefence.py:149-152 | the link rewrite keeps the table's shape and the count of created rows, and leaves every row that does not hold the ICAO unchanged; the values written are stated by `LegacyProps.RelinkAt` |
| Legacy.Remeasure | planefence/scripts/planefence.py:154-160 | the last-heard and minimum updates keep the table's shape and leave every row that does not hold the ICAO unchanged; the values written are stated by `LegacyProps.RemeasureAt` |
| Legacy.Update | planefence/scripts/planefence.py:143-160 | an update of a known ICAO keeps the table's shape and the count of created rows, and leaves every row that does not hold the ICAO unchanged; the values written are stated by `LegacyProps.UpdateCells` |
| Legacy.NewRow | planefence/scripts/planefence.py:175 | a created row has seven cells: ICAO, stripped callsign, first and last heard, raw altitude, one-decimal distance, and the link only when there is a callsign |
| Legacy.Create | planefence/scripts/planefence.py:162-176 | creation succeeds exactly when the row has twelve fields; it appends exactly `NewRow` of the row, counts it, and sets the carried link to the flightaware link of this ICAO and callsign or the station link of this date |
| Legacy.LStep | planefence/scripts/planefence.py:117-176 | one row keeps every table row seven cells wide, never shrinks the table and keeps the header first |
| Legacy.LFold | planefence/scripts/planefence.py:114-176 | the table after any log keeps its header and seven-cell rows |
| Legacy.LegacyTable.constructor | planefence/scripts/planefence.py:114-116 | the table starts as the header row alone, with no carried link and no created rows |
| Legacy.LegacyTable.Write | planefence/scripts/planefence.py:146-160 | one cell assignment in place is the table-level `Put`, or raises and leaves the table unchanged |
| Legacy.LegacyTable.LowerCell | planefence/scripts/planefence.py:156-160 | the minimum update in place matches `KeepMin` |
| Legacy.LegacyTable.BackfillRow | planefence/scripts/planefence.py:145-148 | the backfill in place matches `Backfill`, including the carried flightaware link |
| Legacy.LegacyTable.RelinkRow | planefence/scripts/planefence.py:149-152 | the link rewrite in place matches `Relink` |
| Legacy.LegacyTable.RemeasureRow | planefence/scripts/planefence.py:154-160 | the last-heard and minimum updates in place match `Remeasure` |
| Legacy.LegacyTable.UpdateRow | planefence/scripts/planefence.py:143-160 | the cell-by-cell update in place matches `Update` |
| Legacy.LegacyTable.AppendRow | planefence/scripts/planefence.py:162-176 | appending a row in place matches `Create` |
| Legacy.LegacyTable.Observe | planefence/scripts/planefence.py:117-176 | one loop iteration in place matches `LStep` |
| Legacy.LegacyMain | planefence/scripts/planefence.py:111-197 | the imperative loop and write computes exactly `LRun` |
| Legacy.LFoldFails | planefence/scripts/planefence.py:117-176 | an exception on one row ends the run with that exception, whatever the later rows are |
| LegacyProps.HeaderNeverMatched | planefence/scripts/planefence.py:114-143 | no header cell has six characters, so the header row is never the row an ICAO locates |
| LegacyProps.PutKeeps | planefence/scripts/planefence.py:146-160 | a cell write changes only record rows, and only the written column |
| LegacyProps.ColKeptTrans | planefence/scripts/planefence.py:143-160 | an untouched column stays untouched through two updates |
| LegacyProps.KeepsTrans | planefence/scripts/planefence.py:143-160 | "only record cells of columns 1 to 6 change" composes over two updates |
| LegacyProps.MinOnlyThen | planefence/scripts/planefence.py:156-160 | a lowered minimum stays lowered through a later update that leaves its column alone |
| LegacyProps.MinOnlyBefore | planefence/scripts/planefence.py:156-160 | a lowered minimum stays lowered after an earlier update that left its column alone |
| LegacyProps.KeepMinKeeps | planefence/scripts/planefence.py:156-160 | the minimum update changes one column only, and only to the row's value when that is below the stored one |
| LegacyProps.RemeasureKeeps | planefence/scripts/planefence.py:154-160 | lines 154-160 keep the ICAO, callsign, first-heard and link cells, and change each minimum only to the row's value when that is strictly below the stored number |
| LegacyProps.BackfillKeeps | planefence/scripts/planefence.py:145-148 | the backfill changes only callsign cells, and when the located callsign cell is empty, as line 145 tests, no callsign that was set changes |
| LegacyProps.RelinkKeeps | planefence/scripts/planefence.py:149-152 | the link rewrite changes only link cells |
| LegacyProps.BackfillCallsign | planefence/scripts/planefence.py:145-146 | when the located row's callsign is empty: a blank row callsign changes nothing; otherwise the located row's callsign cell becomes the row's stripped callsign and, with flightaware links, the carried link is rebuilt from it; non-empty callsign cells are kept |
| LegacyProps.UpdateKeeps | planefence/scripts/planefence.py:143-160 | an update of a known ICAO changes record cells only: never the ICAO or first-heard cell, a callsign only when it was empty, minima only downward to this row's values |
| LegacyProps.LStepInv | planefence/scripts/planefence.py:117-176 | one row keeps the invariant: header first, seven-cell rows, one more row per created record |
| LegacyProps.LFoldInv | planefence/scripts/planefence.py:114-176 | every state the loop reaches satisfies the invariant |
| LegacyProps.LStepSkips | planefence/scripts/planefence.py:118-162 | a row whose ICAO is not six characters long, or that is out of range, changes nothing |
| LegacyProps.ServiceLinkNonEmpty | planefence/scripts/planefence.py:169-175 | both services' links are non-empty after the strip, and the flightaware link is left unchanged by it |
| LegacyProps.LStepCreates | planefence/scripts/planefence.py:162-176 | an in-range row of an ICAO found in no cell appends exactly `NewRow` built with the service's link, keeps all other rows and counts one more aircraft |
| LegacyProps.LStepCells | planefence/scripts/planefence.py:117-176 | one row never changes an existing ICAO or first-heard cell or a set callsign, changes a minimum only downward to this row's value, and otherwise appends rows |
| LegacyProps.FaUpdateUsesCarriedLink | planefence/scripts/planefence.py:145-152 | with flightaware links, updating an aircraft whose callsign is already set stores the link carried from an earlier row |
| LegacyProps.LRunWritten | planefence/scripts/planefence.py:183-197 | the written rows are the folded table without its header, and nothing is written exactly when no row was created |
| LegacyProps.PutLocate | planefence/scripts/planefence.py:146-160 | a write to another column of the row that holds the ICAO in column 0 succeeds and keeps that row locatable |
| LegacyProps.KeepMinLocate | planefence/scripts/planefence.py:156-160 | the minimum update on such a row succeeds and keeps it locatable |
| LegacyProps.FaLinkStripped | planefence/scripts/planefence.py:148-170 | a flightaware link has no surrounding whitespace, and its length is the prefix, ICAO, callsign and fixed text |
| LegacyProps.UpdateOk | planefence/scripts/planefence.py:143-160 | updating an aircraft whose row carries its ICAO in column 0 and numeric minima raises nothing, with or without a callsign |
| LegacyProps.RemeasureOk | planefence/scripts/planefence.py:154-160 | the last-heard and minimum updates on such a row raise nothing |
| LegacyProps.LFoldSnoc | planefence/scripts/planefence.py:117 | folding one more row is one more step from the folded state |
| LegacyProps.PutAt | planefence/scripts/planefence.py:146-160 | a write to a row that holds the ICAO in another column changes exactly that cell and keeps the row locatable |
| LegacyProps.KeepMinAt | planefence/scripts/planefence.py:156-160 | on such a row the stored minimum becomes the row's value exactly when that is below the stored number; nothing else changes |
| LegacyProps.RemeasureAt | planefence/scripts/planefence.py:154-160 | on such a row, last-heard becomes the row's date and time and each minimum is lowered to the row's value when below it; nothing else changes |
| LegacyProps.BackfillAt | planefence/scripts/planefence.py:145-148 | on such a row, a non-blank row callsign fills the callsign cell and, with flightaware, rebuilds the carried link; a blank one changes nothing |
| LegacyProps.RelinkAt | planefence/scripts/planefence.py:149-152 | on such a row, the link cell takes the stripped link: the station link of this date with adsbexchange, else the carried one |
| LegacyProps.CallsignStepAt | planefence/scripts/planefence.py:145-148 | the callsign read and conditional backfill leave the located row with its callsign filled only when it was empty |
| LegacyProps.Heard | planefence/scripts/planefence.py:143-160 | the state left by an update rewrites only the located row, and its last-heard is the row's date and time |
| LegacyProps.UpdateCells | planefence/scripts/planefence.py:143-160 | an update of an aircraft whose located row holds the ICAO in one of its first three cells leaves exactly `Heard`: callsign filled only if empty, link from the service, last-heard set, minima lowered only to a strictly lower reading |
| LegacyProps.UpdateHitsCallsignCell | planefence/scripts/planefence.py:143-160 | the lookup matches any cell: when an earlier row's callsign equals a later aircraft's ICAO, that aircraft's update lands on the earlier row and its own row stays as it was |
| LegacyProps.StaleFirst | planefence/scripts/planefence.py:162-176 | the first row of a flightaware log creates A's row with its own link |
| LegacyProps.StaleSecond | planefence/scripts/planefence.py:162-176 | a row of another aircraft B without a callsign is created with an empty callsign and link but resets the carried link to B's |
| LegacyProps.StaleUpdate | planefence/scripts/planefence.py:143-152 | a later in-range row of A, whose callsign is set, writes the carried link into A's row |
| LegacyProps.StaleFlightawareLink | planefence/scripts/planefence.py:145-152 | with flightaware links, the log A, B, A leaves A's row holding B's link, not A's |
| Pflib.ApplyLastSet | rootfs/usr/lib/python3/dist-packages/pflib/__init__.py:76-81 | after a run of dictionary assignments, a key holds the value of its last assignment |
| Pflib.ApplyUnset | rootfs/usr/lib/python3/dist-packages/pflib/__init__.py:76-81 | a key no assignment sets keeps its earlier entry, or stays absent |
| Pflib.LineAssignment | rootfs/usr/lib/python3/dist-packages/pflib/__init__.py:77-81 | a config line assigns exactly when it is not a comment and has exactly one `=` |
| Pflib.LineAssignmentOf | rootfs/usr/lib/python3/dist-packages/pflib/__init__.py:79-81 | a line `key=value` with no other `=` assigns the stripped value to the stripped key |
| Pflib.LineAssignmentParts | rootfs/usr/lib/python3/dist-packages/pflib/__init__.py:79-81 | an assigning line is its key, `=` and value text, which the assignment holds stripped |
| Pflib.Assignments | rootfs/usr/lib/python3/dist-packages/pflib/__init__.py:76-81 | one assignment or none per line |
| Pflib.ConfigLastLine | rootfs/usr/lib/python3/dist-packages/pflib/__init__.py:62-81 | the last line that assigns a key decides its value |
| Pflib.ConfigUnassigned | rootfs/usr/lib/python3/dist-packages/pflib/__init__.py:62-81 | without an assigning line, a key is present exactly when it has an environment default, with that value; `DISCORD_MEDIA` is then the environment's or empty |
| Pflib.WebhookParts | rootfs/usr/lib/python3/dist-packages/pflib/__init__.py:87-91 | each webhook list is the comma-split of its entry (joining gives it back); an empty entry gives `[""]` |
| Pflib.ParseConfig | rootfs/usr/lib/python3/dist-packages/pflib/__init__.py:60-91 | the imperative reading loop gives the defaults overridden by the file's lines, with the webhook lists split |
| Pflib.FieldOr | rootfs/usr/lib/python3/dist-packages/pflib/__init__.py:117-144 | a field that exists is read, a missing one is empty |
| Pflib.NonEmpty | rootfs/usr/lib/python3/dist-packages/pflib/__init__.py:126-134 | the photo list keeps exactly the non-empty links, never more than it was given |
| Pflib.NonEmptyAppend | rootfs/usr/lib/python3/dist-packages/pflib/__init__.py:126-134 | filtering a concatenation filters each part, so the links keep their order and repetitions; a single link is kept exactly when it is non-empty |
| Pflib.PlaneOf | rootfs/usr/lib/python3/dist-packages/pflib/__init__.py:112-134 | an entry carries the row's ICAO, tail number, owner and type, fields 4-10 or `""` where the row is shorter, and a photo list exactly when the row has more than eleven fields, holding the non-empty links of fields 11-13 in order |
| Pflib.BlankRowAborts | rootfs/usr/lib/python3/dist-packages/pflib/__init__.py:109 | as written a blank CSV row raises; the corrected test skips it; the two agree on every other row |
| Pflib.LoadRows | rootfs/usr/lib/python3/dist-packages/pflib/__init__.py:101-136 | the load as written (a blank line raises): every database entry is filed under its own ICAO |
| Pflib.RowAssignments | rootfs/usr/lib/python3/dist-packages/pflib/__init__.py:104-136 | one dictionary assignment or none per row |
| Pflib.LoadRowsApply | rootfs/usr/lib/python3/dist-packages/pflib/__init__.py:101-136 | a load without error is the last-write-wins dictionary of the added rows |
| Pflib.LoadRowsLast | rootfs/usr/lib/python3/dist-packages/pflib/__init__.py:136 | a later row for the same ICAO replaces an earlier one |
| Pflib.LoadRowsAbsent | rootfs/usr/lib/python3/dist-packages/pflib/__init__.py:109-136 | an ICAO no row adds is not in the database |
| Pflib.LoadRowsError | rootfs/usr/lib/python3/dist-packages/pflib/__init__.py:109-116 | the load raises exactly when some row is blank or is a non-comment row of fewer than four fields, with the first such row's error |
| Pflib.LoadRowsBlankAborts | rootfs/usr/lib/python3/dist-packages/pflib/__init__.py:108-110 | as written, a blank line after a clean load ends it with `IndexError` at that line, keeping the entries read so far |
| Pflib.LoadRowsFixed | rootfs/usr/lib/python3/dist-packages/pflib/__init__.py:101-136 | the load with the corrected test: every database entry is filed under its own ICAO |
| Pflib.LoadRowsSkipsBlank | rootfs/usr/lib/python3/dist-packages/pflib/__init__.py:108-110 | with the corrected test, a blank line changes nothing |
| Pflib.LoadRowsAgree | rootfs/usr/lib/python3/dist-packages/pflib/__init__.py:108-136 | the loads as written and corrected agree on every file without a blank line |
| Pflib.LoadRowsAbort | rootfs/usr/lib/python3/dist-packages/pflib/__init__.py:104-116 | once a row raises, the database holds what the earlier rows added and later rows are not read |
| Pflib.PlaneDb.constructor | rootfs/usr/lib/python3/dist-packages/pflib/__init__.py:57 | the database starts empty |
| Pflib.PlaneDb.Load | rootfs/usr/lib/python3/dist-packages/pflib/__init__.py:98-136 | the imperative load, as written, replaces the database by `LoadRows` of the rows and reports its error |
| Pflib.PlaneDb.Info | rootfs/usr/lib/python3/dist-packages/pflib/__init__.py:146-147 | an entry is returned exactly when the ICAO is in the database, and it is that ICAO's entry |
| Pflib.LoadConfig | rootfs/usr/lib/python3/dist-packages/pflib/__init__.py:60-95 | the configuration as `ParseConfig` gives it, then the database loaded from the plane file |
| Pflib.DistanceUnit | rootfs/usr/lib/python3/dist-packages/pflib/__init__.py:168-177 | the result is a unit the fence script accepts: nm, km or m for their names, mi for anything else |
| Pflib.GroupedReadsBack | rootfs/usr/lib/python3/dist-packages/pflib/__init__.py:165 | the thousands separators dropped, `'{:,}'` reads as the plain decimal integer |
| Pflib.AltitudeStrSpec | rootfs/usr/lib/python3/dist-packages/pflib/__init__.py:149-166 | the altitude text is the altitude less a positive all-digit elevation, then `m` or `ft`, then `AGL` exactly when an elevation applies |
| Pflib.CleanId | rootfs/usr/lib/python3/dist-packages/pflib/__init__.py:183-184 | cleaning strips and then deletes every `[` and `]`, keeping every other character in order |
| Pflib.FlightawareLink | rootfs/usr/lib/python3/dist-packages/pflib/__init__.py:182-185 | the link has no brackets |
| Pflib.FlightawareLinkAgrees | rootfs/usr/lib/python3/dist-packages/pflib/__init__.py:182-185 | for a clean lower-case ICAO and callsign, the helper's link is the fence script's flightaware link |
| Pflib.IsEmergency | rootfs/usr/lib/python3/dist-packages/pflib/__init__.py:187-188 | an emergency squawk is four characters of the form 7x00 with x in 5, 6, 7 |
| Pflib.EmergencyShape | rootfs/usr/lib/python3/dist-packages/pflib/__init__.py:187-188 | every 7500, 7600 and 7700 squawk is an emergency |
| Pflib.Candidates | rootfs/usr/lib/python3/dist-packages/pflib/__init__.py:198-212 | only the combined modes produce a thumbnail, and the photo becomes the image only in the photo modes |
| Pflib.Placement | rootfs/usr/lib/python3/dist-packages/pflib/__init__.py:214-226 | nothing is set without a URL; a lone thumbnail becomes the image; a thumbnail is set only beside an image |
| Pflib.Embed.constructor | rootfs/usr/lib/python3/dist-packages/pflib/__init__.py:190 | a fresh embed has neither image nor thumbnail |
| Pflib.Embed.SetImage | rootfs/usr/lib/python3/dist-packages/pflib/__init__.py:224 | setting the image leaves the thumbnail |
| Pflib.Embed.SetThumbnail | rootfs/usr/lib/python3/dist-packages/pflib/__init__.py:226 | setting the thumbnail leaves the image |
| Pflib.AttachMedia | rootfs/usr/lib/python3/dist-packages/pflib/__init__.py:190-226 | a missing `DISCORD_MEDIA` key raises and leaves the embed; otherwise the embed gets the image and thumbnail of the mode's candidates after the swap, and keeps what was not set |
| PyStr.TrimLeftShape | rootfs/usr/share/planefence/planefence.py:144 | left trimming drops only whitespace and stops at the first other character |
| PyStr.TrimRightShape | rootfs/usr/share/planefence/planefence.py:144 | right trimming drops only whitespace and stops at the last other character |
| PyStr.StripShape | rootfs/usr/share/planefence/planefence.py:144 | `strip()` keeps one infix with only whitespace cut off on both sides |
| PyStr.StripIdempotent | rootfs/usr/share/planefence/planefence.py:212 | stripping twice is stripping once |
| PyStr.StripUnchanged | rootfs/usr/share/planefence/planefence.py:212 | a string without surrounding whitespace is left as it is |
| PyStr.Slice | rootfs/usr/share/planefence/planefence.py:25 | Python slicing clamps both bounds and is the plain subsequence when they are in range |
| PyStr.Prefix | rootfs/usr/share/planefence/planefence.py:168 | `s[:n]` is the first n characters, or all of them |
| PyStr.Split | rootfs/usr/lib/python3/dist-packages/pflib/__init__.py:79 | `split` gives one more piece than separators, none holding a separator |
| PyStr.JoinSplit | rootfs/usr/lib/python3/dist-packages/pflib/__init__.py:88-89 | joining the pieces of a split gives the string back |
| PyStr.SplitJoin | rootfs/usr/lib/python3/dist-packages/pflib/__init__.py:88-89 | splitting a join of separator-free pieces gives the pieces back |
| PyStr.RemoveChar | rootfs/usr/lib/python3/dist-packages/pflib/__init__.py:183-184 | removing a character leaves every other character and none of it |
| PyStr.DecimalString | rootfs/usr/lib/python3/dist-packages/pflib/__init__.py:158-159 | `str(n)` is a digit string without a leading zero that `int()` reads back as n |
| PyStr.UngroupDigits | rootfs/usr/lib/python3/dist-packages/pflib/__init__.py:165 | removing the commas from grouped digits gives the digits back |
| PyStr.GroupDigitsShape | rootfs/usr/lib/python3/dist-packages/pflib/__init__.py:165 | every comma-separated group but the first has three digits, and the first has one to three |

## Left out

- Argument parsing with `getopt`, the usage text, and the verbose and error printing are not modelled. `sys.exit(2)` is the `Err` of `CheckArgs`.
- File opening, CSV reading and writing, and CSV quoting are not modelled: the rows come in as `seq<seq<string>>` and go out as values. The current `--calcdist` flag is parsed but never used, so it is absent.
- `float()`, the haversine formula and `"{:.1f}".format` are configuration parameters (`parseFloat`, `haversine`, `fmt1`), because the model has no floating point. Reals are exact, so rounding in the altitude correction and distance conversion is not modelled.
- `parseFloat` only yields finite values, so the `int()` of an infinite or NaN altitude, which raises, is not modelled.
- `str(lat)`/`str(lon)` of the legacy station coordinates are passed as their command-line text.
- The timezone conversion in `get_ax_link` (lines 13-22) always raises on the undefined `naive` and falls back to the degraded link. `AxLink` models only that fallback; `get_timezone_str` needs the clock and is left out.
- `PyStr.Lower` lowers ASCII letters only, `IsDigits` accepts ASCII digits only, and Python 2 byte-string `strip()` uses the C-locale whitespace set. ICAO addresses, dates and squawks are ASCII.
- The legacy script sets `trackservice` only from `--trackservice` (lines 34 and 66-67) and never checks its value. Without the option, the first in-range row raises `NameError` at line 169. With a value other than `adsbexchange` or `flightaware`, `falink` is never assigned, so line 152 raises and so does line 175 for a row with a callsign. The model assumes a valid `--trackservice`: `cfg.service` is one of the two services.
- The legacy NUL removal and field unpacking go through the same CSV reading as above. The legacy fold indexes raw fields directly, so short rows raise `ShortRow` as in the script.
- `Planefence.Linker`: the fold takes the link builder as a parameter, so its properties hold for any builder. `Run`, `Aggregate` and the classes use the real one, `Links(cfg)`.
- `LegacyProps.StaleFlightawareLink` is stated one `LStep` at a time from the initial table; `LFoldSnoc` connects such steps to `LFold`.
- Pflib's `testmsg`, `init_log`, `log`, the `DEBUG` pretty-print, `InvalidConfigException` (`split` on a string cannot raise) and the Discord sending code are not modelled: they are output or network code.
- `load_config` reads `planefence.config` and the plane file from disk. `LoadConfig` takes the config file's lines as an `Option` (`None` when it does not exist) and the plane file's CSV rows as parameters, so the `PLANEFILE` entry is not used to open a file.
- `get_photo_url` makes a random choice and `get_screenshot_url` reads the filesystem. `AttachMedia` takes their results as the parameters `photo` and `screenshot`. The unknown-mode log line is not modelled.
- Pflib.FlightawareLink: its own contract states only that no bracket survives. The exact link is stated by `FlightawareLinkAgrees` for clean identifiers, because `strip()` and bracket removal interleave.
- Pflib.Candidates: its contract states only which modes produce a thumbnail and a photo image. `AttachMedia` states the full effect through it.
- LegacyProps.UpdateCells: states the written values only when the located row holds the ICAO in one of its first three cells (its own ICAO cell or a callsign cell). When the ICAO matches only a later cell, a write can remove the match, so the later writes raise or land on another row; `Legacy.Update` models that, but no lemma spells it out.
- Legacy.RowDist: with `--calcdist` it states the computed distance only when it is not the sentinel, because a coordinate that fails to parse and a computed 999999 cannot be told apart.

## Findings

| source | as written | input that shows it | evidently intended | confidence | as-written member | corrected member |
|---|---|---|---|---|---|---|
| rootfs/usr/lib/python3/dist-packages/pflib/__init__.py:109 | `row[0].startswith("#")` is evaluated before `not row`, so a blank CSV line (an empty row) raises `IndexError` and ends the load | a plane file with an empty line | the comment says empty lines are skipped: test `not row` first | not executed | Pflib.LoadRowsBlankAborts | Pflib.LoadRowsSkipsBlank |

`PlaneDb.Load` and `LoadConfig` follow the code as written. `LoadRowsFixed` is the load with the corrected test, and `LoadRowsAgree` shows that the two differ only on files with a blank line.
