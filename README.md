# NPMRDS tools: a verified model of the conflation, naming and tagging logic

SACOG's NPMRDS tools take travel-time data published per TMC (Traffic Message Channel road
segment) by the National Performance Management Research Data Set and put it to use in
three ways. The scripts do this by:

- conflating TMC speeds and reliability indices (LOTTR) onto a project line;
- loading the raw travel-time CSV downloads into SQL Server tables;
- tagging TMCs and PeMS count stations with directions.

This project models the deterministic logic inside those scripts and proves what it
promises. Everything a GIS engine, a database or the file system does is an input or is
left out.

The modules are:

- `Aggregation` (aggregation.dfy): the row filter on the split project pieces, and the two
  averaging modes.
  - The inverse-speed (travel-time, harmonic) average comes with the batch tool's zero
    guard and also without it, as in the single-project tool.
  - The distance-weighted average falls back to the plain mean.
  - Bounds are proved for both averages, and so is the fact that the harmonic mean never
    exceeds the arithmetic one.
- `ConflatedRows` (conflated_rows.dfy): `conflate_tmc2projline`'s one-row dict, filled in
  the scripts' loop order. It holds the project length, then for each direction
  `<dir>_calc_len` and one aggregate per field.
- `RowSelection`, `TmcRows` (row_selection.dfy, tmc_rows.dfy): what the two
  `simplify_outputs` share.
  - The 10% coverage test.
  - `idxmax` (the first maximum) and the second maximum.
  - The `_calc_len` and direction column selections, on the row that conflation actually
    builds.
- `BatchConflation` (batch_conflation.dfy): the `NPMRDS` class. It covers its field table,
  `simplify_outputs` with the 75% two-way test, `get_npmrds_data_project` and
  `get_npmrds_data_batch`. The batch method numbers the projects, cleans their names and
  splits the measure names with `str.extract`.
- `ProjectConflation` (project_conflation.dfy): `projectTMCConflation`.
  - Its `simplify_outputs` has no two-way test.
  - `make_df` parses each key and pivots.
  - The `("OK", table)` / `("Failed to complete.", traceback)` status of `get_npmrds_data`.
- `KeyParsing` (key_parsing.dfy): the patterns `(.*BOUND).*` and `.*BOUND(.*)`, which split
  at the last "BOUND".
- `ForbiddenChars` (forbidden_chars.dfy): `remove_forbidden_chars`.
- `RawLoader`, `RawLoaderArchived` (raw_loader.dfy, raw_loader_archived.dfy): in both
  loader versions, `get_attr`, the `RawTTCSV` file and table names, and the `DataSet`
  download list.
- `PemsConflation` (pems.dfy): `tmc2pems`.
  - The signed-direction to PeMS-direction dictionary.
  - The TMC dictionaries and the per-TMC station lists.
  - The reverse station-to-TMC dictionary, in which the last TMC wins.
- `CardinalDirection` (cardinal.dfy): `get_card_dir` in its four copies, and the cursor
  loops that write the angle and the direction name onto each row.
- Shared helpers: `PyDict` (a Python dict that keeps insertion order), `Strings`
  (`find`, `in`, `startswith`, `str`/`int` of a number) and `Wrappers` (Option, Result,
  Python errors).

Python integers and floats are modelled as `int` and `real`. A numpy float result is a
`Cell`: a number, NaN or inf. The model uses `Cell` wherever the source divides by a value
that can be zero without raising. Python exceptions are `Err` values of `Result`.

Some behaviours of the code are easy to miss:

- For a direction whose pieces have zero total travel time, the batch tool's inverse average
  returns 0, and the single-project tool's returns numpy's nan or inf.
- A project with under 10% coverage makes both tools fail on that project; see Findings.
- There is no per-direction data-quality failure: a direction without usable pieces gets a
  covered length of 0.

## Model

| member | source | states |
|---|---|---|
| Aggregation.Retained | npmrds-projline-conflate/srcpy/npmrds_data_conflation_batchprocess.py:211-215 | the retained pieces are exactly the input pieces with a non-null first metric, a positive length and every present metric > 0, each kept piece occurring as often as in the input |
| Aggregation.RetainedConcat | npmrds-projline-conflate/srcpy/npmrds_data_conflation_batchprocess.py:211-215 | the filter keeps the pieces in their input order: filtering a concatenation is the concatenation of the filtered parts |
| Aggregation.RetainedAllKept | npmrds-projline-conflate/srcpy/npmrds_data_conflation_batchprocess.py:211-215 | pieces that all pass the filter come through unchanged |
| Aggregation.NonPositiveMetricExcluded | npmrds-projline-conflate/srcpy/npmrds_project_conflation.py:167-168 | a piece with any present metric <= 0 is excluded, whatever its other metrics are |
| Aggregation.CheckFieldAlwaysPresent | npmrds-projline-conflate/srcpy/npmrds_data_conflation_batchprocess.py:202-212 | the check field (the first metric) is present in every retained piece |
| Aggregation.SumLenSign | npmrds-projline-conflate/srcpy/npmrds_data_conflation_batchprocess.py:217-218 | the covered length `<dir>_calc_len` of retained pieces is >= 0, and > 0 exactly when some piece is retained |
| Aggregation.SumMilesIsFeet | npmrds-projline-conflate/srcpy/npmrds_data_conflation_batchprocess.py:136 | the total miles are the total feet over 5280 |
| Aggregation.SumTravelHoursIsFeet | npmrds-projline-conflate/srcpy/npmrds_data_conflation_batchprocess.py:133-137 | the total travel hours are the sum of length / speed over 5280, so the ft-to-mile factor cancels |
| Aggregation.SumLenPerSpeedSign | npmrds-projline-conflate/srcpy/npmrds_data_conflation_batchprocess.py:141 | the total travel time is >= 0, and > 0 exactly when some speed is present |
| Aggregation.WtdSpeedIsHarmonicMean | npmrds-projline-conflate/srcpy/npmrds_data_conflation_batchprocess.py:126-146 | when some speed is present, both `get_wtd_speed` variants return the length-weighted harmonic mean (sum of length) / (sum of length / speed) |
| Aggregation.WtdSpeedNoData | npmrds-projline-conflate/srcpy/npmrds_project_conflation.py:86-103 | with no speed present the batch variant returns 0; the single-project variant returns nan with no piece and inf otherwise |
| Aggregation.WtdSpeedVariantsAgree | npmrds-projline-conflate/srcpy/npmrds_data_conflation_batchprocess.py:141-144 | the two variants agree exactly when the total travel hours are > 0 (the batch guard) |
| Aggregation.CheckFieldSpeedDefined | npmrds-projline-conflate/srcpy/npmrds_data_conflation_batchprocess.py:202-215 | for the check field on a nonempty retained set the guard never fires, and the variants agree |
| Aggregation.DistWtdAvgFallback | npmrds-projline-conflate/srcpy/npmrds_data_conflation_batchprocess.py:229-237 | the plain-mean fallback happens exactly when no piece is retained and is nan; otherwise the result is sum(value times length) / sum(length) |
| Aggregation.DistWtdAvgBounds | npmrds-projline-conflate/srcpy/npmrds_data_conflation_batchprocess.py:230-234 | the distance-weighted average is at most the largest value, and at least the smallest when every value is present |
| Aggregation.HarmonicMeanBounds | npmrds-projline-conflate/srcpy/npmrds_data_conflation_batchprocess.py:141-142 | the inverse-speed average is at least the smallest present speed, and at most the largest when every speed is present |
| Aggregation.HarmonicAtMostWeighted | npmrds-projline-conflate/srcpy/npmrds_data_conflation_batchprocess.py:222-237 | with every value present, the travel-time average never exceeds the distance-weighted average of the same field |
| Aggregation.TravelTimeExample | npmrds-projline-conflate/srcpy/npmrds_data_conflation_batchprocess.py:133-142 | two one-mile pieces at 30 and 60 mph average 40 mph |
| Aggregation.DistanceWeightedExample | npmrds-projline-conflate/srcpy/npmrds_data_conflation_batchprocess.py:231-232 | lengths 2 and 1 with indices 1.0 and 1.4 average 3.4 / 3 |
| ConflatedRows.AggregateField | npmrds-projline-conflate/srcpy/npmrds_data_conflation_batchprocess.py:222-239 | no value exactly for an unrecognised method; with data, either inverse average is the harmonic mean of the speeds over a positive sum of length per speed; with no data the guarded one is 0; the distance-weighted average is the length-weighted mean, and NaN with no pieces |
| ConflatedRows.MetricsOfNames | npmrds-projline-conflate/srcpy/npmrds_data_conflation_batchprocess.py:222-239 | the columns a direction gets are the names of the fields with a recognised method, in field order, whatever the data |
| ConflatedRows.RecognisedNamesOf | npmrds-projline-conflate/srcpy/npmrds_data_conflation_batchprocess.py:87-92 | recognised names are field names; distinct field names stay distinct; with every method recognised all fields appear |
| ConflatedRows.Prefixed | npmrds-projline-conflate/srcpy/npmrds_data_conflation_batchprocess.py:227 | every output key is the direction name followed by the field name, with the aggregate unchanged; distinct field names give distinct keys |
| ConflatedRows.ConflateSpec | npmrds-projline-conflate/srcpy/npmrds_data_conflation_batchprocess.py:163-218 | one result per direction, in order; its covered length is the total length of that direction's retained pieces, and its metric names are exactly the recognised fields, whatever the pieces |
| ConflatedRows.AddDirection | npmrds-projline-conflate/srcpy/npmrds_data_conflation_batchprocess.py:211-239 | one pass of the direction loop assigns `<dir>_calc_len` and then each aggregate to the dict, in field order |
| ConflatedRows.ConflateTmc2ProjLine | npmrds-projline-conflate/srcpy/npmrds_data_conflation_batchprocess.py:149-245 | `out_row_dict` is the dict built from the project length followed by every direction's columns, in loop order |
| KeyParsing.LastBoundAt | npmrds-projline-conflate/srcpy/npmrds_data_conflation_batchprocess.py:288-289 | the greedy `.*` stops at the last "BOUND": no occurrence lies after the index returned |
| KeyParsing.ParseKeyNone | npmrds-projline-conflate/srcpy/npmrds_data_conflation_batchprocess.py:296-297 | the patterns fail exactly on names without "BOUND" |
| KeyParsing.ParseKeySplits | npmrds-projline-conflate/srcpy/npmrds_data_conflation_batchprocess.py:288-297 | the direction group ends in "BOUND", the metric group holds no "BOUND", and the two concatenate to the name |
| KeyParsing.ParseKeyOfJoin | npmrds-projline-conflate/srcpy/npmrds_data_conflation_batchprocess.py:405-409 | a direction ending in "BOUND" followed by a metric without "BOUND" parses back into exactly those two parts |
| KeyParsing.ParseKeyInjective | npmrds-projline-conflate/srcpy/npmrds_project_conflation.py:255-258 | distinct parseable names give distinct (direction, metric) pairs, so the pivot sees no duplicate cell |
| KeyParsing.ParseKeyExample | npmrds-projline-conflate/srcpy/npmrds_project_conflation.py:247-256 | "NORTHBOUNDlottr_ampk" splits into "NORTHBOUND" and "lottr_ampk" |
| RowSelection.RatioCompare | npmrds-projline-conflate/srcpy/npmrds_data_conflation_batchprocess.py:260 | for a positive denominator, `a / b < t` and `a / b > t` are the plain comparisons of a with t times b |
| RowSelection.RatioByZero | npmrds-projline-conflate/srcpy/npmrds_data_conflation_batchprocess.py:275 | dividing by a zero length is never "below" a threshold, and is "above" one exactly for a positive numerator (inf) |
| RowSelection.CalcLenColumns | npmrds-projline-conflate/srcpy/npmrds_data_conflation_batchprocess.py:253-255 | the `re.search('.*_calc_len')` selection keeps only covered-length columns |
| RowSelection.SelectPrefix | npmrds-projline-conflate/srcpy/npmrds_data_conflation_batchprocess.py:269 | the `re.match(dir, c)` selection keeps only columns starting with the direction name |
| RowSelection.FirstMax | npmrds-projline-conflate/srcpy/npmrds_data_conflation_batchprocess.py:264 | `idxmax` gives an index holding the maximum, with every earlier value strictly smaller (first wins) |
| RowSelection.SecondMax | npmrds-projline-conflate/srcpy/npmrds_data_conflation_batchprocess.py:265-266 | after dropping the longest column, `idxmax` gives the first index other than it that holds the largest remaining value |
| RowSelection.ChooseDirections | npmrds-projline-conflate/srcpy/npmrds_data_conflation_batchprocess.py:248-268 | the chosen columns are covered-length columns, and the second length is between 0 and the longest |
| RowSelection.DirOfCalcCol | npmrds-projline-conflate/srcpy/npmrds_data_conflation_batchprocess.py:268 | `col[:col.find('_calc_len')]` gives back the direction of a covered-length column |
| RowSelection.ConflatedRowShape | npmrds-projline-conflate/srcpy/npmrds_data_conflation_batchprocess.py:153-245 | the conflated row holds the project length, one covered-length column per direction in order, each direction's block found by its name, and no key twice |
| RowSelection.ChooseOnConflatedRow | npmrds-projline-conflate/srcpy/npmrds_data_conflation_batchprocess.py:248-266 | no data exactly when the first longest covered length is under 10% of the project; otherwise the first longest direction and the first longest among the rest |
| RowSelection.SelectedBlocks | npmrds-projline-conflate/srcpy/npmrds_data_conflation_batchprocess.py:268-277 | the columns selected for each chosen direction are exactly that direction's block |
| TmcRows.TmcRowShape | npmrds-projline-conflate/srcpy/npmrds_data_conflation_batchprocess.py:96 | over the four TMC directions the row has the shape `simplify_outputs` relies on, and as a dict lists its columns in row order |
| TmcRows.TmcBlock | npmrds-projline-conflate/srcpy/npmrds_data_conflation_batchprocess.py:218-239 | each direction's block is its covered length then one aggregate per field: 1 + (number of fields) columns |
| TmcRows.MaxBelow | npmrds-projline-conflate/srcpy/npmrds_data_conflation_batchprocess.py:257 | the largest covered length is below a bound exactly when every covered length is |
| TmcRows.CoverageTest | npmrds-projline-conflate/srcpy/npmrds_data_conflation_batchprocess.py:257-260 | for a positive project length the 10% test holds exactly when every direction covers strictly under 10% (exactly 10% is data) |
| TmcRows.Covered | npmrds-projline-conflate/srcpy/npmrds_data_conflation_batchprocess.py:260-264 | a direction covering 10% makes the longest covered length positive and passes the test |
| TmcRows.ParseTmcKey | npmrds-projline-conflate/srcpy/npmrds_data_conflation_batchprocess.py:405-409 | for each of NORTHBOUND, SOUTHBOUND, EASTBOUND, WESTBOUND and a metric without "BOUND", the patterns give back the direction and the metric |
| TmcRows.DirColumnsKeys | npmrds-projline-conflate/srcpy/npmrds_project_conflation.py:255-256 | every column of a direction's block splits into that direction and the column's own metric name |
| TmcRows.BlockKeys | npmrds-projline-conflate/srcpy/npmrds_data_conflation_batchprocess.py:405-409 | every key of a direction's block splits into a TMC direction and a covered-length or field-table column |
| TmcRows.NoDataKeyUnparsed | npmrds-projline-conflate/srcpy/npmrds_project_conflation.py:255 | "SegmentSpeedData" holds no "BOUND", so both patterns fail on it |
| BatchConflation.FieldTableIsOk | npmrds-projline-conflate/srcpy/npmrds_data_conflation_batchprocess.py:87-92 | the batch field table has distinct names, each with a recognised method: the speeds by inverse average, the LOTTRs distance-weighted |
| BatchConflation.FieldNamesPlain | npmrds-projline-conflate/srcpy/npmrds_data_conflation_batchprocess.py:87-92 | no field name contains "_calc_len" or a 'B' |
| BatchConflation.SimplifyOutputs | npmrds-projline-conflate/srcpy/npmrds_data_conflation_batchprocess.py:248-285 | a list of records exactly when the coverage test finds no data, and then the single record `{'SegmentSpeedData': -1}` |
| BatchConflation.SimplifyOnConflatedRow | npmrds-projline-conflate/srcpy/npmrds_data_conflation_batchprocess.py:248-285 | on the conflated row: no-data record, or the longest direction's block, followed by the second's when its share is > 0.75 |
| BatchConflation.NoDataThreshold | npmrds-projline-conflate/srcpy/npmrds_data_conflation_batchprocess.py:257-262 | for a positive project length, no data exactly when every direction covers strictly less than 10% |
| BatchConflation.TwoWayThreshold | npmrds-projline-conflate/srcpy/npmrds_data_conflation_batchprocess.py:271-280 | with data, the second block follows exactly when its covered length is strictly more than 75% of the longest |
| BatchConflation.TwoWayTest | npmrds-projline-conflate/srcpy/npmrds_data_conflation_batchprocess.py:272-275 | the 0.75 ratio test is the strict comparison of the lengths |
| BatchConflation.SimplifyWithData | npmrds-projline-conflate/srcpy/npmrds_data_conflation_batchprocess.py:263-285 | past the coverage test, one block or two according to the two-way test |
| BatchConflation.ProjectTableAgrees | npmrds-projline-conflate/srcpy/npmrds_data_conflation_batchprocess.py:336-337 | the as-written `.T` fails exactly on the no-data outcome; where it succeeds its table is the corrected one |
| BatchConflation.GetNpmrdsDataProject | npmrds-projline-conflate/srcpy/npmrds_data_conflation_batchprocess.py:304-342 | a project's table is the trimmed conflated row of its pieces, with no data kept as the one-record table |
| BatchConflation.NoDataProjectChoice | npmrds-projline-conflate/srcpy/npmrds_data_conflation_batchprocess.py:257-262 | a project every direction of which covers under 10% gets the list of records |
| BatchConflation.NoDataProjectFails | npmrds-projline-conflate/srcpy/npmrds_data_conflation_batchprocess.py:336-337 | such a project makes the as-written `.T` raise AttributeError; the corrected table is the no-data record |
| BatchConflation.NoDataProjectExample | npmrds-projline-conflate/srcpy/npmrds_data_conflation_batchprocess.py:331-337 | a 1000 ft project no TMC buffer reaches makes the as-written script fail |
| BatchConflation.ProjectOutputCases | npmrds-projline-conflate/srcpy/npmrds_data_conflation_batchprocess.py:331-337 | on the pieces: no data under 10% everywhere, else the first longest direction (order N, S, E, W), plus the next when over 75% |
| BatchConflation.ProjectOutputSize | npmrds-projline-conflate/srcpy/npmrds_data_conflation_batchprocess.py:282-283 | a project yields 1, 7 or 14 columns, so the debugger stop above 14 is never reached |
| BatchConflation.ProjectOutputForms | npmrds-projline-conflate/srcpy/npmrds_data_conflation_batchprocess.py:264-285 | the output is the no-data record, one direction's block, or two different directions' blocks |
| BatchConflation.ProjectOutputKeys | npmrds-projline-conflate/srcpy/npmrds_data_conflation_batchprocess.py:405-409 | with data, every measure name splits into a TMC direction and a covered-length or field-table column |
| BatchConflation.GetNpmrdsDataBatch | npmrds-projline-conflate/srcpy/npmrds_data_conflation_batchprocess.py:365-413 | the combined table is each project's records in cursor order, tagged with its cleaned name, its number i + 1 and the year |
| BatchConflation.ProjectOutputAsWritten | npmrds-projline-conflate/srcpy/npmrds_data_conflation_batchprocess.py:336-337 | a project's table as written is the corrected table, or the `.T` AttributeError exactly where the corrected table is the no-data record |
| BatchConflation.FailsExactlyOnNoData | npmrds-projline-conflate/srcpy/npmrds_data_conflation_batchprocess.py:336-337 | the `.T` on `simplify_outputs`'s result fails exactly when the corrected table is the no-data record, since a data table has 7 or 14 columns |
| BatchConflation.BatchOfAgrees | npmrds-projline-conflate/srcpy/npmrds_data_conflation_batchprocess.py:377-411 | the batch loop, which has no exception handler, completes exactly when no project fails, with the combined table, and otherwise stops with the first failure's error |
| BatchConflation.BatchAsWrittenAgrees | npmrds-projline-conflate/srcpy/npmrds_data_conflation_batchprocess.py:377-411 | the batch as written completes exactly when every project's table succeeds, and then equals the corrected combined table; otherwise it fails with the `.T` AttributeError |
| BatchConflation.BatchStopsAtNoData | npmrds-projline-conflate/srcpy/npmrds_data_conflation_batchprocess.py:377-411 | one project that no TMC covers to 10% makes the whole batch as written fail with the `.T` AttributeError |
| BatchConflation.CombinedTagged | npmrds-projline-conflate/srcpy/npmrds_data_conflation_batchprocess.py:377-403 | every record carries a project number from 1 to the number of projects, that project's cleaned name, and the year |
| BatchConflation.TagRecordsTagged | npmrds-projline-conflate/srcpy/npmrds_data_conflation_batchprocess.py:401-403 | every record of a project's table carries its description, number and year |
| BatchConflation.CombinedDescriptionsClean | npmrds-projline-conflate/srcpy/npmrds_data_conflation_batchprocess.py:381 | no description in the combined table holds '&', '%', '/' or ':' |
| BatchConflation.TagRecordsSplit | npmrds-projline-conflate/srcpy/npmrds_data_conflation_batchprocess.py:405-409 | direction and measure are extracted exactly when `measure_full` holds "BOUND", and then they concatenate to it |
| ProjectConflation.FieldTableIsOk | npmrds-projline-conflate/srcpy/npmrds_project_conflation.py:61-74 | the single-project fields: the speeds by the unguarded inverse average, then the LOTTRs distance-weighted, all distinct |
| ProjectConflation.FieldNamesPlain | npmrds-projline-conflate/srcpy/npmrds_project_conflation.py:61-74 | no field name contains "_calc_len" or a 'B' |
| ProjectConflation.SimplifyOutputs | npmrds-projline-conflate/srcpy/npmrds_project_conflation.py:205-233 | always a one-record list, the no-data record when the coverage test finds no data |
| ProjectConflation.SimplifyOnConflatedRow | npmrds-projline-conflate/srcpy/npmrds_project_conflation.py:205-233 | on the conflated row: the no-data record, or the longest direction's block then the second's, with no two-way test |
| ProjectConflation.MakeDfFails | npmrds-projline-conflate/srcpy/npmrds_project_conflation.py:246-258 | `make_df` fails exactly on the empty dict, with the pivot's KeyError(0), or when some key holds no "BOUND", with the `.group` AttributeError |
| ProjectConflation.MakeDfCells | npmrds-projline-conflate/srcpy/npmrds_project_conflation.py:250-258 | on distinct parseable keys `make_df` succeeds exactly when the dict is non-empty, and then each value sits at its (metric, direction) cell |
| ProjectConflation.MakeDfLabels | npmrds-projline-conflate/srcpy/npmrds_project_conflation.py:258 | on parseable keys `make_df` succeeds exactly when the dict is non-empty, and then the pivot's cells are exactly at the keys' labels; its rows are their metrics and its columns their directions |
| ProjectConflation.ProjectRow | npmrds-projline-conflate/srcpy/npmrds_project_conflation.py:106-202 | the single-project row has the shape `simplify_outputs` relies on |
| ProjectConflation.GetNpmrdsData | npmrds-projline-conflate/srcpy/npmrds_project_conflation.py:263-309 | the status is `make_df` of the first simplified record, reported as ("OK", table) or ("Failed to complete.", error) |
| ProjectConflation.TwoBlocksPivot | npmrds-projline-conflate/srcpy/npmrds_project_conflation.py:250-258 | two blocks of the field table in different directions pivot without error, each value in its cell |
| ProjectConflation.TwoBlocksLabels | npmrds-projline-conflate/srcpy/npmrds_project_conflation.py:258 | the pivot of two blocks has exactly the two directions as columns and `_calc_len` plus every field as rows |
| ProjectConflation.TwoBlocksOutcome | npmrds-projline-conflate/srcpy/npmrds_project_conflation.py:299-304 | two blocks of the field table end in "OK" with that table |
| ProjectConflation.NoDataReport | npmrds-projline-conflate/srcpy/npmrds_project_conflation.py:246-256 | `make_df` of the no-data record raises the `.group` error, reported as the failure message |
| ProjectConflation.NoDataProjectRecord | npmrds-projline-conflate/srcpy/npmrds_project_conflation.py:214-219 | a project every direction of which covers under 10% reduces to the no-data record |
| ProjectConflation.NoDataProjectFails | npmrds-projline-conflate/srcpy/npmrds_project_conflation.py:295-307 | such a project ends in ("Failed to complete.", AttributeError) |
| ProjectConflation.RecordWithData | npmrds-projline-conflate/srcpy/npmrds_project_conflation.py:220-233 | with a direction covering 10%, the record is the longest direction's block then the second's |
| ProjectConflation.DataProjectOk | npmrds-projline-conflate/srcpy/npmrds_project_conflation.py:263-304 | with a direction covering 10%: "OK", columns the longest and second-longest directions, rows `_calc_len` and every field, both blocks' values in place |
| ProjectConflation.ProjectStatus | npmrds-projline-conflate/srcpy/npmrds_project_conflation.py:263-309 | for a positive project length the status is the failure message exactly when no direction covers 10% |
| ProjectConflation.VariantsCompared | npmrds-projline-conflate/srcpy/npmrds_project_conflation.py:205-233 | the two tools agree on no data; with data the batch columns are a prefix of this record, all of it exactly when the second share is > 0.75 |
| ProjectConflation.VariantsWithData | npmrds-projline-conflate/srcpy/npmrds_project_conflation.py:228-231 | with a direction covering 10%, both tools have data and the batch columns are a prefix of this record |
| ForbiddenChars.RemoveForbiddenChars | npmrds-projline-conflate/srcpy/npmrds_data_conflation_batchprocess.py:111-123 | the loop's output is every character replaced in turn: '&' by "And", '%' by "pct", '/' and ':' by '-', others copied |
| ForbiddenChars.FixClean | npmrds-projline-conflate/srcpy/npmrds_data_conflation_batchprocess.py:113 | no replacement text holds a forbidden character |
| ForbiddenChars.ReplaceForbiddenClean | npmrds-projline-conflate/srcpy/npmrds_data_conflation_batchprocess.py:111-123 | the result holds none of '&', '%', '/', ':' |
| ForbiddenChars.ReplaceForbiddenIdentity | npmrds-projline-conflate/srcpy/npmrds_data_conflation_batchprocess.py:116-121 | a name without forbidden characters comes back unchanged |
| ForbiddenChars.ReplaceForbiddenIdempotent | npmrds-projline-conflate/srcpy/npmrds_data_conflation_batchprocess.py:111-123 | applying it twice equals applying it once |
| ForbiddenChars.ReplaceForbiddenLength | npmrds-projline-conflate/srcpy/npmrds_data_conflation_batchprocess.py:113-121 | the result is never shorter, and is as long exactly when the name holds no '&' and no '%' |
| ForbiddenChars.ReplaceForbiddenExample | npmrds-projline-conflate/srcpy/npmrds_data_conflation_batchprocess.py:113-121 | "a&b/%" becomes "aAndb-pct" |
| RawLoader.GetAttr | data-prep/LoadRawData/load_raw_npmrds_data.py:52-56 | KeyError exactly for a missing index, None exactly for a blank (NaN) cell, the stored value otherwise |
| RawLoader.VehTypeName | data-prep/LoadRawData/load_raw_npmrds_data.py:86-88 | a table name exactly for "all", "passenger", "truck"; KeyError(vehtype) otherwise |
| RawLoader.VehTypeNamesDistinct | data-prep/LoadRawData/load_raw_npmrds_data.py:86-87 | different known vehicle types name different tables |
| RawLoader.ExtraSuffix | data-prep/LoadRawData/load_raw_npmrds_data.py:92-96 | "" exactly for empty extra text, else "_" and its first min(10, length) characters; at most 11 characters |
| RawLoader.BaseName | data-prep/LoadRawData/load_raw_npmrds_data.py:82 | the basename is the longest suffix of the path that holds no separator: it starts right after the last separator, or after a two-character drive `X:`, which it never includes |
| RawLoader.JoinPath | data-prep/LoadRawData/load_raw_npmrds_data.py:83 | the joined path starts with the directory and ends with the file name, with one backslash between them exactly when the directory is non-empty, does not end in a separator and is not a bare drive `X:` |
| RawLoader.BaseNameJoin | data-prep/LoadRawData/load_raw_npmrds_data.py:82-83 | the basename of a directory joined with a plain file name is that file name |
| RawLoader.CsvPathNamesCsv | data-prep/LoadRawData/load_raw_npmrds_data.py:82-83 | `csv_path` names `csv_name` as its last component |
| RawLoader.NewRawTTCSV | data-prep/LoadRawData/load_raw_npmrds_data.py:61-99 | KeyError exactly for an unknown vehicle type; otherwise the CSV name and path and `npmrds_{year}_{extent}_{vehicle table}{suffix}` |
| RawLoader.TableNameYearInjective | data-prep/LoadRawData/load_raw_npmrds_data.py:98-99 | downloads of different years never share a table name |
| RawLoader.TableNameVehInjective | data-prep/LoadRawData/load_raw_npmrds_data.py:98-99 | within a year, extent and suffix each vehicle table name gives a table of its own |
| RawLoader.NewRawTTCSVDownload | data-prep/LoadRawData/load_raw_npmrds_data.py:144 | a known vehicle type with no extra text gives that type's download |
| RawLoader.Entry | data-prep/LoadRawData/load_raw_npmrds_data.py:143-145 | one download for a given (truthy) directory, none otherwise, named for its vehicle table |
| RawLoader.AppendEntry | data-prep/LoadRawData/load_raw_npmrds_data.py:143-145 | one `if dir: append(RawTTCSV(...))` step appends exactly that directory's entry |
| RawLoader.BuildDirList | data-prep/LoadRawData/load_raw_npmrds_data.py:142-151 | the three appends build the download list, truck then passenger then combined |
| RawLoader.DirListCount | data-prep/LoadRawData/load_raw_npmrds_data.py:142-151 | one entry per directory given; the list is empty exactly when none is given |
| RawLoader.DirListOrder | data-prep/LoadRawData/load_raw_npmrds_data.py:142-151 | the entries come in the order truck, passenger, combined |
| RawLoader.DirListDirs | data-prep/LoadRawData/load_raw_npmrds_data.py:143-151 | each entry carries the directory given for its vehicle type |
| RawLoader.DirListTables | data-prep/LoadRawData/load_raw_npmrds_data.py:144-150 | each entry loads into `npmrds_{year}_{extent}_{its vehicle table}` |
| RawLoader.DirListTablesDistinct | data-prep/LoadRawData/load_raw_npmrds_data.py:142-151 | the downloads of one data set go to pairwise different tables |
| RawLoader.DataSet.constructor | data-prep/LoadRawData/load_raw_npmrds_data.py:139-156 | extent + "tmc", the download list, the specification CSV in the first directory, and `npmrds_{year}_{extent}tmc_txt` |
| RawLoader.NewDataSet | data-prep/LoadRawData/load_raw_npmrds_data.py:142-156 | IndexError exactly when no directory is given (line 154); otherwise a new data set with extent + "tmc", the download list, the specification CSV in the first directory and `npmrds_{year}_{extent}tmc_txt` |
| RawLoaderArchived.NewRawTTCSV | data-prep/LoadRawData/archived/load_raw_npmrds_data01142021.py:24-62 | the extent defaults to "alltmc"; KeyError exactly for an unknown vehicle type; same table-name format |
| RawLoaderArchived.DefaultMatchesCurrent | data-prep/LoadRawData/archived/load_raw_npmrds_data01142021.py:24 | a defaulted archived download is the current loader's download at extent "all" + "tmc" |
| RawLoaderArchived.DataSet.constructor | data-prep/LoadRawData/archived/load_raw_npmrds_data01142021.py:102-119 | extent "alltmc", the download list, the specification CSV and `npmrds_{year}_alltmc_txt` |
| RawLoaderArchived.NewDataSet | data-prep/LoadRawData/archived/load_raw_npmrds_data01142021.py:105-119 | IndexError exactly when no directory is given (line 117); otherwise a new data set with extent "alltmc", the download list, the specification CSV in the first directory and `npmrds_{year}_alltmc_txt` |
| RawLoaderArchived.SameTablesAsCurrentDefault | data-prep/LoadRawData/archived/load_raw_npmrds_data01142021.py:102-119 | the archived data set loads into the tables of the current one at its default extent |
| PemsConflation.DirDictEntries | npmrds-pems/srcpy/conflate_tmc2pemsstn.py:39-42 | the direction dictionary maps NORTHBOUND, SOUTHBOUND, EASTBOUND, WESTBOUND to N, S, E, W, in that order |
| PemsConflation.PemsDir | npmrds-pems/srcpy/conflate_tmc2pemsstn.py:138 | KeyError exactly for a signed direction other than the four; otherwise its one-letter code |
| PemsConflation.PemsDirInjective | npmrds-pems/srcpy/conflate_tmc2pemsstn.py:39-42 | different signed directions select different PeMS directions |
| PemsConflation.BuildDict | npmrds-pems/srcpy/conflate_tmc2pemsstn.py:105-119 | one key per TMC in the rows, holding the value of its last row |
| PemsConflation.MatchingIdsMembers | npmrds-pems/srcpy/conflate_tmc2pemsstn.py:142-154 | a station id is listed exactly when a selected station with that id has the wanted direction |
| PemsConflation.CursorIds | npmrds-pems/srcpy/conflate_tmc2pemsstn.py:146-154 | the cursor loop lists the ids of the stations of that direction, in cursor order |
| PemsConflation.TmcStations | npmrds-pems/srcpy/conflate_tmc2pemsstn.py:137-154 | a TMC fails exactly when it has no signed direction or an unknown one, with that KeyError |
| PemsConflation.TmcStationsMembers | npmrds-pems/srcpy/conflate_tmc2pemsstn.py:134-154 | a TMC lists exactly the nearby stations in its signed direction's PeMS code |
| PemsConflation.StationPairsOk | npmrds-pems/srcpy/conflate_tmc2pemsstn.py:125-157 | the TMC loop completes exactly when every TMC in it passes |
| PemsConflation.StationPairsErr | npmrds-pems/srcpy/conflate_tmc2pemsstn.py:125-157 | when the loop fails, it fails with the error of the first TMC that fails |
| PemsConflation.StationPairsFails | npmrds-pems/srcpy/conflate_tmc2pemsstn.py:137-138 | the loop fails exactly when some TMC has no signed direction or an unknown one |
| PemsConflation.StationLists | npmrds-pems/srcpy/conflate_tmc2pemsstn.py:121-157 | `dict_tmc_pemsstns` is the dict of the TMC loop's pairs, or the first TMC's error |
| PemsConflation.StationListsEntries | npmrds-pems/srcpy/conflate_tmc2pemsstn.py:121-157 | every buffered TMC gets an entry, in buffer order, holding its own station list (possibly empty) |
| PemsConflation.InvertMembers | npmrds-pems/srcpy/conflate_tmc2pemsstn.py:164-166 | a (station, TMC) assignment is made exactly when the station is in that TMC's list |
| PemsConflation.ReverseDict | npmrds-pems/srcpy/conflate_tmc2pemsstn.py:160-166 | the nested loops give the dict of the assignments in iteration order |
| PemsConflation.ReverseKeys | npmrds-pems/srcpy/conflate_tmc2pemsstn.py:164-166 | the reverse dict's stations are exactly those in some TMC's list |
| PemsConflation.ReverseOwner | npmrds-pems/srcpy/conflate_tmc2pemsstn.py:164-166 | each station maps to a TMC whose list contains it |
| PemsConflation.ReverseLastWins | npmrds-pems/srcpy/conflate_tmc2pemsstn.py:164-166 | a station in several lists maps to the last TMC iterated whose list holds it |
| PemsConflation.Tmc2Pems | npmrds-pems/srcpy/conflate_tmc2pemsstn.py:21-168 | the result is the reverse dict of the station lists of the buffered TMCs, or the first lookup error |
| PemsConflation.Tmc2PemsFails | npmrds-pems/srcpy/conflate_tmc2pemsstn.py:125-138 | the script raises exactly when a buffered TMC has no row in the specification CSV or an unknown signed direction |
| PemsConflation.Tmc2PemsStations | npmrds-pems/srcpy/conflate_tmc2pemsstn.py:121-168 | on success the stations returned are exactly those listed for some buffered TMC |
| PemsConflation.Tmc2PemsOwner | npmrds-pems/srcpy/conflate_tmc2pemsstn.py:157-168 | on success each station is tagged with a buffered TMC whose own list holds it |
| PemsConflation.Tmc2PemsLastWins | npmrds-pems/srcpy/conflate_tmc2pemsstn.py:125-168 | on success a station listed for several TMCs is tagged with the last of them in buffer order |
| PyDict.FromPairsDomain | npmrds-pems/srcpy/conflate_tmc2pemsstn.py:109 | a dict built by assignments has a key exactly when some assignment wrote it |
| PyDict.FromPairsLastWins | npmrds-pems/srcpy/conflate_tmc2pemsstn.py:119 | a key holds the value of the last assignment to it |
| PyDict.FromPairsDistinctKeys | npmrds-projline-conflate/srcpy/npmrds_project_conflation.py:108-174 | with no key repeated, the dict lists its keys in assignment order |
| PyDict.ItemsFromPairs | npmrds-pems/srcpy/conflate_tmc2pemsstn.py:164 | with no key repeated, `items()` gives back the assigned pairs in order |
| Strings.FindFrom | npmrds-projline-conflate/srcpy/npmrds_data_conflation_batchprocess.py:268 | `find` returns the first occurrence at or after the start, or -1 when there is none |
| Strings.ContainsFind | npmrds-projline-conflate/srcpy/npmrds_project_conflation.py:225-226 | on a name containing the suffix, `find` gives the index of an occurrence |
| Strings.NatToStringRoundTrip | data-prep/LoadRawData/load_raw_npmrds_data.py:98 | the year printed into a table name reads back as the same number |
| CardinalDirection.CardDir | data-prep/MakeTMCLinks/GetLineDir.py:37-49 | the direction name is always one of E, N, W, S, never "unknown" |
| CardinalDirection.CardDirIntervals | data-prep/MakeTMCLinks/get_tmc_card_angle_noCopy.py:28-41 | each name exactly on its half-open interval: E [-45, 45), N [45, 135), W at or above 135 or below -135, S [-135, -45) |
| CardinalDirection.CardDirBoundaries | data-prep/archived/get_line_angle_noTextDir.py:32-44 | -45 gives E, 45 gives N, 135 gives W, -135 gives S, and both 180 and -180 give W |
| CardinalDirection.CardDirSector | data-prep/archived/get_tmc_card_angle.py:41-50 | over [-225, 225) the name is the quarter turn centred on each axis, sector floor((angle + 45) / 90) mod 4 of E, N, W, S |
| CardinalDirection.WithDirection | data-prep/MakeTMCLinks/GetLineDir.py:86-100 | a written row keeps its points, and its direction name is that of the angle written on the same row |
| CardinalDirection.WithDirectionIdempotent | data-prep/MakeTMCLinks/GetLineDir.py:86-100 | writing a row again changes nothing |
| CardinalDirection.AddDirectionData | data-prep/MakeTMCLinks/GetLineDir.py:63-102 | a fresh copy of the table, each row with its angle and name written; the counter is the number of rows |
| CardinalDirection.AddAngleData | data-prep/MakeTMCLinks/get_tmc_card_angle_noCopy.py:45-81 | each row of the table itself gets its angle and name written; the counter is the number of rows |
| CardinalDirection.SetDirNamesAsWritten | data-prep/archived/get_tmc_card_angle.py:37-54 | as written: no error on an empty table, otherwise AttributeError on `updateRow` at the first row, and no row is changed |
| CardinalDirection.SetDirNames | data-prep/archived/get_tmc_card_angle.py:37-52 | as intended: each row's direction name becomes the bucket of its angle, and the angle is unchanged |

## Left out

- Every arcpy geoprocessing step is out of the model. This covers layer and location selections, buffers, intersects, multipart-to-singlepart, split-at-point, spatial joins, feature-class copies, field creation, deletion and the cursors' storage. Their results are inputs:
  - each direction's split pieces (`piecesByDir`);
  - the project length;
  - the rows of a cursor (an array);
  - the stations near a TMC (`nearby`).
- The `Dir` subset selection of `tmc2pems` (line 148) is folded into the station cursor loop, as a filter on the stations `nearby` returns.
- The free-flow/freeway (`f_system`) selection of TMCs is part of that GIS input.
- `math.atan2` and `math.degrees` are outside the model. `CardinalDirection.CardAngle` takes them as a function parameter, so the model does not depend on floating-point trigonometry.
- Database and file I/O are left out:
  - the BCP bulk loads;
  - SQL-file reading;
  - `pd.read_csv` (the parameter CSV and the TMC CSV arrive as maps and row sequences);
  - the scratch workspace and its cleanup;
  - the Excel writer;
  - the plotly charts.
- Printing and `arcpy.AddMessage` are left out.
- The debugger stop at `npmrds_data_conflation_batchprocess.py:282-283` is never reached (`BatchConflation.ProjectOutputSize`), so it is not modelled.
- `ParamCSV.__init__`'s `int(...)` of the year cell is left out; years are modelled as `int` already.
- Floats are `real`. Rounding, and the float results of a division by zero, are modelled only as the `Cell` values NaN and inf. An `astype(float)` failure on a non-numeric cell is not modelled.
- ProjectConflation.MakeDf: the pivot is modelled as its sets of row and column labels and its cells. pandas' sorted order of those labels, and the dtype of the table, are not modelled.
- BatchConflation.ProjectTable: the corrected no-data outcome is the one-record table. The orientation that `.T` gives to a data table is not modelled, only its (measure, value) pairs.
- `make_df` in the batch tool passes a path-like variable as `orient` (`npmrds_data_conflation_batchprocess.py:291`). Only its key-parsing semantics are modelled, which the batch tool applies through `str.extract` (`KeyParsing`, `BatchConflation.TagRecordsSplit`).
- RawLoader.BaseName: Windows UNC paths (`\\server\share`) are not modelled. `RawLoader.BaseNameJoin` also excludes a one-character separator directory followed by a name whose first character is ':'.
- BatchConflation.GetNpmrdsDataBatch: is modelled on the corrected per-project table (the no-data record for a no-data project). The loop as written stops at the first no-data project with AttributeError('T'); that is `BatchConflation.BatchAsWritten`, related to it by `BatchConflation.BatchAsWrittenAgrees`.
- RawLoaderArchived.NewRawTTCSV: the `None` of its `tmcExtent` stands only for the omitted argument. An explicit Python `None`, which formats as "None" in the table name, is not modelled. The same holds for `RawLoader.DataSet`, where an explicit `None` would give the extent "Nonetmc"; the model takes the extent as a string.
- The `qry_dir` and BCP connection attributes of `DataSet` are not modelled; they are I/O configuration.
- `hwynum` from the buffer cursor is stored in `dict_tmcs_buffer` but never used by the station selection. The model keeps it in `BuildDict` and does nothing else with it, as the script does.
- A null angle (a TypeError when compared) is not modelled; angles are `real`.
- `get_line_angle_noTextDir.py` defines `get_card_dir` without `self`. Only the bucket it computes is modelled (`CardinalDirection.CardDirBoundaries`). The rest of that class is not part of this model.

## Findings

| source | as written | input that shows it | evidently intended | confidence | as-written member | corrected member |
|---|---|---|---|---|---|---|
| npmrds-projline-conflate/srcpy/npmrds_data_conflation_batchprocess.py:336-337 | `get_npmrds_data_project` calls `.T` on whatever `simplify_outputs` returns, but the no-data branch returns a list of records, which has no `.T`, so the AttributeError stops the whole batch | a 1000 ft project line that no TMC buffer reaches (every covered length 0) | the project gets the no-data record `{'SegmentSpeedData': -1}` and the batch continues | high, not executed | BatchConflation.NoDataProjectFails | BatchConflation.GetNpmrdsDataProject |
| data-prep/archived/get_tmc_card_angle.py:54 | `fc_in.updateRow(row)` calls `updateRow` on the feature class name (a string), not on the cursor, so the first row raises AttributeError and no direction name is written | any table with at least one row, once a caller uses the function: the script's own `__main__` (lines 96-113) runs only `add_angle_data`, so the fault is dormant there | `cur.updateRow(row)`: every row's direction field is set to the bucket of its angle | high, not executed | CardinalDirection.SetDirNamesAsWritten | CardinalDirection.SetDirNames |
