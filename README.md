# Charging-station demand heat map for Berlin, in Dafny

This project models the core of a Berlin heat map of electric-vehicle charging demand and proves properties of that model. The application reads two inputs: the federal charging-station register and a population table keyed by postal code (PLZ). From them it computes a "residents per charging station" score for every Berlin postal code. That score becomes a heat-map weight.

The model covers two parts.

**The demand-analysis pipeline** (`main.py`, `core/methods.py`, the scripts and the event handlers under `src/`):
- finding the header row in a CSV export and in the statistical office's T14 sheet;
- picking the postal-code and total columns, where the last match wins;
- extracting the first five-digit run as a postal code and cleaning the totals;
- apportioning district (T5) totals over the postal codes of each district, rounding half to even;
- filtering stations to Berlin and counting stations per postal code;
- the three demand formulas, the 95th-percentile colour maximum, and the summary partition of the demand script.

**The domain layer** around the pipeline:
- the value objects and their validators (coordinates, capacity, population data, demand metrics, heat-map data);
- the stateful entities: charging stations, postal areas with a cached area, demographic areas with a stored density, and suggestions with their pending / approved / rejected life cycle;
- the four repositories, whose loaded lists are cached on first use;
- the domain and application services;
- the suggestion-saved event;
- the min-max weighting of the three heat layers in the user interface.

How the model is written:
- Tables are sequences of tuples or records.
- Python dictionaries are association lists that keep insertion order (`Dicts`).
- Postal codes are `int` in the pipeline and `string` in the domain layer, as in the source.
- Floating-point values are `real`; `int()`, `round()` and the `str.extract` / `str.replace` clean-ups are written out.
- Code that changes state in the source is a `class` whose methods state the new state: entities, repository caches, the suggestion file, and the caller's dictionary in the event handler.
- Loops in the source are `while` loops with invariants, proved against a specification function; the function's own properties are lemmas.

Inputs the source takes from libraries or the environment are parameters of the model:
- geometry: a `Shape` that carries its centroid and planar area, and a `contains` predicate;
- spatial joins, as the district of each postal code;
- the numpy percentile, as a value between the least and the greatest demand;
- the clock, as a `Moment`;
- the contents of files, as row sequences or a `SuggestionFile` value.

## Model

| member | source | states |
|---|---|---|
| HeaderDetection.FirstHeaderLine | main.py:22-27 | the index of the first line that passes the registry header test, and no earlier line passes; `None` exactly when no line passes |
| HeaderDetection.FindCsvHeaderRow | main.py:22-27 | the line scan that stops at the first match returns that line's index, or 0 when no line matches (the same loop is src/infrastructure/readers.py:6-11 and scripts/compute_demand.py:37-42) |
| HeaderDetection.FirstMatchIsUnique | src/infrastructure/readers.py:8-11 | a matching line with no matching line before it is the header row |
| HeaderDetection.ThirdAlternativeSubsumed | src/infrastructure/readers.py:9 | the `count(sep) > 1 and 'Postleitzahl' in line` alternative never changes the outcome: a line passes exactly when it contains one of the two markers |
| HeaderDetection.NoMarkerMeansRowZero | src/infrastructure/readers.py:7 | a file with no marker line gets header row 0 |
| HeaderDetection.LaterLinesIrrelevant | src/infrastructure/readers.py:10-11 | once a line matches, appending further lines never changes the header row |
| HeaderDetection.FirstT14Header | main.py:67-71 | the first of the scanned rows (at most ten) that has a cell equal to `postleitzahl` and a cell mentioning `ins` or `gesamt`; no earlier scanned row passes; `None` when none passes |
| HeaderDetection.T14HeaderRowScanned | main.py:72-73 | the T14 header row is either one of the first ten rows of the sheet or the default row 2 |
| HeaderDetection.FindT14HeaderRow | main.py:66-73 | the T14 scan returns the first passing row among the first ten, or 2 (the same loop is src/domain/events/residents_processed.py:15-21 and scripts/compute_demand.py:56-62) |
| HeaderDetection.FirstExactPlz | scripts/check_t14_mapping.py:31-40 | the first scanned row with a cell exactly `postleitzahl`, no earlier one has one |
| HeaderDetection.FindExactPlzHeaderRow | scripts/check_t14_mapping.py:30-43 | the mapping check's scan returns the first row with an exact `postleitzahl` cell, or 2: its `bezirk` preference never changes the row, because both branches stop at the same row |
| HeaderDetection.ExactScanNoLater | scripts/check_t14_mapping.py:31-40 | when the population readers find a header row, the mapping check's row is the same row or an earlier one |
| HeaderDetection.ScansDisagree | scripts/check_t14_mapping.py:38-43 | on a sheet whose only row is `Postleitzahl` the mapping check picks row 0 while the population readers fall back to row 2 |
| HeaderDetection.PostleitzahlAloneIsNoT14Header | main.py:69 | a row holding only `postleitzahl` fails the population readers' test, since that word mentions neither `ins` nor `gesamt` |
| ColumnDetection.LastIndex | main.py:83-87 | the position of a heading that passes the test with no later heading passing; `None` exactly when no heading passes: the result of a loop that reassigns without `break` |
| ColumnDetection.FirstIndex | main.py:166-169 | the position of a heading that passes the test with no earlier heading passing; `None` exactly when no heading passes: the result of a loop that stops at `break` |
| ColumnDetection.LastIndexOfEquivalentTests | scripts/diagnostics_residents.py:30-34 | two heading tests that agree on every heading pick the same last column |
| ColumnDetection.DetectT14Columns | main.py:80-87 | the T14 column loop returns, for the postal-code and the total test, the last passing heading (the same loop is src/domain/events/residents_processed.py:27-31, scripts/compute_demand.py:67-71 and scripts/check_t14_mapping.py:53-60, each with its own total rule) |
| ColumnDetection.WordSurvivesStrip | main.py:84 | a word without white space found in the lower-cased heading is also found in the stripped, lower-cased heading |
| ColumnDetection.PlzThirdAlternativeSubsumed | main.py:84 | the third alternative `'postleitzahl' in str(c).lower()` never decides: a heading passes the postal-code test exactly when its stripped, lower-cased form contains `postleitzahl` or is `plz` |
| ColumnDetection.TotalWordsReduceToGesamt | main.py:86 | a heading containing `insgesamt` or `in insgesamt` contains `gesamt` |
| ColumnDetection.T14TotalRulesReduced | main.py:86 | each spelling of the total test comes down to `gesamt` anywhere, plus `== 'ins-'` (main.py:86, src/domain/events/residents_processed.py:31) or `'ins-' in` (scripts/compute_demand.py:71), with nothing added by `== 'insgesamt'` (scripts/check_t14_mapping.py:59) |
| ColumnDetection.T14TotalRulesNested | scripts/compute_demand.py:71 | the mapping check's total test accepts no more than the main program's, which accepts no more than the demand script's |
| ColumnDetection.T14TotalRulesDisagree | scripts/compute_demand.py:71 | the spellings genuinely differ: `ins-x` is a total column for the demand script only, `ins-` for the main program but not the mapping check |
| ColumnDetection.FirstNumericColumn | main.py:146-149 | the first column at or after `from` holding some number, with no number in any column between; `None` when there is none |
| ColumnDetection.T5DistrictColumn | main.py:143-144 | the last heading containing `bezirk`, else column 0; `None` only for a sheet without columns |
| ColumnDetection.T5TotalColumn | main.py:145-149 | exactly the last heading that passes the total test (`LastIndex`) when one passes; otherwise exactly the first column from index 1 on that holds a number (`FirstNumericColumn`); `None` only when no heading passes |
| ColumnDetection.ColumnHasNumber | main.py:147 | the column scan answers whether some cell of the column converts to a number |
| ColumnDetection.DetectT5Columns | main.py:134-149 | the T5 column loop with its two fallbacks returns exactly `T5DistrictColumn` and `T5TotalColumn` (the same loop is scripts/diagnostics_residents.py:28-41) |
| ColumnDetection.T5TotalTestsReduced | scripts/diagnostics_residents.py:33 | both spellings of the T5 total test, main.py:140 and scripts/diagnostics_residents.py:33, hold exactly when the lower-cased heading contains `gesamt` |
| ColumnDetection.DiagnosticsPickSameT5Total | scripts/diagnostics_residents.py:30-34 | so the diagnostics script and the main program pick the same T5 total column |
| ColumnDetection.BoundaryNameColumn | main.py:160-169 | `Gemeinde_n` when present, else `Gemeinde_s`, else the first heading mentioning `gemeinde`, `bezirk` or `name`; `None` exactly when none of these exists |
| ColumnDetection.FindBoundaryNameColumn | main.py:160-169 | the boundary-name scan returns exactly `BoundaryNameColumn` |
| ColumnDetection.DiagnosticsBoundaryNameColumn | scripts/diagnostics_residents.py:54-58 | the first heading mentioning `bez` or `name`; `None` exactly when none does |
| ColumnDetection.FindDiagnosticsBoundaryNameColumn | scripts/diagnostics_residents.py:54-58 | the diagnostics scan, stopping at `break`, returns exactly `DiagnosticsBoundaryNameColumn` |
| ColumnDetection.BoundaryNameChoicesDisagree | scripts/diagnostics_residents.py:55-58 | on a boundary file with columns `Gemeinde_n` and `Land_name` the main program names districts by `Gemeinde_n` and the diagnostics script by `Land_name` |
| ColumnMapping.FirstContaining | main.py:224-229 | the first heading containing the word, with no earlier heading containing it; `None` exactly when no heading contains it |
| ColumnMapping.LastAmong | main.py:240-245 | a heading of the table that is one of the accepted names; `None` exactly when no heading is |
| ColumnMapping.FindFirstContaining | main.py:225-229 | the scan that stops at `break` returns `FirstContaining` |
| ColumnMapping.FindCoordinateHeadings | main.py:238-245 | the loop over the headings keeps the last latitude and the last longitude heading |
| ColumnMapping.BuildMapper | main.py:221-249 | the three loops build exactly the renaming dictionary `Mapper`, in the source's order of insertion |
| ColumnMapping.MapperKeysAreHeadings | main.py:252 | every key of the dictionary is a heading, so the filter `if k in df_residents.columns` drops nothing |
| ColumnMapping.CoordinateNamesAreNoSources | main.py:242-245 | no latitude or longitude name contains `plz` or `einw` |
| ColumnMapping.LatAndLonNamesDiffer | main.py:242-245 | no name is accepted both as latitude and as longitude |
| ColumnMapping.MapperOfDistinctSources | main.py:221-249 | when the postal-code and resident sources are different headings, each of the four sources is renamed to its own target |
| ColumnMapping.MappedTablePasses | main.py:221-260 | when all four sources exist and the postal-code and resident sources differ, the renamed table passes the required-column check |
| ColumnMapping.RequiredCheck | main.py:257-260 | `Ok` exactly when all of `plz`, `einwohner`, `lat`, `lon` are headings; otherwise the error names exactly the missing ones, never an empty set |
| ColumnMapping.SharedSourceLosesPlz | main.py:224-230 | a table with headings `plzeinw`, `lat`, `lon` is refused for missing `plz`: both entries land on `plzeinw` and the later one wins |
| ColumnMapping.CsvFallbackRefused | main.py:209-216 | the two-column table the CSV fallback builds is always refused, for missing `lat` and `lon` |
| ColumnMapping.ResidentsTable.NormaliseHeadings | main.py:122-123 | every heading is replaced by its stripped, lower-cased form, in place |
| ColumnMapping.ResidentsTable.ApplyMapper | main.py:252-254 | the headings become the old headings renamed by the dictionary built from them |
| ColumnMapping.ResidentsTable.CheckRequired | main.py:257-260 | the table's verdict is `RequiredCheck` of its headings |
| ColumnMapping.Renamed | main.py:252-254 | the same number of headings, each one that is a key replaced by its value and the others kept |
| ColumnMapping.RenamedHas | main.py:252-254 | a heading that is a key of the dictionary shows up renamed |
| ColumnMapping.SourcesDiffer | main.py:221-250 | the postal-code and resident sources are not coordinate headings, and the latitude and longitude headings differ |
| Residents.ReadWithHeader | main.py:74-76 | reading with header row `h` gives a table exactly when `h` is a row of the sheet, with one data row for every row after it; otherwise the `except` leaves no table |
| Residents.ExtractRaw | main.py:90-95 | one (postal code or missing, total) pair per data row, the postal code being the first five-digit run of the cell and the total the cell cleaned by the variant's rule |
| Residents.DropMissingPlz | main.py:98 | `dropna(subset=['plz'])` keeps a row exactly when it has a postal code, and never adds rows |
| Residents.DropMissingPlzKeepsEveryRow | main.py:96-98 | as the source's note says, nothing is aggregated: one output row per input row with a postal code, and the output totals add up to those rows' totals |
| Residents.ExtractedPlzInRange | main.py:92-93 | every postal code that survives extraction is a number from 0 to 99999 |
| Residents.AggregateSpec | scripts/compute_demand.py:79 | `groupby('plz').sum()` leaves one row per postal code, in ascending order, each with the sum of that postal code's totals, and keeps the overall total |
| Residents.AttachCentroidsUnique | main.py:109-112 | with one geodata row per postal code the left merge keeps every row and its order, adding that postal code's centroid or none |
| Residents.DropCommutesWithJoin | src/domain/events/residents_processed.py:46-49 | dropping rows without a postal code after the merge gives what dropping them before it gives |
| Residents.ProcessedMatchesMain | src/domain/events/residents_processed.py:34-49 | the population event handler's T14 rows are exactly the main program's (main.py:90-112) |
| Residents.SummedT14Spec | scripts/compute_demand.py:73-90 | the summed table of the demand script and the mapping check has one row per distinct postal code, ascending, and its totals add up to those of all rows with a postal code |
| Residents.CleaningsDisagreeOnFloats | scripts/compute_demand.py:77-78 | a total cell read as the float `1234.0` is 1234 when read as a number (main.py:95) but 12340 when stripped to digits and `-` |
| Residents.IntendedTotalValue | scripts/compute_demand.py:77-78 | the intended cleaning: an integer or float cell keeps its whole value, text is stripped to digits and `-`, a missing cell is 0 |
| Residents.IntendedAgreesOffFloats | scripts/compute_demand.py:77-78 | the intended cleaning equals the digit-stripping one on every cell that is not a float |
| Residents.IntendedAgreesOnNumbers | main.py:95 | and equals reading the number directly on every numeric or missing cell |
| Residents.LastLowerEqual | scripts/compute_demand.py:93 | the last heading whose lower-cased form is the name, as `{c.lower(): c}` keeps it; `None` exactly when no heading matches |
| Residents.CsvRows | scripts/compute_demand.py:92-102 | the CSV fallback gives rows exactly when both a `postleitzahl` and an `insgesamt` heading exist, one per data row |
| Residents.MainT14 | main.py:62-112 | the main program's T14 path; every postal code of its result is a number from 0 to 99999 |
| Residents.ProcessedT14IsMain | src/domain/events/residents_processed.py:12-49 | the event handler's T14 path gives the same result as the main program's on every sheet |
| Residents.ProcessResidentsData | src/domain/events/residents_processed.py:5-68 | a result exactly when the file is a workbook and the main program's T14 path yields one, and then that result; the T5 stub always gives `None` |
| Residents.ReadResidents | scripts/compute_demand.py:52-102 | a workbook whose T14 sheet yields a header row, a postal-code column and a total column gives the summed T14 table without its centroids; any other file, a workbook without those included, gives exactly the CSV fallback; `None` (the script's `RuntimeError`, lines 104-106) only when the CSV fallback finds no columns |
| Residents.SummedWithoutCentroids | scripts/compute_demand.py:79-90 | with one geodata row per postal code, the summed table without centroids has one row per postal code of the rows, ascending, each with the sum of that postal code's totals |
| Residents.ReadResidentsWorkbook | scripts/compute_demand.py:56-90 | when the workbook yields a table, `read_residents` returns one row per distinct postal code of the sheet, ascending, each with the sum of its totals stripped to digits |
| Apportionment.DistrictRows | main.py:152-154 | the district rows, none of them with a missing name |
| Apportionment.DistrictTotals | main.py:172-195 | one (normalised name, cleaned total) pair per district row, in order |
| Apportionment.JoinedNorms | main.py:190 | one normalised boundary name per joined centroid, `nan` for a centroid in no boundary |
| Apportionment.KnownOnly | main.py:174-175 | keeps a district exactly when its normalised name is a normalised boundary name |
| Apportionment.CountOfPositive | main.py:192 | a name gets a positive count exactly when some joined centroid carries it |
| Apportionment.Shares | main.py:192-197 | never more rows than districts, and only districts that some centroid falls in |
| Apportionment.ShareOfDistrict | main.py:197 | a district with postal codes gets its total divided by their number, rounded half to even |
| Apportionment.NoShareWithoutPlz | main.py:196 | a district without postal codes gets no share (`dropna(subset=['n_plz'])`) |
| Apportionment.SharesNamesFromDistricts | main.py:193-197 | every share belongs to a district of the sheet |
| Apportionment.SharesKeysUnique | main.py:193-197 | distinct district names give one share per name |
| Apportionment.SpreadShares | main.py:198-204 | at least one output row per joined centroid |
| Apportionment.SpreadSharesUnique | main.py:198-204 | with one share per name, exactly one row per joined centroid, in order, with its postal code, its centroid and its district's share, or 0 when there is none |
| Apportionment.AllottedIsCountTimesShare | main.py:198-201 | the residents given to a district's centroids are their number times the share |
| Apportionment.DistrictTotalKept | main.py:192-201 | a district's total is kept up to rounding: what its postal codes get differs from the total by at most half their number |
| Apportionment.UnmatchedGetsZero | main.py:201 | a centroid whose district has no share gets 0 residents |
| Apportionment.JoinedNormsKnown | main.py:189-190 | every joined name is a boundary name or `nan` |
| Apportionment.FilterKeepsShares | main.py:174-175 | the filter by boundary names changes no share, since the districts it removes have no postal codes, unless a district is named `nan` |
| Apportionment.MainAgreesWithDiagnostics | scripts/diagnostics_residents.py:96-116 | given the same joined boundary names, and barring a district named `nan`, the diagnostics script, which has no such filter, apportions exactly as the main program (main.py:171-204); the two scripts can choose different boundary-name columns (`ColumnDetection.BoundaryNameChoicesDisagree`), which this lemma does not cover |
| Apportionment.NanDistrictDiffers | scripts/diagnostics_residents.py:96-112 | a district named `nan` gets the centroids in no boundary in the diagnostics script and no share in the main program |
| Apportionment.MainT5 | main.py:134-204 | the T5 branch gives a table exactly when a district column and a total column are found |
| Apportionment.DiagnosticsT5 | scripts/diagnostics_residents.py:28-126 | the diagnostics version gives a table under the same condition |
| StationPipeline.SortByPlz | core/methods.py:18-21 | the rows in ascending postal-code order, a permutation of the input |
| StationPipeline.WithGeometry | core/methods.py:24 | never more rows than the merge gave |
| StationPipeline.WithGeometryRows | core/methods.py:23-24 | a row is in the output of `dropna(subset=['geometry'])` exactly when some merged row found a postal area with a geometry, and it carries that area's postal code and geometry |
| StationPipeline.WithGeometryAscending | core/methods.py:18-24 | rows sorted by postal code stay sorted after the merge and the filter |
| StationPipeline.JoinedOneToOne | core/methods.py:23 | with one postal-area row per postal code the merge keeps every sorted row and its order, adding its postal area or none |
| StationPipeline.AddGeometryOrdered | core/methods.py:14-36 | adding geometry never adds rows, and the rows come out in ascending postal-code order |
| StationPipeline.AddGeometrySound | core/methods.py:23-24 | every output row comes from an input row and carries the geometry of its own postal code |
| StationPipeline.AddGeometryComplete | core/methods.py:23-24 | every input row whose postal code has a geometry is kept |
| StationPipeline.AddGeometrySpec | core/methods.py:14-36 | the four facts above together |
| StationPipeline.DecimalPoint | core/methods.py:53-54 | the text of the cell with every comma replaced by a point, nothing else changed |
| StationPipeline.KeyedStationsSpec | core/methods.py:50-56 | the filtered rows are exactly the normalised registry rows in Berlin with a postal code strictly between 10115 and 14200, each keyed by that postal code |
| StationPipeline.PreprocessStationsSound | core/methods.py:41-59 | every kept station is in Berlin, has a postal code strictly between 10115 and 14200 that has a geometry, has coordinates without a decimal comma, and comes from a registry row; none is added; they ascend by postal code |
| StationPipeline.PreprocessStationsComplete | core/methods.py:56-58 | every Berlin row with a postal code strictly between 10115 and 14200 that has a geometry is kept, with that geometry |
| StationPipeline.PreprocessStationsSpec | core/methods.py:41-59 | every kept station is in Berlin, has a postal code strictly between 10115 and 14200 that has a geometry, has coordinates without a decimal comma, and comes from a registry row; none is added; they ascend by postal code; and every Berlin row in that range whose postal code has a geometry is kept |
| StationPipeline.LowestBerlinCodeDropped | core/methods.py:56 | a station with postal code 10115 never passes the registry filter |
| StationPipeline.CountPlzOccurrencesSpec | core/methods.py:61-69 | one row per distinct postal code, ascending, each with the number of stations at it (never 0) and the geometry of the first of them, and the numbers add up to the number of stations |
| StationPipeline.CountsOrderedByPlz | core/methods.py:64 | the counted postal codes strictly ascend |
| StationPipeline.CountsCoverPlz | core/methods.py:64-67 | the counted postal codes are exactly the stations' postal codes |
| StationPipeline.CountsPerPlz | core/methods.py:65-66 | each count is the number of stations at that postal code, and the geometry is the first one's |
| StationPipeline.CountsAddUp | core/methods.py:65 | the counts add up to the number of stations |
| StationPipeline.PreprocessResidentsSpec | core/methods.py:114-136 | every kept residents row has a postal code strictly between 10000 and 14200 that has a geometry; every row in range whose postal code has a geometry is kept, with its coordinates repaired; none is added; they ascend |
| StationPipeline.RangesDisagreeAt10115 | core/methods.py:131 | the residents filter admits postal code 10115, which the registry filter (line 56) drops |
| StationPipeline.WithGeometryAbove | core/methods.py:23-26 | a lower bound on the keys of the merged rows bounds the postal codes of the rows kept |
| Demand.DemandOfSpec | core/methods.py:246-251 | the demand times the number of stations (taken as 1 when there is none) gives back the residents; for non-negative inputs it lies between 0 and the residents |
| Demand.DemandTestVectors | tests/demand/test_demand_logic.py:6-14 | the four test scenarios: 500 residents with 0, 1 and 5 stations give 500, 500 and 100; 0 residents with 10 give 0 |
| Demand.ResidentsColumnOfPreprocessed | core/methods.py:219-229 | on the table `preprop_resid` returns, the residents column found is `Einwohner`, so the fallback that sets residents to 0 is not taken |
| Demand.Demands | core/methods.py:253 | one demand per merged row |
| Demand.CountsKeyedUnique | core/methods.py:231 | the counts of `count_plz_occurrences` have one row per postal code, so the merge cannot duplicate a residents row |
| Demand.CountOfPlz | core/methods.py:231-232 | the count the merge finds for a postal code is the number of stations there, 0 when there is none |
| Demand.FullFrameSpec | core/methods.py:226-233 | the merged frame keeps every residents row in order, with its postal code, geometry and residents and the number of stations at its postal code |
| Demand.VmaxFailsWithoutDemand | core/methods.py:259-261 | as written, when no demand is non-zero (an empty frame included) the maximum is `int` of NaN and raises |
| Demand.VmaxOfZeroDemand | core/methods.py:259 | a single postal code with no residents is such a frame; the intended maximum there is 1 |
| Demand.VmaxAsWrittenErr | core/methods.py:259 | with no demand, or no non-zero one, the written maximum is the `ValueError` |
| Demand.VmaxSpec | core/methods.py:258-261 | the intended maximum equals the written one wherever that succeeds; for non-negative demands it is never negative, 1 when every demand is 0, and at least 1 once some demand is |
| Demand.DisplayValues | core/methods.py:265-268 | one display value per row, in order: the demand capped at the maximum, so never above it, equal to the demand when that is not above it, and not negative for a non-negative demand and maximum |
| Demand.DemandLayer | core/methods.py:215-268 | the demand layer end to end: one row per residents row, holding its postal code, geometry and residents and the number of stations at its postal code; the corrected maximum `Demand.Vmax` of their demands, which is 1 where the written `int(np.nanpercentile(...))` raises (see Findings); and each row shown at its capped demand |
| Demand.IndexOf | src/domain/events/demand_calculated.py:17 | the position of a column label; `None` exactly when the label is absent |
| Demand.NumberColumn | src/domain/events/demand_calculated.py:13-17 | the `Number` column when present, else the `count` column; `None` (the `KeyError`) exactly when neither exists |
| Demand.OnDemandCalculatedSpec | src/domain/events/demand_calculated.py:4-35 | with one counts row per postal code the event keeps every residents row in order, with its postal code and residents, the station count (0 where there is none) and the demand over it |
| Demand.EventAgreesWithLayer | src/domain/events/demand_calculated.py:20-32 | fed the station counts under `Number`, the event computes, row by row, the demand the map layer computes (core/methods.py:231-256) |
| Demand.SingleRowEvent | src/domain/events/demand_calculated.py:13-35 | a single postal code with a `count` column gives one row carrying that count and the demand over it |
| Demand.OnDemandCalculatedTestVectors | tests/demand/test_demand_logic.py:15-39 | the event's test cases: `12345` with 500 residents and 0, 1, 5 stations gives demand 500, 500, 100; with 0 residents and 10 stations, 0 |
| Demand.DemandScore | src/domain/entities/demand_result.py:14-16 | `None` exactly at `count == -1`; otherwise the score times `count + 1` is the residents |
| Demand.DemandScoreSpec | src/domain/entities/demand_result.py:4-16 | for a non-negative count the score exists and, for non-negative residents, lies between 0 and the residents; a record with default fields scores 0; the stored `demand` never enters the score |
| Demand.DemandRulesDisagree | src/domain/entities/demand_result.py:16 | the three rules differ: with 500 residents and no station the layer and event give 500, the script infinity, the record 500; with 5 stations the record gives 500/6 instead of 100 |
| Demand.ComputeDemand | scripts/compute_demand.py:104-127 | an error exactly when no residents table was read |
| Demand.MergeCountsSpec | scripts/compute_demand.py:109-116 | the merge keeps every residents row in order, with the number of stations at its postal code (0 for a missing one); the ratio is infinite exactly without stations and otherwise times the stations gives back the residents |
| Demand.MergedRows | scripts/compute_demand.py:111-116 | the merge row by row: the residents row, its station count and the ratio of the two |
| Demand.PerStationSpec | scripts/compute_demand.py:116 | infinite exactly when the count is 0 or less; otherwise the ratio times the count gives back the residents |
| Demand.MergedRowCount | scripts/compute_demand.py:111-112 | the count the merge finds is the number of stations at the postal code, 0 for a missing postal code |
| Demand.SummaryTotals | scripts/compute_demand.py:120-121 | the residents total sums every residents row; the station total is the number of preprocessed stations |
| Demand.SummaryPartition | scripts/compute_demand.py:123-124 | every row goes into exactly one of the two lists' pools |
| Demand.MergedMembers | scripts/compute_demand.py:116 | a merged row has an infinite ratio exactly when it has no station |
| Demand.TopZeroStationsSpec | scripts/compute_demand.py:123 | at most 20 rows, most residents first, drawn from the rows without stations, with no row left out that has more residents than one kept |
| Demand.TopOfStationless | scripts/compute_demand.py:123 | the same for any rows whose ratio is infinite exactly when they have no station |
| Demand.TopHighDemandSpec | scripts/compute_demand.py:124 | at most 20 rows, highest residents per station first, drawn from the rows with stations, with no row left out that ranks above one kept |
| Demand.TopOfServed | scripts/compute_demand.py:124 | the same for any rows whose ratio is finite only when they have stations |
| Demand.PercentileNonNegative | core/methods.py:259 | where some demand is non-zero, a percentile of non-negative demands is not negative |
| Demand.VmaxNonNegative | core/methods.py:259 | for non-negative demands the intended maximum is never negative |
| Demand.VmaxAtLeastOne | core/methods.py:259 | once some demand is at least 1, the intended maximum is at least 1 |
| Charging.MakeLocation | domain/charging_infrastructure/entities.py:9-19 | a location exactly when the latitude is within [-90, 90] and the longitude within [-180, 180]; a bad latitude reports the latitude message even when the longitude is also bad |
| Charging.MakeCapacity | domain/charging_infrastructure/entities.py:22-30 | a capacity exactly when the power is positive, otherwise the `Power must be positive` error |
| Charging.ChargingStation.constructor | domain/charging_infrastructure/entities.py:33-42 | a station with exactly the given fields and a non-empty identifier and postal code |
| Charging.NewChargingStation | domain/charging_infrastructure/entities.py:44-48 | a fresh valid station exactly when identifier and postal code are non-empty; an empty identifier is reported before an empty postal code |
| Charging.ChargingStation.UpdateLocation | domain/charging_infrastructure/entities.py:50-53 | the location becomes the new one and the update time becomes now; no other field changes |
| Charging.ChargingStation.UpdateCapacity | domain/charging_infrastructure/entities.py:55-58 | the capacity becomes the new one and the update time becomes now; no other field changes |
| Charging.AtPostalCode | infrastructure/repositories/implementations.py:87-88 | the stations whose postal code equals the given string, and all of them, in order |
| ChargingServices.DistinctHas | domain/charging_infrastructure/services.py:20-22 | the distinct codes hold exactly the codes of the list |
| ChargingServices.DistinctUnique | domain/charging_infrastructure/services.py:20-22 | and hold none of them twice |
| ChargingServices.TallyUnique | domain/charging_infrastructure/services.py:17-22 | the summary holds one entry per postal code |
| ChargingServices.TallyKeys | domain/charging_infrastructure/services.py:17-22 | its keys are the stations' postal codes in order of first occurrence, as a Python dictionary keeps them |
| ChargingServices.TallyCounts | domain/charging_infrastructure/services.py:20-22 | each postal code maps to the number of its stations; a code with no station is absent |
| ChargingServices.TallySum | domain/charging_infrastructure/services.py:15-24 | the counts add up to the number of stations |
| ChargingServices.StationsSummaryByPostalCode | domain/charging_infrastructure/services.py:15-24 | the loop builds exactly the tally of the stations' postal codes |
| ChargingServices.SummaryExample | domain/charging_infrastructure/services.py:15-24 | two stations at `10115` and one at `10117` give `{10115: 2, 10117: 1}` in that order |
| ChargingServices.AccumulateUnique | domain/charging_infrastructure/services.py:28-34 | the capacity table holds one entry per postal code |
| ChargingServices.AccumulateKeys | domain/charging_infrastructure/services.py:28-34 | its keys are the postal codes in order of first occurrence |
| ChargingServices.AccumulateSums | domain/charging_infrastructure/services.py:31-34 | each postal code maps to the sum of its stations' power; a code with no station is absent |
| ChargingServices.TotalCapacityByPostalCode | domain/charging_infrastructure/services.py:26-36 | the loop builds exactly the per-code power sums |
| ChargingServices.FindStationsInArea | domain/charging_infrastructure/services.py:38-43 | the loop returns the stations of each requested code in turn, in the order of the codes |
| ChargingServices.InAreaMembership | domain/charging_infrastructure/services.py:38-43 | every station found has one of the requested codes, and every station with a requested code is found |
| ChargingServices.InAreaAppend | domain/charging_infrastructure/services.py:41-42 | searching a list of codes is searching its parts one after the other, so a code listed twice contributes its stations twice |
| StationRepository.BerlinPatternRange | infrastructure/repositories/implementations.py:35-36 | on five-digit text the pattern `^1[0-4]\d{3}$` is exactly the numeric range 10000 to 14999, wider than the comment's 10000-14200 |
| StationRepository.FloatCodesNeverMatch | infrastructure/repositories/implementations.py:36 | a postal code read as a float prints as `10115.0`, which the pattern never matches |
| StationRepository.AddressOf | infrastructure/repositories/implementations.py:59-64 | no address exactly when both street and house number are missing |
| StationRepository.ParseRecordSound | infrastructure/repositories/implementations.py:40-75 | a parsed row gives a station with a valid location, positive power, the row's printed identifier and postal code, its address and operator, and no update time |
| StationRepository.MissingPowerSkipped | infrastructure/repositories/implementations.py:51-56 | a row without a rated power gets 0.0, which `Capacity` rejects, so the row is skipped |
| StationRepository.BadLatitudeSkipped | infrastructure/repositories/implementations.py:45-48 | a row whose latitude parses but lies outside [-90, 90] is skipped |
| StationRepository.AdmitSound | infrastructure/repositories/implementations.py:36-79 | a row the loop admits matches the postal-code pattern and yields a station with a valid location, positive power, and non-empty identifier and postal code |
| StationRepository.LoadedRecordsValid | infrastructure/repositories/implementations.py:36-82 | never more stations than rows; every loaded station has a matching postal code, a valid location and positive power |
| StationRepository.LoadedRecordsFromRows | infrastructure/repositories/implementations.py:38-79 | every loaded station is what some row with a matching postal code parses to |
| StationRepository.LoadedRecordsComplete | infrastructure/repositories/implementations.py:38-79 | every row with a matching postal code that parses gives a station |
| StationRepository.BuildStations | infrastructure/repositories/implementations.py:38-79 | the loop creates one fresh station per admitted row, in row order |
| StationRepository.FirstWithId | infrastructure/repositories/implementations.py:90-91 | the first station with the identifier, none earlier having it; `None` exactly when no station has it |
| StationRepository.CsvChargingStationRepository.constructor | infrastructure/repositories/implementations.py:23-25 | a repository over the rows with nothing loaded yet |
| StationRepository.CsvChargingStationRepository.LoadData | infrastructure/repositories/implementations.py:27-85 | the cached list when there is one; otherwise the stations of the admitted rows, fresh, which become the cache |
| StationRepository.CsvChargingStationRepository.GetByPostalCode | infrastructure/repositories/implementations.py:87-88 | the loaded stations whose postal code equals the argument, in order |
| StationRepository.CsvChargingStationRepository.GetById | infrastructure/repositories/implementations.py:90-91 | the first loaded station with the identifier, or none |
| StationRepository.CsvChargingStationRepository.CountByPostalCode | infrastructure/repositories/implementations.py:93-94 | the number of loaded stations with the postal code |
| StationRepository.CsvChargingStationRepository.PostalCodesWithStations | infrastructure/repositories/implementations.py:96-98 | the loaded stations' postal codes, each once, in strictly increasing string order, and no other |
| Geography.MakeCoordinate | domain/geography/entities.py:9-19 | a coordinate exactly when the latitude is within [-90, 90] and the longitude within [-180, 180], holding those two values |
| Geography.CoordinateAgreesWithLocation | domain/geography/entities.py:15-19 | the geography coordinate and the charging-station location accept the same pairs and reject the others with the same message |
| Geography.PostalArea.constructor | domain/geography/entities.py:22-35 | an area holding exactly the given fields, valid because its code is non-empty and its geometry has a geo interface |
| Geography.PostalArea.CalculateCentroid | domain/geography/entities.py:37-43 | the centroid's `y` becomes the latitude and `x` the longitude; out-of-range values are the coordinate's error |
| Geography.PostalArea.GetArea | domain/geography/entities.py:51-60 | a cached area is returned unchanged; otherwise the planar area divided by 1 000 000 is returned and cached; no other field changes |
| Geography.GetAreaTwice | domain/geography/entities.py:51-60 | two calls return the same value and leave it cached |
| Geography.NewPostalArea | domain/geography/entities.py:31-35 | an area exactly when the code is non-empty and the geometry has a geo interface; an empty code is reported before a bad geometry |
| GeographyServices.BerlinRangeAgreesOnFiveDigits | domain/geography/services.py:20-35 | on five-digit codes the string range "10000".."14200" and the numeric check 10000 <= int(code) <= 14200 accept the same codes |
| GeographyServices.ShortCodeInStringRange | domain/geography/services.py:20-35 | "1400" lies in the string range but is rejected by the numeric check |
| GeographyServices.PaddedCodeOutsideStringRange | domain/geography/services.py:20-35 | " 10115" passes the numeric check but lies outside the string range |
| GeographyServices.PaddedCodeReadsAsNumber | domain/geography/services.py:32 | `int` ignores surrounding blanks: " 10115" reads as 10115 |
| GeographyServices.PostalCodeAt | domain/geography/services.py:24-27 | no code exactly when no area contains the point; otherwise the code of an area that contains it |
| GeographyServices.CentroidTableSpec | domain/geography/services.py:37-44 | the table has one entry per code; a code has an entry exactly when it was requested and its area has a centroid, and the entry is that centroid |
| GeographyServices.GeographyService.GetCentroidForPostalCode | domain/geography/services.py:16-18 | the repository's answer for the code, the areas loaded once and kept |
| GeographyServices.GeographyService.GetBerlinPostalAreas | domain/geography/services.py:20-22 | the loaded areas whose code lies in the string range "10000".."14200", bounds included |
| GeographyServices.GeographyService.FindPostalCodeForLocation | domain/geography/services.py:24-27 | the code of the first area containing the point, none when no area does |
| GeographyServices.GeographyService.ValidateBerlinPostalCode | domain/geography/services.py:29-35 | true exactly when `int` reads the code and its value is within 10000..14200; an unreadable code is false |
| GeographyServices.GeographyService.GetCentroidCoordinates | domain/geography/services.py:37-44 | the centroid table of the requested codes over the loaded areas; an empty request returns an empty table and loads nothing |
| PostalAreaRepository.AreaOfSpec | infrastructure/repositories/implementations.py:120-137 | a row gives an area exactly when its stripped code is non-empty, its geometry has a geo interface and its centroid is a valid coordinate; the area carries that code, geometry and centroid |
| PostalAreaRepository.PopulationOnlyForKnownCodes | infrastructure/repositories/implementations.py:123 | an area has a population exactly when the population table holds its code |
| PostalAreaRepository.LoadedAreasValid | infrastructure/repositories/implementations.py:119-140 | no more areas than rows; each has a non-empty code, a geo interface and an in-range centroid |
| PostalAreaRepository.LoadedAreasComplete | infrastructure/repositories/implementations.py:119-140 | every row that passes the checks yields its area in the loaded list |
| PostalAreaRepository.BuildAreas | infrastructure/repositories/implementations.py:119-137 | the loop builds fresh areas whose fields are the parser's results for the rows it keeps, in row order |
| PostalAreaRepository.FirstWithCode | infrastructure/repositories/implementations.py:145-154 | an area with exactly that code, the first one; none exactly when no area has the code |
| PostalAreaRepository.InCodeRange | infrastructure/repositories/implementations.py:156-159 | exactly the areas whose code lies between the bounds in string order, bounds included |
| PostalAreaRepository.CodeRangeIsNumeric | infrastructure/repositories/implementations.py:158-159 | on five-digit codes and bounds the string range is the numeric range |
| PostalAreaRepository.FirstContaining | infrastructure/repositories/implementations.py:161-166 | the first area whose geometry contains the point; none exactly when no area contains it |
| PostalAreaRepository.CentroidFor | infrastructure/repositories/implementations.py:168-177 | a centroid exactly when an area has the code and that first area has a centroid, and it is that centroid |
| PostalAreaRepository.ShapefilePostalAreaRepository.constructor | infrastructure/repositories/implementations.py:104-108 | the rows and population table are kept, a missing table becomes an empty one, nothing is loaded |
| PostalAreaRepository.ShapefilePostalAreaRepository.LoadData | infrastructure/repositories/implementations.py:110-143 | a cached list is returned unchanged; otherwise fresh areas built from the rows are cached and returned |
| PostalAreaRepository.ShapefilePostalAreaRepository.GetByPostalCode | infrastructure/repositories/implementations.py:145-154 | the first loaded area with the code, loading the areas once |
| PostalAreaRepository.ShapefilePostalAreaRepository.GetPostalCodesInRange | infrastructure/repositories/implementations.py:156-159 | the loaded areas in the string range, loading the areas once |
| PostalAreaRepository.ShapefilePostalAreaRepository.FindPostalAreaForCoordinate | infrastructure/repositories/implementations.py:161-166 | the first loaded area containing the point, loading the areas once |
| PostalAreaRepository.ShapefilePostalAreaRepository.GetCentroidForPostalCode | infrastructure/repositories/implementations.py:168-177 | the centroid of the first loaded area with the code, loading the areas once |
| Demographics.MakePopulationData | domain/demographics/entities.py:8-16 | population data exactly when the total is not negative, holding the given values; otherwise the `Population cannot be negative` error |
| Demographics.DemographicArea.constructor | domain/demographics/entities.py:19-28 | an area with exactly the given fields, valid: a non-empty postal code and population data with the non-negative total their own check guarantees |
| Demographics.DemographicArea.CalculatePopulationDensity | domain/demographics/entities.py:30-47 | with a positive area the density is population over area and replaces the stored density; otherwise none and the stored density stays; population, code and area are unchanged; a valid area keeps valid and its density is not negative |
| Demographics.NewDemographicArea | domain/demographics/entities.py:26-28 | for population data with a non-negative total, a fresh valid area with the given fields exactly when the postal code is non-empty, otherwise the `Postal code cannot be empty` error |
| DemographicsServices.DensityFor | domain/demographics/services.py:24-29 | a density exactly when an area has the code and the first such area has a positive area; it is that area's population over its area |
| DemographicsServices.DensityNonNegative | domain/demographics/services.py:24-29 | the density of valid areas is never negative |
| DemographicsServices.NonZeroTotalIsTotal | domain/demographics/services.py:36-39 | summing only the non-zero populations gives the repository's total |
| DemographicsServices.DemographicsService.GetPopulationForPostalCode | domain/demographics/services.py:15-18 | the population of the first area with the code, none when no area has it; the areas are loaded once and kept |
| DemographicsServices.DemographicsService.GetAllDemographicAreas | domain/demographics/services.py:20-22 | the repository's cached areas, loading them on first use |
| DemographicsServices.DemographicsService.CalculatePopulationDensity | domain/demographics/services.py:24-29 | the density of the first area with the code, with nothing stored |
| DemographicsServices.DemographicsService.GetAreasByPopulationRange | domain/demographics/services.py:31-34 | the loaded areas whose population lies within the bounds, both included, in order |
| DemographicsServices.DemographicsService.GetTotalPopulation | domain/demographics/services.py:36-39 | the total population of the loaded areas |
| DemographicRepository.MockPopulation | infrastructure/repositories/implementations.py:227 | the mock population lies between 5000 and 14990 and is 5000 plus ten per unit of the code's last three digits |
| DemographicRepository.MockCodesAreFiveDigits | infrastructure/repositories/implementations.py:199-222 | every listed Berlin code is five digits, so `int(code)` cannot raise |
| DemographicRepository.MockRecords | infrastructure/repositories/implementations.py:224-233 | one area per listed code, in order, each holding the code and its mock population |
| DemographicRepository.MockRecordsPopulation | infrastructure/repositories/implementations.py:227-228 | each listed code's population is `5000 + (int(code) % 1000) * 10`, between 5000 and 14990 |
| DemographicRepository.BuildMockAreas | infrastructure/repositories/implementations.py:224-233 | the loop builds one fresh area per code, in order, with the mock records as fields |
| DemographicRepository.FirstArea | infrastructure/repositories/implementations.py:241-242 | an area with exactly that code, the first one; none exactly when no area has the code |
| DemographicRepository.PopulationOf | infrastructure/repositories/implementations.py:244-246 | none exactly when no area has the code; otherwise the population of an area with it |
| DemographicRepository.Populations | infrastructure/repositories/implementations.py:248-249 | one population per area, in order |
| DemographicRepository.TotalPopulationNonNegative | infrastructure/repositories/implementations.py:248-249 | the total population of valid areas is never negative |
| DemographicRepository.InPopulationRange | infrastructure/repositories/implementations.py:251-254 | exactly the areas whose population lies within the bounds, both included |
| DemographicRepository.Codes | infrastructure/repositories/implementations.py:253 | one postal code per area, in order |
| DemographicRepository.CodesInPopulationRangeMembership | infrastructure/repositories/implementations.py:251-254 | a code is listed exactly when some area with that code has a population within the bounds |
| DemographicRepository.ExcelDemographicRepository.LoadData | infrastructure/repositories/implementations.py:192-239 | a cached list is returned unchanged; otherwise fresh areas built from the listed codes are cached and returned |
| DemographicRepository.ExcelDemographicRepository.GetByPostalCode | infrastructure/repositories/implementations.py:241-242 | the first loaded area with the code, loading the areas once |
| DemographicRepository.ExcelDemographicRepository.GetPopulationByPostalCode | infrastructure/repositories/implementations.py:244-246 | that area's population, loading the areas once |
| DemographicRepository.ExcelDemographicRepository.GetTotalPopulation | infrastructure/repositories/implementations.py:248-249 | the sum of the loaded populations, loading the areas once |
| DemographicRepository.ExcelDemographicRepository.GetPostalCodesByPopulationRange | infrastructure/repositories/implementations.py:251-254 | the codes of the loaded areas within the bounds, loading the areas once |
| Analytics.MakeDemandMetrics | domain/analytics/entities.py:8-22 | metrics exactly when ratio, station count and resident count are all non-negative, holding the given values; the first failing check in that order names the error |
| Analytics.MakeDemandAnalysis | domain/analytics/entities.py:25-34 | an analysis exactly when the postal code is non-empty, holding the given values; otherwise the `Postal code cannot be empty` error |
| Analytics.MakeHeatmapData | domain/analytics/entities.py:49-60 | a heat-map entry exactly when the code is non-empty and the intensity within [0, 1]; an empty code is reported before a bad intensity |
| AnalyticsServices.Classify | domain/analytics/services.py:95-104 | critical exactly from 200 residents per station, high exactly in [100, 200), medium exactly in [50, 100), low exactly below 50 |
| AnalyticsServices.ClassifyMonotone | domain/analytics/services.py:95-104 | more residents per station never gives a lower level |
| AnalyticsServices.HighDemandNeedsMoreStations | domain/analytics/entities.py:36-46 | for a classified analysis, high demand holds exactly from a score of 100, and high demand implies that more stations are needed |
| AnalyticsServices.NeedsMoreStationsWithoutHighDemand | domain/analytics/entities.py:40-46 | an analysis with 60 residents per station needs more stations without being high demand |
| AnalyticsServices.ResidentsPerStation | domain/analytics/services.py:30-34 | with stations the ratio times the station count is the resident count; without stations it is the resident count; never negative for a non-negative count |
| AnalyticsServices.DemandFor | domain/analytics/services.py:20-50 | no analysis without a population; with valid inputs a valid analysis for the code stamped now, holding the counts, their ratio and its classified level; a negative population or an empty code gives the constructor's error |
| AnalyticsServices.WithPopulation | domain/analytics/services.py:57-60 | a code is kept exactly when it was given and the demographic areas hold a population for it |
| AnalyticsServices.DemandForAllErrPersists | domain/analytics/services.py:57-60 | once one code raises, the whole list raises the same error |
| AnalyticsServices.DemandForAllStep | domain/analytics/services.py:57-60 | one more code appends its analysis, keeps the list when it has none, or raises its error |
| AnalyticsServices.DemandForAllSpec | domain/analytics/services.py:52-62 | with non-empty codes and valid areas nothing raises: one analysis per code that has a population, in the order of the codes, each computed for its code |
| AnalyticsServices.IntensityBounds | domain/analytics/services.py:79 | a non-negative score gets an intensity in [0, 1], and full intensity at or above a positive percentile |
| AnalyticsServices.IntensityMonotone | domain/analytics/services.py:79 | a higher score never gets a lower intensity |
| AnalyticsServices.HeatmapErrPersists | domain/analytics/services.py:76-85 | once one entry raises, the whole heat map raises the same error |
| AnalyticsServices.HeatmapForValid | domain/analytics/services.py:64-87 | for valid analyses nothing raises: one entry per analysis, in order, with its code, its score as value and an intensity in [0, 1] |
| AnalyticsServices.HighDemandCodesSpec | domain/analytics/services.py:89-93 | a code is listed exactly when some analysis with it scores above the threshold; with the default 50 exactly when one of them needs more stations |
| AnalyticsServices.AnalyticsService.CalculateDemandForPostalCode | domain/analytics/services.py:20-50 | the analysis for the code's station count and population, stamped now; the repositories load once and keep their data |
| AnalyticsServices.AnalyticsService.DemandForCodes | domain/analytics/services.py:57-60 | the loop over the codes computes the analyses of all codes, or the first error; an empty list loads nothing |
| AnalyticsServices.AnalyticsService.CalculateDemandForAllAreas | domain/analytics/services.py:52-62 | the analyses of the sorted distinct postal codes with stations |
| AnalyticsServices.AnalyticsService.GenerateHeatmapData | domain/analytics/services.py:64-87 | the heat map of the analyses for the given percentile; empty for no analyses |
| AnalyticsServices.AnalyticsService.GetHighDemandAreas | domain/analytics/services.py:89-93 | the codes of all analyses scoring above the threshold, or the error that computing them raised |
| Community.StatusValueParses | domain/community_engagement/entities.py:10-14 | parsing the value written for a status gives that status back |
| Community.ParseStatusInverse | domain/community_engagement/entities.py:10-14 | parsing accepts exactly "pending", "approved" and "rejected", each giving the status that writes it |
| Community.ChargingSuggestion.constructor | domain/community_engagement/entities.py:25-42 | a suggestion with exactly the given fields, valid because code, address and reason are non-empty |
| Community.ChargingSuggestion.Approve | domain/community_engagement/entities.py:44-51 | from any status the suggestion becomes approved, and its review holds the given reviewer name, the current time and the notes; identifier, code, address, reason and submission time are unchanged |
| Community.ChargingSuggestion.Reject | domain/community_engagement/entities.py:53-60 | from any status the suggestion becomes rejected, and its review holds the given reviewer name, the current time and the notes; the other fields are unchanged |
| Community.ExactlyOneStatus | domain/community_engagement/entities.py:62-72 | exactly one of pending, approved and rejected holds |
| Community.NewChargingSuggestion | domain/community_engagement/entities.py:36-42 | a fresh suggestion exactly when code, address and reason are non-empty, with the given fields; the first empty one in that order names the error |
| Community.SubmitThenApprove | domain/community_engagement/entities.py:33-51 | a new suggestion with the default status is pending without review; approving it records the given reviewer name, the time and the notes |
| Application.MaxId | application/services/implementations.py:65 | 0 for no suggestions; otherwise an identifier in the file that is at least every other identifier |
| Application.NextIdFresh | application/services/implementations.py:63-65 | the new identifier exceeds every identifier in the file, so it is not in use; on an empty file it is 1 |
| Application.ReviewAction | application/services/implementations.py:84-89 | approval exactly when the lower-cased action is "approve", rejection exactly when it is "reject" |
| Application.ReportCountsNested | application/services/implementations.py:125-130 | for classified analyses the high-demand count is at most the count needing stations, which is at most the number of analyses |
| Application.AverageWithinScores | application/services/implementations.py:129 | the average demand score of a non-empty report lies between the lowest and the highest score |
| Application.MeanWithin | application/services/implementations.py:129 | the mean of a non-empty list lies between its smallest and its largest element |
| Application.LastPopulation | application/services/implementations.py:28-35 | none exactly when no area carries the code |
| Application.LastPopulationIsLast | application/services/implementations.py:33-34 | the population is that of the last area carrying the code |
| Application.ResidentsLayerSpec | application/services/implementations.py:28-35 | the layer has one entry per code, and each code maps to the population of the last area carrying it |
| Application.SuggestionService.SubmitSuggestion | application/services/implementations.py:58-76 | a code failing the Berlin check, an empty address or an empty reason gives that error and leaves the file unchanged; otherwise a fresh pending suggestion with the next identifier is appended to what reads back |
| Application.SuggestionService.ReviewSuggestion | application/services/implementations.py:78-92 | true exactly when a suggestion has the identifier and the action is approve or reject; then exactly the first such suggestion is replaced by its reviewed form; otherwise the file is unchanged |
| Application.SuggestionService.GetSuggestionsByPostalCode | application/services/implementations.py:94-96 | the suggestions that read back with that postal code, in order |
| Application.SuggestionService.GetPendingSuggestions | application/services/implementations.py:98-100 | the pending suggestions that read back, in order |
| Application.SuggestionService.GetApprovedSuggestions | application/services/implementations.py:102-104 | the approved suggestions that read back, in order |
| Application.AnalyticsServiceApp.GenerateDemandReport | application/services/implementations.py:121-132 | the report of all analyses (count, high-demand count, count needing stations, mean score or 0), or the error computing them raised |
| Application.MapService.GenerateResidentsLayer | application/services/implementations.py:28-35 | the residents layer of all demographic areas, loading them once |
| SuggestionRepository.Reload | infrastructure/repositories/implementations.py:274-310 | the whole file when every object loads, nothing otherwise |
| SuggestionRepository.ReloadIdempotent | infrastructure/repositories/implementations.py:274-310 | what reads back loads, and reading it back again changes nothing |
| SuggestionRepository.ValidRecordLoads | infrastructure/repositories/implementations.py:338-358 | the object written for a valid suggestion loads again |
| SuggestionRepository.IndexOfId | infrastructure/repositories/implementations.py:312-314 | no position before the result holds the identifier, and the result holds it unless it is the length |
| SuggestionRepository.ReplaceFirstSpec | infrastructure/repositories/implementations.py:324-330 | no change when no record has the identifier; otherwise exactly the first record with it is replaced |
| SuggestionRepository.FirstWithId | infrastructure/repositories/implementations.py:312-314 | none exactly when no suggestion has the identifier; otherwise the first one with it |
| SuggestionRepository.AtPostalCode | infrastructure/repositories/implementations.py:316-318 | exactly the suggestions with that postal code, in order |
| SuggestionRepository.AtStatus | infrastructure/repositories/implementations.py:320-322 | exactly the suggestions with that status, in order |
| SuggestionRepository.StatusValueInjective | domain/community_engagement/entities.py:10-14 | two statuses write the same value exactly when they are the same status |
| SuggestionRepository.LoadSuggestions | infrastructure/repositories/implementations.py:282-308 | fresh valid suggestions whose records are what reads back |
| SuggestionRepository.FindId | infrastructure/repositories/implementations.py:326-329 | the loop finds the first position with the identifier, or the length |
| SuggestionRepository.ReplaceFirstWithId | infrastructure/repositories/implementations.py:326-329 | the loop replaces the first suggestion with the same identifier and nothing else |
| SuggestionRepository.JsonSuggestionRepository.GetAll | infrastructure/repositories/implementations.py:274-310 | fresh valid suggestions whose records are what reads back from the file |
| SuggestionRepository.JsonSuggestionRepository.SaveAll | infrastructure/repositories/implementations.py:338-361 | the file becomes the suggestions' objects, in order |
| SuggestionRepository.JsonSuggestionRepository.Save | infrastructure/repositories/implementations.py:269-272 | the file becomes what read back followed by the new suggestion |
| SuggestionRepository.JsonSuggestionRepository.Update | infrastructure/repositories/implementations.py:324-330 | the file becomes what read back with the first suggestion carrying the identifier replaced |
| SuggestionRepository.JsonSuggestionRepository.GetById | infrastructure/repositories/implementations.py:312-314 | none exactly when no read-back suggestion has the identifier; otherwise a fresh copy of the first one |
| SuggestionRepository.JsonSuggestionRepository.GetByPostalCode | infrastructure/repositories/implementations.py:316-318 | the read-back suggestions with that code, in order |
| SuggestionRepository.JsonSuggestionRepository.GetByStatus | infrastructure/repositories/implementations.py:320-322 | the read-back suggestions with that status, in order |
| SuggestionRepository.JsonSuggestionRepository.GetPendingSuggestions | infrastructure/repositories/implementations.py:332-333 | the read-back pending suggestions, in order |
| SuggestionRepository.JsonSuggestionRepository.GetApprovedSuggestions | infrastructure/repositories/implementations.py:335-336 | the read-back approved suggestions, in order |
| SuggestionRepository.SaveKeepsLoadableFile | infrastructure/repositories/implementations.py:269-272 | saving a valid suggestion into a file that loads keeps every object and adds the new one at the end |
| SuggestionRepository.SaveOverCorruptFileKeepsOnlyNew | infrastructure/repositories/implementations.py:269-310 | saving into a file with one object that does not load discards every earlier object |
| SuggestionEvents.PutLookup | src/domain/events/suggestion_handled.py:11-16 | one key assignment keeps the keys distinct and maps the key to the new value |
| SuggestionEvents.PutOther | src/domain/events/suggestion_handled.py:11-16 | one key assignment leaves every other key alone |
| SuggestionEvents.StampSpec | src/domain/events/suggestion_handled.py:11-16 | the stamped object has one entry per key, the identifier, the time stamp, the pending status and null review fields |
| SuggestionEvents.StampKeepsOthers | src/domain/events/suggestion_handled.py:11-16 | stamping keeps the value of every other key, such as the code, the address and the reason |
| SuggestionEvents.LoadSuggestions | src/domain/events/load_suggestion.py:5-14 | the stored list, and an empty list for a missing file and for any failure to read it |
| SuggestionEvents.SaveSuggestion | src/domain/events/suggestion_handled.py:8-21 | the caller's object is stamped in place with the loaded count plus one as identifier, and the list written is what loaded followed by that object |
| SuggestionEvents.SaveOverUnreadableFileKeepsOnlyNew | src/domain/events/suggestion_handled.py:10-17 | saving over an unreadable file writes only the new suggestion, with identifier 1 |
| SuggestionEvents.SavesNumberConsecutively | src/domain/events/suggestion_handled.py:10-17 | saves into a consecutively numbered file keep the numbering 1, 2, 3 and so on |
| SuggestionEvents.NextIdKeepsNumbering | src/domain/events/suggestion_handled.py:11-17 | appending an object numbered one past the list keeps the numbering consecutive |
| SuggestionEvents.StampedId | src/domain/events/suggestion_handled.py:11 | a stamped object's identifier is the one it was stamped with |
| SuggestionEvents.CountIdCollidesAfterGap | src/domain/events/suggestion_handled.py:11 | with identifiers 1 and 3 in the file the next identifier is 3 again, below the 4 a maximum would give |
| Presentation.CentroidOrFallback | presentation/ui.py:305-316 | the centroid's latitude and longitude when the look-up finds one; the Berlin centre (52.52, 13.405) when it finds none or raises |
| Presentation.UnitRatio | presentation/ui.py:156-157 | a part of a positive whole divided by the whole lies in [0, 1] |
| Presentation.Weight | presentation/ui.py:156-160 | a weight in [0, 1]; 0.5 when the largest value does not exceed the smallest |
| Presentation.WeightInRange | presentation/ui.py:156-160 | a value between differing bounds weighs its distance from the smallest value as a fraction of the bounds' distance, unclamped |
| Presentation.WeightEndpoints | presentation/ui.py:156-160 | the smallest value weighs 0 and the largest 1 |
| Presentation.WeightMonotone | presentation/ui.py:156-160 | a larger value never weighs less |
| Presentation.WeightAsComputed | presentation/ui.py:156-160 | clamping the ratio, or 0.5, into [0, 1] gives the weight |
| Presentation.WeighEntries | presentation/ui.py:153-161 | the loop draws one point per entry, in order, at the entry's centroid with its weight |
| Presentation.HeatPoints | presentation/ui.py:146-161 | no points for no entries; otherwise one point per entry, in order, weighted between the layer's smallest and largest value |
| Presentation.LayerWeightsSpan | presentation/ui.py:149-161 | in a layer with differing values, an entry with the smallest value weighs 0 and one with the largest weighs 1 |
| Presentation.FlatLayerWeighsHalf | presentation/ui.py:156-159 | a layer whose values are all equal draws every point at weight 0.5 |
| Presentation.AddChargingStationsHeatmap | presentation/ui.py:141-165 | one point per postal code of the station counts, weighted by its count |
| Presentation.DemandEntries | presentation/ui.py:175-180 | one entry per heat-map datum, holding its code and value |
| Presentation.AddDemandHeatmapLayer | presentation/ui.py:167-192 | one point per heat-map datum, weighted by its value; the data's own colour intensities are not used |
| Presentation.AddResidentsHeatmap | presentation/ui.py:194-218 | one point per postal code of the residents layer, weighted by its population |
| Cells.ToNumeric | main.py:93 | an integer cell reads as its value, a whole float cell as its value, the missing cell as NaN |
| Cells.FillZeroInt | main.py:95 | NaN becomes 0; a non-negative value becomes a non-negative integer not above it |
| Cells.ExtractPlz | main.py:92-93 | when a code is found it lies in [0, 100000) |
| Cells.ExtractPlzOfEmpty | main.py:92-93 | the missing cell prints as `nan` and yields no postal code |
| Cells.ExtractPlzOfInt | main.py:92-93 | a five-digit integer cell yields itself as postal code |
| Cells.ExtractPlzOfFloat | main.py:92-93 | a five-digit float cell, printed with `.0`, also yields its value |
| Cells.CleanedIntOfInt | scripts/compute_demand.py:77-78 | cleaning an integer cell gives the integer back |
| Cells.CleanedIntOfFloat | scripts/compute_demand.py:77-78 | cleaning a whole float cell gives ten times its value, since the `0` of `.0` is kept |
| Tables.Filter | scripts/compute_demand.py:122-123 | no more rows than the input; a row is kept exactly when it is in the input and satisfies the mask |
| Tables.FilterMapSpec | infrastructure/repositories/implementations.py:119-137 | every kept value comes from an element, and every element with a value contributes it |
| Tables.FilterPartition | scripts/compute_demand.py:122-123 | a mask and its negation split the rows between them |
| Tables.GroupBySpec | scripts/compute_demand.py:79 | one group per distinct key in ascending key order; each group counts and sums exactly the rows with its key and keeps the first such row's payload |
| Tables.GroupByKeys | core/methods.py:64-67 | the group keys are exactly the keys occurring in the rows |
| Tables.LeftJoinUnique | main.py:109 | with unique keys on the right, one merged row per left row, in order, carrying that row's match if there is one |
| Tables.LeftJoinRowsFromInputs | core/methods.py:23 | every merged row comes from a left row and carries a right row with the same key when it carries one |
| Tables.SortDesc | scripts/compute_demand.py:122-123 | the rows rearranged into descending key order: same multiset, same length |
| Tables.TopNSpec | scripts/compute_demand.py:122-123 | `min(n, size)` rows in descending order, all taken from the input, and no row left out ranks above a row kept |
| Dicts.LookupKeys | application/services/implementations.py:34 | a key has an entry exactly when it is among the keys |
| Dicts.PutSpec | application/services/implementations.py:34 | after `d[k] = v` the keys stay distinct, `k` maps to `v`, every other key keeps its value, and a new key is appended to the key order |
| Dicts.PutSum | domain/charging_infrastructure/services.py:15-24 | replacing a value changes the sum of the values by the difference |
| Numeric.Trunc | core/methods.py:259 | `int()` drops the fraction: below or equal for non-negative values, above or equal for negative ones, less than one away |
| Numeric.RoundDivSpec | main.py:197 | the rounded quotient lies within half the divisor of the exact one, and a tie goes to the even neighbour |
| Numeric.RoundDivUnique | main.py:197 | off a tie, the rounded quotient is the only integer within half the divisor of the exact one |
| Numeric.Clamp01 | presentation/ui.py:160 | the result lies in [0, 1]; a value inside is kept, one below becomes 0, one above becomes 1 |
| Numeric.SeqMax | presentation/ui.py:150 | an element of the list that no element exceeds |
| Numeric.SeqMin | presentation/ui.py:151 | an element of the list that exceeds no element |
| Text.Lower | main.py:68 | each character lower-cased, the length kept |
| Text.Strip | infrastructure/repositories/implementations.py:122 | the text with leading and trailing white space dropped, neither starting nor ending with white space |
| Text.StripUnchanged | infrastructure/repositories/implementations.py:122 | text that neither starts nor ends with white space is its own strip |
| Text.FirstFiveDigitRun | main.py:92 | none exactly when no five consecutive digits occur; otherwise the value, below 100000, of the leftmost such run |
| Text.KeepDigitsAndMinus | scripts/compute_demand.py:77 | only digits and minus signs remain, and nothing is added |
| Text.NatToString | main.py:92 | a non-empty digit string without a leading zero whose value is the number |
| Text.ParseIntToString | scripts/compute_demand.py:78 | reading back the text of an integer gives the integer |
| Text.PyIntOfDigits | domain/geography/services.py:32 | on a plain digit string `int()` reads its value |
| Text.PyIntOfPaddedDigits | domain/geography/services.py:32 | `int()` ignores white space around a digit string |
| Text.LexLessDigits | infrastructure/repositories/implementations.py:158-159 | on digit strings of equal length, string order is numeric order |
| Text.SortedSetSpec | infrastructure/repositories/implementations.py:96-98 | `sorted(set(codes))` is strictly increasing and holds exactly the given codes |

## Left out

- File and spreadsheet I/O (`read_csv`, `read_excel`, `gpd.read_file`, JSON reads and writes, the output files of the demand script): the model works on the rows these calls produce.
- pandas type inference: a cell is an integer, a whole float, a text or missing; float text in exponent, `inf` or `nan` form is not parsed.
- Geometry is not computed. Centroids, areas, `contains`, WKT parsing, CRS handling and the `within` spatial join are inputs of the model, as described above.
- `calculate_distance` (domain/geography/services.py:46-62): haversine trigonometry on floats has no counterpart over `real`.
- `np.percentile` and `np.nanpercentile`: the 95th percentile is a parameter that lies between the least and the greatest value; numpy's interpolation is not modelled.
- `datetime.now()` and `isoformat()`: the time is a `Moment` parameter, and parsing stamps back with `fromisoformat` is taken to succeed.
- Rendering with folium and streamlit (core/methods.py:141-287 and presentation/ui.py outside the weights and the centroid fallback): only the numbers handed to the drawing calls are modelled.
- `get_geodataframe` (infrastructure/repositories/implementations.py:179-182): it only copies the loaded frame.
- `MapService.generate_charging_stations_layer`, `generate_demand_layer` and `get_heatmap_data`, and `AnalyticsServiceApp.get_demand_analysis` and `get_high_demand_areas` (application/services/implementations.py:37-48, 113-119): each returns the result of one service call that is modelled (`StationsSummaryByPostalCode`, `CalculateDemandForAllAreas`, `GenerateHeatmapData`, `CalculateDemandForPostalCode`, `GetHighDemandAreas`).
- scripts/check_t14_mapping.py after its header scan: its column loop, cleaning and group-sum are the same expressions as in the demand script and are modelled there (`SummedT14Rows` with the digit cleaning). Its `sys.exit(1)` paths and its printed statistics are not modelled.
- The T5 branch of `process_residents_data` (src/domain/events/residents_processed.py:52-68) is a stub that returns `None`, and `ProcessResidentsData` models it as that.
- `Apportionment.MainT5`: the boundary names are a parameter, so the model gives a table in two cases where the source does not. When bezirksgrenzen.shp is missing (main.py:158), the source leaves the residents table unset. When no boundary heading mentions gemeinde, bezirk or name, `bez_name_col` stays `None` and `gdf_bez[None]` raises (main.py:171).
- The routing of main.py:114-127 between the T5 district branch and the CSV column mapping is not modelled. The main program takes the T5 branch when some lower-cased heading contains `bezirk`, or when every heading starts with `unnamed` or strips to nothing. `Apportionment.MainT5` and `ColumnMapping.CsvFallbackRefused` each start after that decision.
- `Demand.DemandLayer`: it uses the corrected maximum `Demand.Vmax`. Where the written maximum raises `ValueError` because no demand is non-zero (core/methods.py:259), the model's layer gives a maximum of 1.
- Stability of `sort_values`: `Tables.SortDesc` and `Tables.TopNSpec` state descending order and a permutation, not the order among equal keys.
- Printing, logging and the `@ht.timer` decorator have no effect on results.
- Concurrent writers to the suggestion file are not modelled.
- Text: only the Latin-1 range is lower-cased and recognised as white space; strings are sequences of characters with no Unicode normalisation.
- `Presentation.CentroidOrFallback`: a failing look-up is an `Err` input, not an exception raised by the repository.
- `SuggestionRepository.Reload`: an object loads when its status is one of the three values and its code, address and reason are non-empty. Missing fields and unreadable time stamps also empty the read in the source; the model does not represent them.

## Findings

| source | as written | input that shows it | evidently intended | confidence | as-written member | corrected member |
|---|---|---|---|---|---|---|
| scripts/compute_demand.py:77-78, also scripts/compute_demand.py:99, main.py:194 and main.py:214 | the totals are printed with `astype(str)` and every character other than a digit or `-` is dropped before parsing | a total read as the float 1234.0 prints as `1234.0` and becomes 12340 | the cell's number, 1234, as `pd.to_numeric` in main.py:95 gives | high; not executed | Residents.CleaningsDisagreeOnFloats | Residents.IntendedTotalValue |
| core/methods.py:259 | `int(np.nanpercentile(...))` over the non-zero demands is taken whenever any demand is not NaN | a frame whose only postal code has no residents: every demand is 0, the list is empty, the percentile is NaN and `int` raises | a colour maximum of 1 when there is no non-zero demand | high; not executed | Demand.VmaxFailsWithoutDemand | Demand.Vmax |

The pipeline functions take the cleaning as a parameter (`Residents.TotalCleaning`). The corrected cleaning is `NumbersKept`, defined by `Residents.IntendedTotalValue`:
- `Residents.IntendedAgreesOffFloats` proves that it agrees with the written cleaning on every cell that is not a float.
- `Residents.IntendedAgreesOnNumbers` proves that it agrees with `main.py`'s numeric coercion on numbers.

The written cleaning stays the one applied in `ReadResidents`, which models the script as it is. The demand layer uses the corrected `Demand.Vmax`. `Demand.VmaxSpec` proves that `Vmax` equals the written value wherever that value exists.
