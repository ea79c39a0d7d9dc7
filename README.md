# Per-city fuel price aggregation of `DataFrameHolder`

This project models the data pipeline of the fuel-price dashboard's
`DataFrameHolder`. The holder owns one data frame with one row per filling
station. `process_data` turns it into a frame with one row per city: the
average price of each of the six fuels, the average position and the number
of stations.

The pipeline has two stages.

- **Cleaning** (`_data_cleaning`):
  - selects eleven columns: `Région`, `Département`, `Code postal`, `Ville`, `geom` and the six price columns;
  - builds the key `cp_ville` as postal code, one space, city name;
  - drops `Ville` and `Code postal`;
  - drops the rows without a region;
  - decodes `geom` by splitting it on `", "`, discarding empty pieces and applying `float` to the rest.
- **Grouping and merge** (`_compute_new_dataframe` with `_mean_coords`) computes four reductions per key and inner-joins them on the key:
  - the first region and department of the key;
  - the mean of each fuel's price over the stations that report it;
  - the mean latitude and longitude over the non-empty geometries;
  - the number of stations (`Apparition`).

The repository holds two copies of the holder. `data_processor/data_processor.py`
is the one the application uses. `processor/data_processor.py` is an older
copy. Its pipeline is the same; it differs in directory names, attribute naming, and the name and parameter of its save method. Each copy
is a Dafny class whose methods reassign the frame field step by step. Both
classes are proved against the same step functions, and
`Processor.CopiesAgree` shows that the two give the same result.

Modules, one per file:

- `Wrappers`: `Option`, `Result` and `Outcome`.
- `Frames`: the six fuels and their price columns, station, keyed, cleaned and output rows, the exceptions, and the frame tagged with the stage it has reached.
- `Text`: splitting on a separator, and the decimal parser that stands in for `float`.
- `Cleaning`: selection, the key, the region filter and geometry decoding.
- `Merge`: a pandas inner join on a key column.
- `Grouping`: groups in order of first appearance, `first()`, means over present values, `_mean_coords`, the four reductions and their join. `CityOf` is an independent reference definition of one output row.
- `Pipeline`: the whole run on a loaded table, the step functions of the holder's methods, and lemmas that tie every output row to the stations of the loaded table.
- `DataProcessor` and `Processor`: the two holder classes.
- `Scenarios`: concrete runs, including a Paris city with two stations and a Lyon station that has no region.

Modelling decisions:

- A missing cell is `None`.
  - pandas propagates NaN through `+`, so a station without a postal code or a city gets no key. `groupby` then leaves it out of every group, but the station stays in the cleaned table.
  - A NaN `geom` has no `split`, so it raises (`GeometryNotText`).
  - An empty `geom` string decodes to an empty list. `read_csv` reads an empty cell as NaN, so a table from the loader never holds one. An empty `geom` in the scenarios stands for a cell the loader gave as the empty string, not for an empty CSV field. An empty CSV field raises `GeometryNotText` and aborts the run.
- Every exception aborts the run, and the frame keeps whatever the steps before it stored:
  - a selection failure leaves the loaded table;
  - a decoding failure leaves the filtered keyed table (lines 102-112 have already run);
  - a coordinate failure leaves the cleaned table.
- When no cleaned row has a key, cleaning succeeds but the coordinate reduction has no group. Its result then has only the key as index, and `reset_index(level=1, drop=True)` (line 137) raises `IndexError`. The model names this `NoKeyedRows`. An example is a table whose only station lacks a region.
- `_mean_coords` has two failures:
  - a non-empty geometry with a single number raises `IndexError` (`coord[1]`);
  - a group with no non-empty geometry raises `ZeroDivisionError`.

  Both become `CoordinatesFailed(key, failure)`.
- Across this repository, the loader's result (`load_csv_file`) is taken as the constructor's argument: `None` when the file could not be read, otherwise a table with its header.

`float` raising on a malformed piece (line 118) aborts the whole run; no row is skipped.

## Model

| member | source | states |
|---|---|---|
| Frames.PriceColumns | data_processor/data_processor.py:31-32 | six distinct price columns, one per fuel, in the holder's order |
| Cleaning.Missing | data_processor/data_processor.py:102 | the columns a selection reports as missing are exactly the wanted ones the frame lacks |
| Cleaning.Project | data_processor/data_processor.py:98-102 | the selection succeeds exactly when all eleven useful columns are present, and keeps the rows with exactly those columns; otherwise it raises naming every absent useful column |
| Cleaning.CityKeyRoundTrip | data_processor/data_processor.py:105-106 | for a postal code without spaces, the key splits back into that postal code and city |
| Cleaning.CityKeySeparatesPostalCodes | data_processor/data_processor.py:103-106 | one city name with two different postal codes gives two different keys |
| Cleaning.CityKeyIsNotCity | data_processor/data_processor.py:103-106 | the key is never the bare city: it is the postal code, one space, then the city |
| Cleaning.KeyOf | data_processor/data_processor.py:105-106 | a station has a key exactly when both its postal code and its city are present |
| Cleaning.AddKeys | data_processor/data_processor.py:105-109 | one keyed row per station, in order. Each copies its station's region, department, geometry and prices. Its key is the postal code, one space and the city when both are present, and missing otherwise |
| Cleaning.DropMissingRegion | data_processor/data_processor.py:112 | every kept row has a region, and a row is kept exactly when it was present and had a region |
| Cleaning.NonEmpty | data_processor/data_processor.py:118 | the kept pieces are exactly the non-empty pieces; Cleaning.NonEmptyAppend fixes their order and repetitions |
| Cleaning.NonEmptyAppend | data_processor/data_processor.py:118 | the `if coord` filter distributes over concatenation, so it keeps the non-empty pieces in order and with their repetitions |
| Text.Split | data_processor/data_processor.py:118 | `str.split` always gives at least one piece, the first a prefix of the string; Text.JoinSplit, Text.SplitPiecesFree and Text.SplitAtFirst state the rest |
| Text.Float | data_processor/data_processor.py:118 | `float` rejects the empty string, and accepts only text with a digit; Text.FloatOfDecimal gives its value on a decimal numeral |
| Text.JoinSplit | data_processor/data_processor.py:118 | splitting on `", "` and joining back gives the original string |
| Text.SplitPiecesFree | data_processor/data_processor.py:118 | no piece of a split contains the separator |
| Text.SplitAtFirst | data_processor/data_processor.py:118 | a split cuts at the first occurrence of the separator |
| Text.FloatOfDecimal | data_processor/data_processor.py:118 | `float` of a decimal numeral is its value |
| Cleaning.ParsePieces | data_processor/data_processor.py:118 | the comprehension succeeds exactly when every non-empty piece parses, and then yields their values in order; otherwise the error names the first non-empty piece that does not parse |
| Cleaning.DecodeGeometry | data_processor/data_processor.py:115-118 | a missing geometry raises and the empty string gives `[]`; otherwise the result is the float of each non-empty piece, in order, or the error names a non-empty piece `float` rejects |
| Cleaning.DecodeRows | data_processor/data_processor.py:115-118 | decoding succeeds exactly when every row's geometry decodes; each row keeps its fields and gets its coordinates; a failure is some row's failure |
| Grouping.Keys | data_processor/data_processor.py:124-127 | the group keys are distinct and are exactly the keys that some row carries |
| Grouping.Group | data_processor/data_processor.py:124-142 | a group holds exactly the rows with its key, in row order |
| Grouping.GroupAppend | data_processor/data_processor.py:124-142 | grouping distributes over concatenation |
| Grouping.FirstPresent | data_processor/data_processor.py:125-127 | `first()` is missing exactly when every value is missing, otherwise it is the first present value |
| Grouping.MeanPresent | data_processor/data_processor.py:129-132 | the mean over present values is missing exactly when every value is missing |
| Grouping.MeanPresentSkipsMissing | data_processor/data_processor.py:129-132 | a missing price changes neither the sum nor the count of the mean |
| Grouping.MeanPresentWithin | data_processor/data_processor.py:129-132 | the mean of the present prices lies between their bounds |
| Grouping.MeanPresentAllReported | data_processor/data_processor.py:129-132 | when every station reports the price, the mean is the plain mean of all of them |
| Grouping.MeanWithin | data_processor/data_processor.py:165-166 | `sum / len` of a non-empty list lies between bounds on its elements |
| Grouping.MeanOfEqual | data_processor/data_processor.py:165-166 | `sum / len` of equal values is that value |
| Grouping.MeanCoords | data_processor/data_processor.py:150-166 | `_mean_coords` raises `ZeroDivisionError` exactly when every list is empty, and `IndexError` exactly when some list has one element; otherwise it succeeds, with the value Grouping.MeanCoordsSkipsEmpty and Grouping.MeanCoordsAllUsable give |
| Grouping.MeanCoordsSkipsEmpty | data_processor/data_processor.py:162-163 | an empty coordinate list does not change the mean position |
| Grouping.MeanCoordsSingle | data_processor/data_processor.py:162-166 | a single position is its own mean |
| Grouping.MeanCoordsAllUsable | data_processor/data_processor.py:162-166 | when every list holds a position, none is filtered out and the result is the mean of the first components paired with the mean of the second components |
| Grouping.MeanCoordsWithin | data_processor/data_processor.py:162-166 | the mean position lies in any box that holds every usable position |
| Grouping.GeoMapping | data_processor/data_processor.py:125-127 | reduction 1, one row per key with the group's first region and department; Grouping.MergeAligned, Grouping.SummaryRegionIsFirst and Grouping.SummaryDepartmentIsFirstPresent state its content |
| Grouping.PriceMeans | data_processor/data_processor.py:130-132 | reduction 2, one row per key with the group's mean prices; Grouping.MergeAligned and Grouping.SummaryPriceMissingIff state its content |
| Grouping.CoordMeans | data_processor/data_processor.py:135-138 | reduction 3, which raises `NoKeyedRows` with no key, or the first failing key's error; Grouping.CoordMeansSucceedsIff and Grouping.ComputeFailsAtFirstBadKey state it |
| Grouping.Counts | data_processor/data_processor.py:141-142 | reduction 4, one row per key with its group size; Grouping.MergeAligned and Grouping.GroupsPartitionRows state its content |
| Grouping.Collect | data_processor/data_processor.py:134-136 | collecting per-key means succeeds exactly when every key's mean does, pairing each key with its mean; otherwise it fails with the first failing key's error |
| Grouping.CoordMeansSucceedsIff | data_processor/data_processor.py:134-138 | the coordinate reduction succeeds exactly when there is at least one key and every key's mean succeeds |
| Merge.InnerJoin | data_processor/data_processor.py:145-148 | `merge(on='cp_ville')`, an inner join on the key; Merge.JoinOnUniqueKeys and Merge.JoinAligned state its result |
| Merge.JoinOnUniqueKeys | data_processor/data_processor.py:145-148 | an inner join with a unique-keyed right side whose keys cover the left keeps each left row and pairs it with its match |
| Merge.JoinAligned | data_processor/data_processor.py:145-148 | joining two tables with the same unique keys in the same order pairs them row by row |
| Merge.JoinFourAligned | data_processor/data_processor.py:145-148 | the three successive joins of four tables with the same key column pair them row by row |
| Grouping.MergeAligned | data_processor/data_processor.py:144-148 | the merged frame has one row per key: that key with its four reductions |
| Grouping.Compute | data_processor/data_processor.py:120-148 | `_compute_new_dataframe` on the cleaned rows; Grouping.ComputeSucceedsIff, Grouping.ComputeByKey, Grouping.OneRowPerKey and Grouping.ComputeKeys state its result |
| Grouping.ComputeSucceedsIff | data_processor/data_processor.py:120-148 | the computation succeeds exactly when there is at least one key and every key's reference row succeeds |
| Grouping.ComputeByKey | data_processor/data_processor.py:120-148 | on success, the `i`-th output row is the reference row of the `i`-th key |
| Grouping.ComputeFailsAtFirstBadKey | data_processor/data_processor.py:134-138 | on failure, the error is `NoKeyedRows` exactly when there is no key; otherwise it is the error of the first key whose reference row fails, and every key before it succeeds |
| Grouping.ComputeFailsWithoutKeys | data_processor/data_processor.py:134-138 | the computation raises `NoKeyedRows` exactly when no cleaned row has a key |
| Grouping.OneRowPerKey | data_processor/data_processor.py:124-148 | output keys are unique, and a key is an output key exactly when some cleaned row carries it |
| Grouping.ComputeKeys | data_processor/data_processor.py:124-148 | the output rows carry the group keys, in key order |
| Grouping.CityOfCountsGroup | data_processor/data_processor.py:140-142 | a key that occurs has a non-empty group, so its `Apparition` is at least one; the clauses on its key, count and position are those of the reference row itself |
| Grouping.SummaryPriceMissingIff | data_processor/data_processor.py:129-132 | a fuel's output price is missing exactly when no station of the group reports it |
| Grouping.SummaryRegionIsFirst | data_processor/data_processor.py:125-127 | when every row has a region, the output region is the first row's |
| Grouping.SummaryDepartmentIsFirstPresent | data_processor/data_processor.py:125-127 | the output department is missing exactly when the whole group lacks one, otherwise it is the first present one |
| Grouping.GroupsPartitionRows | data_processor/data_processor.py:140-142 | the group sizes add up to the number of keyed rows |
| Grouping.EveryKeyedRowCountedOnce | data_processor/data_processor.py:140-142 | the `Apparition` column adds up to the number of keyed cleaned rows |
| Cleaning.CleanTable | data_processor/data_processor.py:94-118 | `_data_cleaning` as a value; Cleaning.Project, Cleaning.AddKeys, Cleaning.DropMissingRegion and Cleaning.DecodeRows state its steps, and Pipeline.GroupIsStations its result |
| Pipeline.Run | data_processor/data_processor.py:84-92 | cleaning then aggregation; Pipeline.RunFailsIff states when it fails, and Pipeline.RowIsSummary with the lemmas on stations what it returns |
| Pipeline.KeptGroupOfStations | data_processor/data_processor.py:105-112 | computing the key first and then filtering gives, per key, exactly the key's stations that have a region |
| Pipeline.GroupIsStations | data_processor/data_processor.py:105-118 | a cleaned group matches, row by row, the loaded stations with that key and a region: same region, department and prices, and coordinates that are the station's decoded geometry |
| Pipeline.CleanRowsComeFromStations | data_processor/data_processor.py:105-118 | every cleaned row has a region, and comes from a loaded station with the same region and key |
| Pipeline.RowIsSummary | data_processor/data_processor.py:124-148 | every output row summarises the group of its own key; its position is that group's coordinate mean |
| Pipeline.PositionIsMeanOverStations | data_processor/data_processor.py:134-138 | every geometry of the key's stations decodes, and the output position is `_mean_coords` of those decoded geometries |
| Pipeline.ApparitionCountsStations | data_processor/data_processor.py:140-142 | `Apparition` is the number of loaded stations with the key and a region, so dropped stations never count |
| Pipeline.RegionOfFirstStation | data_processor/data_processor.py:125-127 | an output region is present, and is that of the key's first station with a region |
| Pipeline.DepartmentOfFirstStation | data_processor/data_processor.py:125-127 | an output department is the first present department among the key's stations |
| Pipeline.PriceIsMeanOverStations | data_processor/data_processor.py:129-132 | each output price is the mean over the key's stations that report the fuel, and is missing exactly when none does |
| Pipeline.CleanKeyIsStationKey | data_processor/data_processor.py:105-118 | a key occurs in the cleaned table exactly when some loaded station with a region has it |
| Pipeline.OutputKeysAreStationKeys | data_processor/data_processor.py:103-148 | the output has one row per distinct key of the stations that have a region |
| Pipeline.RunFailsIff | data_processor/data_processor.py:84-92 | a run raises exactly when one of these holds: the selection fails, some kept row's geometry fails to decode, no cleaned row has a key, or some key's reference row fails |
| Pipeline.RunFailsWithoutStationKeys | data_processor/data_processor.py:94-138 | once cleaning succeeds, the run raises `NoKeyedRows` exactly when no station that has a region has a key |
| Pipeline.ProcessStep | data_processor/data_processor.py:84-92 | `process_data` on a frame; Pipeline.ProcessLoaded, Pipeline.ProcessUnloaded and Pipeline.ProcessTwiceFails state it |
| Pipeline.CleaningStep | data_processor/data_processor.py:94-118 | `_data_cleaning` on a frame; on failure the frame is what the last completed assignment left; DataProcessor.DataFrameHolder.DataCleaning states it |
| Pipeline.ComputeStep | data_processor/data_processor.py:120-148 | `_compute_new_dataframe` on a cleaned frame; DataProcessor.DataFrameHolder.ComputeNewDataFrame states it |
| Pipeline.ProcessLoaded | data_processor/data_processor.py:84-92 | on a loaded table, processing passes exactly when the run succeeds and then stores its result; otherwise it raises the run's error |
| Pipeline.ProcessUnloaded | data_processor/data_processor.py:102 | processing a holder whose loader failed raises and leaves the frame unset |
| Pipeline.ProcessTwiceFails | data_processor/data_processor.py:98-102 | processing an already aggregated frame raises on the missing `Code postal`, `Ville` and `geom`, and changes nothing |
| Pipeline.OutputLacksInputColumns | data_processor/data_processor.py:145-148 | the output frame lacks exactly `Code postal`, `Ville` and `geom` of the useful columns |
| DataProcessor.DataFrameHolder.constructor | data_processor/data_processor.py:19-32 | the frame is the loader's result, and the price column list is the six fuels |
| DataProcessor.DataFrameHolder.DataFrame | data_processor/data_processor.py:44-52 | the `data_frame` property, the holder's current frame |
| DataProcessor.DataFrameHolder.ProcessData | data_processor/data_processor.py:84-92 | the price columns stay the six fuels; the new frame and the outcome are those of the processing step on the old frame |
| DataProcessor.DataFrameHolder.DataCleaning | data_processor/data_processor.py:94-118 | the price columns stay the six fuels; the frame after the five assignments, or after the one that raised, is the cleaning step's; on success it is cleaned. Adding `cp_ville` and dropping the two columns are one assignment in the model |
| DataProcessor.DataFrameHolder.ComputeNewDataFrame | data_processor/data_processor.py:120-148 | the price columns stay the six fuels; the frame becomes the merged table, or stays as it was when the coordinate reduction raises: some key's mean fails, or there is no key at all |
| Processor.DataFrameHolder.constructor | processor/data_processor.py:18-31 | the frame is the loader's result, and the price column list is the six fuels |
| Processor.DataFrameHolder.ProcessData | processor/data_processor.py:63-71 | the price columns stay the six fuels; the new frame and the outcome are those of the processing step on the old frame |
| Processor.DataFrameHolder.DataCleaning | processor/data_processor.py:73-97 | the price columns stay the six fuels; the frame after the five assignments, or after the one that raised, is the cleaning step's; on success it is cleaned. Adding `cp_ville` and dropping the two columns are one assignment in the model |
| Processor.DataFrameHolder.ComputeNewDataFrame | processor/data_processor.py:99-127 | the price columns stay the six fuels; the frame becomes the merged table, or stays as it was when the coordinate reduction raises: some key's mean fails, or there is no key at all |
| Processor.CopiesAgree | processor/data_processor.py:63-71 | from the same loader result, both copies raise the same error or store the same frame, and they succeed exactly when the run does |
| Scenarios.MeanSkipsTheGap | data_processor/data_processor.py:129-132 | prices `p1`, `p2` and a missing one average to `(p1 + p2) / 2` |
| Scenarios.MeanIgnoresEmptyGeometry | data_processor/data_processor.py:162-166 | an empty `geom` decodes to `[]` and is left out of the coordinate mean |
| Scenarios.DecodePoint | data_processor/data_processor.py:115-118 | `"48.0, 2.0"` decodes to `[48.0, 2.0]` |
| Scenarios.MeanCoordsMidpoint | data_processor/data_processor.py:162-166 | stations at (0, 0) and (2, 4) average to their midpoint (1, 2) |
| Scenarios.CleanTwoAndOne | data_processor/data_processor.py:94-118 | of three stations, the one without a region is dropped and the other two are keyed and decoded |
| Scenarios.ComputeTwo | data_processor/data_processor.py:120-148 | two stations of one key, one without a position, give one row: the first region, the mean price, the one position and a count of two |
| Scenarios.TwoStationsOneDropped | data_processor/data_processor.py:94-148 | a whole run over three stations, one without a region, gives the single expected row |
| Scenarios.LyonAlone | data_processor/data_processor.py:94-138 | a table whose only station lacks a region cleans to nothing, and the run raises `NoKeyedRows` |
| Scenarios.ParisAndLyon | data_processor/data_processor.py:94-148 | two Paris stations at 1.50 and 1.60 and a Lyon station without a region give one row: `75001 Paris`, 1.55, position (48.0, 2.0), two stations |

## Left out

- File I/O: `load_csv_file`, `save_dataframe`, `save_processed_dataframe`, the directory handling and the tkinter message boxes. The loader's result is the constructor's argument.
- The scraper, the fetcher, the visualizer, the map script and `main.py`. They hold no aggregation logic.
- Text.Float: models `float` only on decimal numerals (`[sign] digits [. digits]`). Exponents, `inf`, `nan`, surrounding whitespace and underscores are rejected instead of parsed.
- Floating point: prices and coordinates are exact reals, so IEEE rounding of sums and divisions is not modelled.
- Output order: groups are kept in order of first appearance, while pandas sorts them by key. Values and the set of rows do not depend on this. Grouping.ComputeFailsAtFirstBadKey names the first failing key in appearance order, where pandas would name the first in sorted order.
- pandas dtypes: a price column is a number or missing; mixed-type columns and numeric postal codes are not modelled. The loader forces `Code postal` to text.
- DataProcessor.DataFrameHolder.ComputeNewDataFrame and Processor.DataFrameHolder.ComputeNewDataFrame: require a cleaned frame. `process_data` calls them only after cleaning succeeded. On any other frame pandas would fail with an error the model does not name.
- The price column list is a constant field set by the constructor, since no code changes it.
- pandas' `SettingWithCopyWarning` on the selection is a warning, not a change in behaviour.
