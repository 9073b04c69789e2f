# Canada_Weather: a verified model of the data layer

Canada_Weather downloads monthly climate summaries for Canadian weather
stations from 1850 to 2022. It keeps them as one in-memory list of stations, each with its
readings. It answers filtered statistical queries over that list and turns
a query replayed year by year into three chart series:

- the main values,
- a 7-year rolling average,
- a fitted linear trend.

This project models that data layer in Dafny and proves what it computes.

- `enums.dfy`, module `Enums`: the `Province` and `ReadingOf` enumerations
  and their display texts, plus `Province.valueOf`. `Season` and
  `StationsOption` are defined from their uses, because their declarations
  are not part of this model.
- `stations.dfy`, module `Stations`: `Station.java`.
  - A station element is a sequence of child nodes `(name, text, attrs)`,
    each carrying its tag and attribute names as spelled in the document.
  - The first-match lookups `getElementValue` and `getAttributeValue`,
    which compare those spellings with the constant tag names.
  - The sentinel defaults of `stringToFloat` and `getAttributeValueFloat`.
  - The `Reading` record and `getSeason`.
  - A `Station` class whose reading list only grows.
- `query_spec.dfy`, module `QuerySpec`: what `Data.query` computes, as
  functions on station values.
  - The province filter.
  - The radius filter.
  - The conjunctive year/month/season filter.
  - The sentinel-skipping reduction, with the null-reference failures as a
    `Result`.
- `queries.dfy`, module `Queries`: `Data.Query` and `Data.Query.Builder` as
  classes, including `setYear`.
- `data.dfy`, module `WeatherData`: the `Data` class.
  - `query` is written as its loops and proved equal to
    `QuerySpec.QueryResult`.
  - The merge in `download` is built from a `HashMap` keyed by identifier,
    proved against the fold `MergeSpec.MergeAll` (`merge_spec.dfy`).
- `worker.dfy`, module `MonthDownload`: `DownloadMonthRunnable`.
  - `run` and `getStation` on a class holding the station list.
  - They are proved against `RunFrom` and `FindStation` on values.
  - Lemmas prove that identifiers stay distinct, that each station element
    adds exactly one reading at the first station with its identifier, or
    appends a new station at the end, and that the readings a year adds are
    of that year and the worker's month.
- `graph.dfy`, module `Graphs`: `Graph.RollingAverage` as a class, and the
  year loop of `createDataset`. The loop is proved against `DatasetOf`, with
  lemmas on the order, completeness and shape of the three series.
- `floats.dfy` and `wrappers.dfy`: the float constants as exact reals, and
  `Option`/`Result`.

Java `null` is `None` and a thrown exception is `Failure`. The distance test
`isWithin` is a parameter `within`, `Float.parseFloat` is a parameter
`parse`, and the least-squares fitter is a parameter `fit`. A year's
downloaded document is a parameter `fetch` that returns the station
elements, or `None` where the document does not parse.

Two quirks of the code are modelled as written and proved:

- The radius filter restarts from the whole station list, so a nonzero
  radius discards the province filter (`Data.java:63-70`,
  `QuerySpec.RadiusIgnoresProvince`).
- The running maximum starts at `Float.MIN_VALUE`, the smallest positive
  float, which is also the "no data" sentinel. So `EXTREME_MAX` over values
  that are all non-positive reports "no data" (`Data.java:83`,
  `QuerySpec.ExtremeMaxOfNonPositiveIsSentinel`).

Where the code differs from what a reader might expect, the model follows
the code:

- One might expect the radius to narrow the region-filtered stations and to
  skip stations with unknown coordinates. The code filters all stations
  (`Data.java:65`) and hands sentinel coordinates to `isWithin`.
- One might expect an unparsable document to cost only its own year. In the
  code the single `try` around the year loop (`Data.java:299-320`) ends the
  whole run at the first exception and keeps the list as it stood.
  `MonthDownload.RunFrom` does the same.
- One might expect each worker's stations to be keyed by identifier. The
  code keeps a list with a linear `getStation`, which throws on a listed
  station without an identifier. `MonthDownload.FindFrom` models the list.
- One might expect a missing selector or reduction mode to fail at once.
  The code throws only when the null is reached: a null selector only when
  some reading is selected, a null mode only when some value is counted
  (`QuerySpec.QueryFailures`).

## Verifying

All files verify together under a resource limit rather than a time limit:

    dafny verify --resource-limit 2000000 --verification-time-limit 0 --warn-contradictory-assumptions *.dfy

Without those options some proofs can exceed the default 30-second limit.

## Model

| member | source | states |
|---|---|---|
| Enums.ProvinceOrdinal | src/main/java/weather/enums/Province.java:4-18 | each constant's position in declaration order, where `Provinces` holds it |
| Enums.ProvincesEnumerated | src/main/java/weather/enums/Province.java:4-18 | exactly 15 constants, each listed once, NL first, NU 13th, then CANADA and XX |
| Enums.ProvinceTextInjective | src/main/java/weather/enums/Province.java:4-29 | toString's display texts are pairwise distinct |
| Enums.ValueOfIn | src/main/java/weather/Station.java:21 | the search for a constant by name yields a listed constant of that name, or None when none is listed |
| Enums.ProvinceValueOf | src/main/java/weather/Station.java:21 | Province.valueOf yields the constant with that name, or None (the exception) when no constant has it |
| Enums.NoneListed | src/main/java/weather/enums/Province.java:4-18 | a name absent from the list of values is the name of no constant |
| Enums.ValueOfName | src/main/java/weather/Station.java:21 | valueOf inverts the constant name |
| Enums.ProvinceNameInjective | src/main/java/weather/enums/Province.java:4-18 | no two constants share a name, so valueOf has at most one answer |
| Enums.ReadingOfsEnumerated | src/main/java/weather/enums/ReadingOf.java:4-8 | exactly five selectors, each listed once |
| Enums.ReadingOfTextInjective | src/main/java/weather/enums/ReadingOf.java:4-19 | the selector texts are pairwise distinct |
| Stations.ElementValueFrom | src/main/java/weather/Station.java:41-46 | from child `from` on: None exactly when no child has the name; otherwise the text of the first child with it |
| Stations.GetElementValue | src/main/java/weather/Station.java:39-47 | the text of the first child named `tag`; None (null) exactly when no child has that name |
| Stations.NodeNameTextInjective | src/main/java/weather/Station.java:39-47 | distinct tag constants have distinct spellings, so a lookup by tag finds only children of that tag |
| Stations.ElementLookupExample | src/main/java/weather/Station.java:39-47 | a child spelled `name` is found by the tag `name`; one spelled `Name` is not, as the comparison is exact |
| Stations.AttributeValueFrom | src/main/java/weather/Station.java:51-60 | from child `from` on: the attribute of the first child with the name and the attribute, skipping children that lack it; None exactly when no child has both |
| Stations.GetAttributeValue | src/main/java/weather/Station.java:49-61 | the attribute of the first child that has the name and carries the attribute; None (null) exactly when there is none |
| Stations.StringToFloat | src/main/java/weather/Station.java:32-38 | the parsed value, or MIN_VALUE when the text is null or unparsable; it never fails |
| Stations.GetAttributeValueFloat | src/main/java/weather/Station.java:63-72 | equals stringToFloat applied to getAttributeValue; MIN_VALUE whenever no child carries the attribute |
| Stations.NewReading | src/main/java/weather/Station.java:111-113 | a new reading holds the given year and month |
| Stations.ReadingFieldSource | src/main/java/weather/Station.java:114-118 | the temperatures are read from attribute `value`, snow and precipitation from attribute `total`, of the element named after the field |
| Stations.GetSeason | src/main/java/weather/Station.java:130-144 | None (null) exactly for months outside 1..12; otherwise the calendar season of the month in three-month blocks from March on, never ALL |
| Stations.SeasonMonths | src/main/java/weather/Station.java:130-144 | each season other than ALL is the season of exactly three months |
| Stations.FieldMatchesReflection | src/main/java/weather/Data.java:87-89 | each selector's text names a declared float field of Reading, and the static field map returns what reflection on that name returns |
| Stations.FieldsDistinct | src/main/java/weather/enums/ReadingOf.java:4-8 | distinct selectors pick distinct fields |
| Stations.ParseStation | src/main/java/weather/Station.java:18-30 | a station is built exactly when the province code parses; it then holds one reading, of the given year and month, and its identifier and province are those of the element |
| Stations.Station.constructor | src/main/java/weather/Station.java:18-30 | the new station's value is ParseStation's |
| Stations.Station.AddReading | src/main/java/weather/Station.java:74-76 | exactly one reading is appended; earlier readings and the identity fields stay |
| QuerySpec.ProvinceFilter | src/main/java/weather/Data.java:54-61 | the kept stations are exactly the stations of the given province |
| QuerySpec.RadiusFilter | src/main/java/weather/Data.java:63-70 | the kept stations are exactly those isWithin accepts |
| QuerySpec.ProvinceFilterCounts | src/main/java/weather/Data.java:54-61 | a station of the province is kept as often as it is listed, any other not at all |
| QuerySpec.RadiusFilterCounts | src/main/java/weather/Data.java:63-70 | a station isWithin accepts is kept as often as it is listed, any other not at all |
| QuerySpec.Candidates | src/main/java/weather/Data.java:52-70 | radius 0 with a concrete province keeps exactly that province's stations; radius 0 otherwise keeps all; a nonzero radius keeps exactly the stations of the WHOLE list within it |
| QuerySpec.CanadaIsWildcard | src/main/java/weather/Data.java:54 | province CANADA selects the same stations as a null province |
| QuerySpec.RadiusIgnoresProvince | src/main/java/weather/Data.java:63-70 | with a nonzero radius the province has no effect |
| QuerySpec.MatchingReadings | src/main/java/weather/Data.java:74-80 | a reading of the station is kept exactly when it passes the year, month and season tests together |
| QuerySpec.SelectedReadings | src/main/java/weather/Data.java:72-81 | a reading is selected exactly when it passes all three tests and belongs to a candidate station |
| QuerySpec.MatchingReadingsCounts | src/main/java/weather/Data.java:74-80 | a reading that passes the three tests is kept as often as the station holds it, any other not at all |
| QuerySpec.SelectedReadingsCounts | src/main/java/weather/Data.java:72-81 | a reading that passes the three tests is selected as often as the candidate stations hold it, any other not at all |
| QuerySpec.SelectedValues | src/main/java/weather/Data.java:87-89 | the selected field of each reading, one per reading |
| QuerySpec.Counted | src/main/java/weather/Data.java:90 | a value is counted exactly when it is not the sentinel |
| QuerySpec.CountedCounts | src/main/java/weather/Data.java:90 | a non-sentinel value is counted as often as it occurs, the sentinel never |
| QuerySpec.AccumulateFacts | src/main/java/weather/Data.java:83-105 | count and total are those of the counted values; min <= every counted value <= max; max is at least MIN_VALUE and is MIN_VALUE or a counted value; min is at most MAX_VALUE and is MAX_VALUE or a counted value |
| QuerySpec.AccumulateSkipsSentinel | src/main/java/weather/Data.java:90-101 | sentinel values change neither total, count, max nor min |
| QuerySpec.CountedValueOrigin | src/main/java/weather/Data.java:72-101 | every counted value is a non-sentinel field of a reading that passes all filters, of a candidate station |
| QuerySpec.NoDataIsSentinel | src/main/java/weather/Data.java:107-114 | with nothing counted the result is the sentinel |
| QuerySpec.AverageIsMean | src/main/java/weather/Data.java:107-109 | AVERAGE is the sum of the counted values over their number |
| QuerySpec.ExtremeMinIsMinimum | src/main/java/weather/Data.java:98-111 | EXTREME_MIN is at most every counted value and is one of them |
| QuerySpec.MinOfCounted | src/main/java/weather/Data.java:98-101 | over values with something counted, the loop's minimum is at most every counted value and, when none exceeds MAX_VALUE, is one of them |
| QuerySpec.ExtremeMaxIsBound | src/main/java/weather/Data.java:94-110 | EXTREME_MAX is at least every counted value and at least MIN_VALUE, and is MIN_VALUE or a counted value |
| QuerySpec.ExtremeMaxOfNonPositiveIsSentinel | src/main/java/weather/Data.java:83-96 | EXTREME_MAX over non-positive values only is the sentinel |
| QuerySpec.ConfiguredQuerySucceeds | src/main/java/weather/Data.java:85-112 | with a selector and a mode, query never throws |
| QuerySpec.QueryFailures | src/main/java/weather/Data.java:85-112 | a null selector throws exactly when a reading is selected; a null mode throws exactly when a value is counted |
| QuerySpec.ReductionExamples | src/main/java/weather/Data.java:83-114 | 10, 20, 30 reduce to mean 20, minimum 10 and maximum 30; only sentinel values give no data |
| Queries.Query.constructor | src/main/java/weather/Data.java:171-181 | the query copies every field of the builder |
| Queries.Query.SetYear | src/main/java/weather/Data.java:183-185 | only the year changes |
| Queries.Builder.constructor | src/main/java/weather/Data.java:195-205 | everything null, zero or 0.0 |
| Queries.Builder.SetProvince | src/main/java/weather/Data.java:207-210 | only the province changes; the builder itself is returned |
| Queries.Builder.SetSeason | src/main/java/weather/Data.java:212-215 | only the season changes; the builder itself is returned |
| Queries.Builder.SetYear | src/main/java/weather/Data.java:217-220 | only the year changes; the builder itself is returned |
| Queries.Builder.SetMonth | src/main/java/weather/Data.java:222-225 | only the month changes; the builder itself is returned |
| Queries.Builder.SetReadingOf | src/main/java/weather/Data.java:227-230 | only the selector changes; the builder itself is returned |
| Queries.Builder.SetWithinRangeKM | src/main/java/weather/Data.java:232-237 | radius, latitude and longitude change together, nothing else |
| Queries.Builder.SetStationsOption | src/main/java/weather/Data.java:239-242 | only the mode changes; the builder itself is returned |
| Queries.Builder.Build | src/main/java/weather/Data.java:244-246 | a new query with the builder's fields |
| WeatherData.FilterProvince | src/main/java/weather/Data.java:54-61 | the loop's list has the values ProvinceFilter gives |
| WeatherData.FilterRadius | src/main/java/weather/Data.java:63-70 | the loop's list has the values RadiusFilter gives |
| WeatherData.CollectReadings | src/main/java/weather/Data.java:72-81 | the nested loops collect exactly SelectedReadings, in order |
| WeatherData.AccumulateReadings | src/main/java/weather/Data.java:83-105 | total, count, max and min of the loop are the fold Accumulate over the selected values |
| WeatherData.Summarize | src/main/java/weather/Data.java:85-114 | the reduction and return, including the null-selector and null-mode exceptions, are Summary |
| WeatherData.Data.constructor | src/main/java/weather/Data.java:31-33 | no stations |
| WeatherData.Data.SelectStations | src/main/java/weather/Data.java:52-70 | the two station steps give Candidates of the stations' values |
| WeatherData.Data.Query | src/main/java/weather/Data.java:51-115 | query returns QueryResult of the stations' values, whose properties are the QuerySpec lemmas |
| WeatherData.MergeStation | src/main/java/weather/Data.java:148-152 | a known identifier's station gets the readings appended in place, a new identifier maps to the station; the map's values follow MergeStep |
| WeatherData.MergeAt | src/main/java/weather/Data.java:147-153 | one more station of the workers' lists is merged, keeping the merge invariant |
| WeatherData.MergeAllNext | src/main/java/weather/Data.java:146-153 | merging the stations up to position pos + 1 is merging those up to pos and then station pos |
| WeatherData.IndexStations | src/main/java/weather/Data.java:145-154 | the map's keys and values are those of MergeAll over the workers' stations in order |
| WeatherData.ListValues | src/main/java/weather/Data.java:156 | the list holds every map entry exactly once, in some order |
| WeatherData.Data.Merge | src/main/java/weather/Data.java:145-156 | the new station list enumerates MergeAll of the workers' stations: one station per identifier, each the merged one |
| MergeSpec.MergeAllKeys | src/main/java/weather/Data.java:145-154 | the merged identifiers are exactly the fragments' identifiers, each under its own key |
| MergeSpec.MergeAllReadings | src/main/java/weather/Data.java:148-149 | a merged station holds the readings of all fragments with its identifier, concatenated in order |
| MergeSpec.ReadingsWithIdCount | src/main/java/weather/Data.java:148-149 | a merged station's reading count is the sum of its fragments' counts |
| MergeSpec.MergeAllKeepsFirst | src/main/java/weather/Data.java:148-151 | a merged station keeps the name, identifier, province and coordinates of the first fragment with its identifier |
| MergeSpec.MergeTwoFragments | src/main/java/weather/Data.java:148-151 | two fragments of one station merge into the first with both reading lists |
| MonthDownload.FindFrom | src/main/java/weather/Data.java:324-329 | from position `from` on: the first listed station with identifier `id`, or the first null identifier met before one, or NotFound exactly when every listed identifier is non-null and differs |
| MonthDownload.FindStation | src/main/java/weather/Data.java:323-330 | Found at the first station with the identifier; NullIdentifier (the NullPointerException) at the first null identifier met before any match; NotFound exactly when every listed identifier is non-null and different |
| MonthDownload.PlaceExtends | src/main/java/weather/Data.java:309-314 | the lookup's outcome keeps every listed station in place and adds at most one |
| MonthDownload.PlaceCases | src/main/java/weather/Data.java:308-314 | when placing succeeds the lookup did not throw; a found station, and only it, gains the reading at the end of its readings, the list keeping its length; otherwise the new station is appended at the end |
| MonthDownload.PlaceAddsOnly | src/main/java/weather/Data.java:308-314 | placing a one-reading station of a year and month keeps every earlier list as a prefix and adds only readings of that year and month |
| MonthDownload.PlaceAddsOneReading | src/main/java/weather/Data.java:309-314 | extending or adding a one-reading station adds exactly one reading |
| MonthDownload.PlaceKeepsDistinct | src/main/java/weather/Data.java:309-314 | identifiers stay pairwise distinct |
| MonthDownload.PlaceKeepsWithin | src/main/java/weather/Data.java:309-314 | every reading stays of the worker's month and of a run year |
| MonthDownload.WorkerStepFacts | src/main/java/weather/Data.java:306-315 | one station element without an exception: identities kept, at most one station more, exactly one reading more, identifiers still distinct, readings still within month and years |
| MonthDownload.WorkerStepPlaces | src/main/java/weather/Data.java:307-314 | one station element without an exception: the reading built has the loop's year and month; the station found by the element's identifier gains exactly it, every other station unchanged; with no such station the element's one-reading station is appended |
| MonthDownload.WorkerStepAddsOnly | src/main/java/weather/Data.java:307-314 | one station element keeps the earlier readings as prefixes and adds only readings of the loop's year and month |
| MonthDownload.AddsOnlyTransitive | src/main/java/weather/Data.java:305-315 | two steps that each keep earlier readings and add only readings of one year and month together do the same |
| MonthDownload.NodesAddOnly | src/main/java/weather/Data.java:305-315 | a year's station loop keeps the earlier readings of every station as prefixes, and every reading it adds is of that year and the worker's month |
| MonthDownload.NodesExtend | src/main/java/weather/Data.java:306-315 | a year's station loop drops no station and keeps identities in place |
| MonthDownload.NodesAddOneReadingPerElement | src/main/java/weather/Data.java:306-315 | a completed year's loop adds one reading per element |
| MonthDownload.NodesKeepDistinct | src/main/java/weather/Data.java:306-315 | a year's loop keeps identifiers distinct |
| MonthDownload.NodesKeepWithin | src/main/java/weather/Data.java:306-315 | a year's loop keeps every reading of the worker's month and of a year in START_YEAR..END_YEAR-1 |
| MonthDownload.RunExtends | src/main/java/weather/Data.java:298-321 | a run drops no station and keeps identities in place |
| MonthDownload.RunAddsOneReadingPerElement | src/main/java/weather/Data.java:298-321 | a run that no exception ends adds one reading per station element of every year |
| MonthDownload.RunKeepsDistinct | src/main/java/weather/Data.java:298-321 | a run keeps identifiers distinct |
| MonthDownload.RunKeepsWithin | src/main/java/weather/Data.java:298-321 | a run records only readings of its month and of years START_YEAR..END_YEAR-1 |
| MonthDownload.FreshRun | src/main/java/weather/Data.java:252-321 | a fresh worker's list has distinct identifiers and readings of its month only, and one reading per element when it completes |
| MonthDownload.RunStep | src/main/java/weather/Data.java:300-316 | a year whose document parses runs its station loop, and the run goes on with the next year exactly when that loop completed |
| MonthDownload.RunDone | src/main/java/weather/Data.java:298-321 | past the last year the run has completed, and at a document that does not parse it stops without completing; in both cases the list is unchanged |
| MonthDownload.RunPreserves | src/main/java/weather/Data.java:298-321 | a property of the list that every year's station loop keeps holds for the list a run leaves |
| MonthDownload.MonthWorker.constructor | src/main/java/weather/Data.java:256-259 | the month is set and the list is empty |
| MonthDownload.MonthWorker.GetStation | src/main/java/weather/Data.java:323-330 | the loop's result is FindStation of the list's values |
| MonthDownload.MonthWorker.ExtendStation | src/main/java/weather/Data.java:311 | addReading on the found station: only that station gains the reading |
| MonthDownload.MonthWorker.AppendStation | src/main/java/weather/Data.java:313 | stations.add: the list gains the new station at its end, and the values gain its value |
| MonthDownload.MonthWorker.PlaceStation | src/main/java/weather/Data.java:309-314 | lookup then extend or add: the new list is Place's; unchanged when the lookup throws |
| MonthDownload.MonthWorker.ProcessStationNode | src/main/java/weather/Data.java:308-314 | one element: the new list is WorkerStep's; unchanged when an exception is thrown |
| MonthDownload.MonthWorker.ProcessYear | src/main/java/weather/Data.java:305-316 | the station loop of a year yields NodesFrom's list and completion |
| MonthDownload.MonthWorker.RunYear | src/main/java/weather/Data.java:300-316 | one pass of the year loop: after a completed year the rest of the run is what remains of RunFrom; after the last year or an exception the list is RunFrom's |
| MonthDownload.MonthWorker.Run | src/main/java/weather/Data.java:298-321 | run leaves the list RunFrom gives, whose properties are the Run lemmas |
| Graphs.Window | src/main/java/weather/Graph.java:166-171 | the window is all values while there are fewer than seven, else exactly the last seven |
| Graphs.WindowSlides | src/main/java/weather/Graph.java:166-171 | after an update the window holds min(n, 7) values, the newest last, the oldest dropped once full |
| Graphs.RollingAverage.constructor | src/main/java/weather/Graph.java:162-164 | an empty window |
| Graphs.RollingAverage.Update | src/main/java/weather/Graph.java:166-171 | append, then drop the oldest beyond seven; numbers stays the window of all updates |
| Graphs.RollingAverage.GetValue | src/main/java/weather/Graph.java:173-182 | the sentinel with fewer than seven values, else the sum of the window over seven |
| Graphs.RollingIsMeanOfLastSeven | src/main/java/weather/Graph.java:177-181 | with a full window the value is the mean of exactly the last seven updates |
| Graphs.SumLastIsSum | src/main/java/weather/Graph.java:177-180 | adding up the last n values, newest first, gives the sum of the suffix of length n |
| Graphs.RollingExample | src/main/java/weather/Graph.java:173-181 | values 1,1,1,1,1,8: no rolling value yet; one more 1 gives 2 |
| Graphs.MainPointsFailureSticks | src/main/java/weather/Graph.java:128-129 | a failing year's query ends the whole series with its error |
| Graphs.MainPointsValues | src/main/java/weather/Graph.java:125-134 | every main point lies in startYear..endYear, carries its year's query value and never the sentinel |
| Graphs.MainPointsOrdered | src/main/java/weather/Graph.java:125-134 | main points are in strictly increasing year order, so no year repeats |
| Graphs.MainPointsComplete | src/main/java/weather/Graph.java:125-134 | every year of the range was queried without error, and a year has a main point exactly when its value is not the sentinel |
| Graphs.YearsMembers | src/main/java/weather/Graph.java:134 | a year is among a series' years exactly when a point carries it |
| Graphs.RollingSeriesLength | src/main/java/weather/Graph.java:133-137 | no rolling point before seven main points, at most one per main point |
| Graphs.RollingSeriesYears | src/main/java/weather/Graph.java:135-137 | every rolling point is at a year of the main series |
| Graphs.RollingSeriesValues | src/main/java/weather/Graph.java:135-137 | no rolling point carries the sentinel |
| Graphs.RollingSeriesOrdered | src/main/java/weather/Graph.java:131-137 | over main points in strictly increasing year order the rolling points are in strictly increasing year order too |
| Graphs.SeriesYearsIncrease | src/main/java/weather/Graph.java:125-137 | neither the main series nor the rolling series of a year range repeats a year, so TimeSeries.add never sees a duplicate year |
| Graphs.RollingSeriesLast | src/main/java/weather/Graph.java:135-136 | the rolling point of a main point is the mean of the last seven main values up to it |
| Graphs.SeriesStep | src/main/java/weather/Graph.java:131-137 | one more main point: its value joins the rolling input, and a rolling point is added unless its value is the sentinel |
| Graphs.AddToRolling | src/main/java/weather/Graph.java:131-137 | update then getValue: the rolling average has seen the main values and the new one, and the rolling series gains the returned value unless it is the sentinel |
| Graphs.TrendSeries | src/main/java/weather/Graph.java:147-149 | one trend point per fit point, at the same year, on the line b + slope * year |
| Graphs.TrendShape | src/main/java/weather/Graph.java:143-149 | the trend is empty without fit points, else one point per fit point at the same years on the fitted line |
| Graphs.LinearTrend | src/main/java/weather/Graph.java:140-150 | the trend loop yields Trend of the fit points |
| Graphs.Graph.constructor | src/main/java/weather/Graph.java:38-40 | a new, empty Data |
| Graphs.Graph.QueryYear | src/main/java/weather/Graph.java:128-129 | setYear then query: only the year changes, the stations stay, the result is the year's query result |
| Graphs.Graph.QueryNext | src/main/java/weather/Graph.java:128-129 | setYear and query for year i: its failure is the main series' failure, and a value extends the main series of the earlier years unless it is the sentinel |
| Graphs.Graph.Roll | src/main/java/weather/Graph.java:131-137 | as AddToRolling, with the query and the stations left as they are |
| Graphs.Graph.YearStep | src/main/java/weather/Graph.java:125-138 | one pass of the year loop: the main series of the years up to i and its rolling series, or the query failure |
| Graphs.Graph.YearSeries | src/main/java/weather/Graph.java:124-139 | the year loop yields MainPoints and its RollingSeries, or the first query failure |
| Graphs.Graph.CreateDataset | src/main/java/weather/Graph.java:117-157 | the three series are DatasetOf, or the first query failure; the query keeps its fields except the year |

## Left out

- isWithin (`Data.java:35-49`): the haversine distance on floats is a parameter `within`, called with the same argument order.
- Float.parseFloat is a parameter `parse`; its `None` is a NumberFormatException. A null text does not reach `parse`: StringToFloat maps it to MIN_VALUE first.
- NaN and infinite floats: `parse` yields a real or `None`, so the texts `NaN` and `Infinity` are not modelled. In the source a parsed NaN differs from MIN_VALUE, is counted, and makes AVERAGE NaN (`Data.java:90-92`).
- The `int` width of the chart's year loop: `i <= endYear` with endYear = Integer.MAX_VALUE never ends in Java, because `i` wraps around (`Graph.java:125`). Years are unbounded integers here, so the loop always ends.
- DownloadMonthRunnable.Get (`Data.java:261-295`): HTTP fetching, the indefinite retry with `Thread.sleep`, and appending to `raw_stations.txt` are network and file I/O. `fetch` stands for a year's downloaded and parsed document.
- XML parsing with DocumentBuilderFactory and `getElementsByTagName` (`Data.java:300-304`): a station element is a sequence of child records.
- Data.load and writing `stations.json` (`Data.java:117-127, 157`): file I/O through Gson.
- Thread creation and joining in download (`Data.java:130-143`) and in makeGraphs (`Graph.java:66-83`): concurrency. Merge takes the workers' station lists in their order once they are joined.
- The catch in download (`Data.java:158-160`): the merge does not throw and is not modelled as throwing.
- PolynomialCurveFitter (`Graph.java:140-145`): least-squares fitting inside a library is a parameter `fit`. Only the structure of the trend series is modelled.
- createChart, main and JFreeChart rendering (`Graph.java:42-115`): UI and image output. TimeSeries.add throws on a duplicate year; SeriesYearsIncrease shows neither the main nor the rolling series repeats a year.
- IEEE float rounding: measurements are exact reals. MIN_VALUE and MAX_VALUE are their exact values. Sums and averages are not rounded.
- The reflective getDeclaredField lookup and its printed exceptions (`Data.java:87-104`): replaced by the total static map `Field`. FieldMatchesReflection shows that the reflective exceptions cannot occur.
- The getters of Station (`Station.java:78-100`): plain field reads.
- weather/enums/Season.java and weather/enums/StationsOption.java are not part of this model. Those enums are defined from their uses.
- Stations.Station.constructor: requires the province code to parse. The exception Province.valueOf throws otherwise is modelled in the caller: MonthWorker.ProcessStationNode checks first, and WorkerStep returns Failure(UnknownProvince).
- MonthDownload.MonthWorker.PlaceStation: requires the new station object not to be listed yet. It was constructed just before, so it is fresh.
- WeatherData.Data.Merge: requires the workers' station objects to be pairwise distinct objects. Each worker constructs its own stations, so they are.
- WeatherData.Data.Merge: states the list only up to order, because HashMap.values() promises no order.
- QuerySpec.ExtremeMinIsMinimum: states "is one of the counted values" only when every counted value is at most MAX_VALUE. An unbounded real above it would leave the start value; no finite float is above it.
- Graphs.Graph.YearSeries: calls getValue once where the source calls it twice (`Graph.java:135-136`). getValue changes nothing, so both calls agree.
- Graphs.Graph.CreateDataset: a failing query is returned as a Failure. In the source the exception leaves createDataset and ends the chart thread.
