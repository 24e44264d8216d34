# Bus-line network model

A Dafny model of the data core of `streamlit_busline.py`. That Streamlit app
fetches the public bus lines of a city from the Amap (Gaode) bus-line API and
exports them as two WGS-84 shapefiles: one of stops and one of line paths.
The model covers four parts:

- `transPoint`: decodes a `"lng,lat;lng,lat;..."` polyline into GCJ-02 → WGS-84
  vertices swapped to `(lat, lng)` (module `Polyline`).
- `stations_to_geopandas`: builds one line's stop table column by column from
  the raw stop objects (module `Stops`).
- `get_bus_line` after its HTTP request: takes the first bus line of the
  response and builds its one-row metadata table, its polyline and its stop
  table (module `BusLines`).
- `get_main`: fetches the first line outside any `try`, skips every later
  line that raises, records the progress-bar values, and aggregates what
  succeeded (modules `Pipeline` and `Aggregation`). The aggregation is
  `pd.concat` of the stop tables, `groupby('line_id')` into one path per
  line, and an inner `merge` on `id`, with both collections tagged
  `EPSG:4326`.

Shared pieces:

- `Wrappers` holds `Option`/`Result` and `Traverse`: apply a step to each
  element in order and stop at the first failure. Each loop in the source
  whose body can raise works this way.
- `Text` holds Python's `str.split` and `str.join` on one-character
  separators.
- `Records` holds the response, the table rows and the Python exceptions as
  values.

The core calls three things it does not define:

- the HTTP request and its JSON decoding;
- `float()`;
- `gcj02_to_wgs84`.

Each becomes a function-valued parameter, bundled in `Records.Services`.
Every result is proved for all such parameters.

Each `for` loop of the source (lines 31, 68 and 140) is a method:
`Polyline.TransPoint`, `Stops.StationsToGeopandas` and `Pipeline.GetMain`.
`get_bus_line`, which has no loop, is the method `BusLines.GetBusLine`. Each
method is proved equal to a specification function: `DecodePolyline`,
`StopTable`, `RunOf` or `BusLineOf`. The iterations the source writes as
expressions are functions:

- `map(float, ...)` at 69 is `Traverse`.
- The list comprehension at 78 is `StopColumns.Rows`.
- The `concat`, `groupby` and `merge` at 167-178 are `Concat`, `GroupPaths`
  with `PathOf`, and `Merge`.

The properties are lemmas about these functions.

Code behaviour the model keeps, which a reader of the app might not expect:

- An empty `busstops` list makes `stations_to_geopandas` raise. The column
  dict stays empty, so `stop_df.X` is an `AttributeError`.
- Hence every line `get_bus_line` returns has at least one stop. The inner
  join therefore never drops a fetched line.
- A failure of the first line aborts the whole run. Only later lines are
  skipped.
- Stops are kept in response order. They are never sorted by `sequence`.
- A run of one line leaves the progress bar at 0.
- Building the `LineString`s at line 177 is outside any `try`. A line
  whose group has fewer than two stops makes the whole run raise after the
  loop, even though that line was fetched without error. The lemmas about
  a completed run (`AggregatePaired`, `RunOfBatch`, `RunOfShape`,
  `RunOfRows`) therefore speak only of runs in which every group has two
  points or more.

## Model

| member | source | states |
|---|---|---|
| Text.Split | streamlit_busline.py:30 | `str.split` gives at least one piece, and no piece contains the separator |
| Text.JoinSplit | streamlit_busline.py:30 | joining the pieces of `s.split(sep)` with `sep` gives `s` back |
| Text.SplitJoin | streamlit_busline.py:30 | splitting the join of one or more separator-free pieces gives exactly those pieces |
| Text.SplitPrefix | streamlit_busline.py:32 | a separator-free piece followed by the separator splits into that piece followed by the split of the rest |
| Text.SplitWhole | streamlit_busline.py:32 | a string without the separator splits into itself alone |
| Wrappers.TraverseSuccess | streamlit_busline.py:31-34 | a loop whose body may raise completes exactly when every iteration succeeds, and then yields one result per element, in order |
| Wrappers.TraverseFailureAt | streamlit_busline.py:31-34 | a loop that raises raises the error of the first element whose iteration fails, all earlier ones having succeeded |
| Wrappers.TraverseFirstFailure | streamlit_busline.py:68-75 | when the first `i` iterations succeed and iteration `i` raises, the loop raises that error whatever follows |
| Polyline.ParseSegmentExact | streamlit_busline.py:32 | a segment parses iff it has two `,`-fields or more and `float` accepts the first two; the pair is `(float(f[0]), float(f[1]))` |
| Polyline.ParseSegment | streamlit_busline.py:32 | `float(seg.split(',')[0]), float(seg.split(',')[1])` evaluated left to right: success needs two fields or more; the only errors are ValueError and IndexError |
| Polyline.TransPoint | streamlit_busline.py:23-36 | the loop appending one transformed, swapped vertex per `;`-segment returns or raises exactly what `DecodePolyline` says |
| Polyline.DecodePolylineShape | streamlit_busline.py:29-36 | `transPoint` succeeds iff every segment parses; then it has one vertex per segment, in order, each the transform of `(lng, lat)` given as `(lat, lng)` |
| Polyline.DecodePolylineError | streamlit_busline.py:31-32 | a failing `transPoint` raises the error of the first segment that does not parse |
| Polyline.SegmentIgnoresExtraFields | streamlit_busline.py:32 | only fields `[0]` and `[1]` of a segment are read; text after a third comma is ignored |
| Polyline.OneFieldSegmentFails | streamlit_busline.py:32 | a one-field segment whose number parses raises IndexError at `[1]` |
| Polyline.EmptyPolylineFails | streamlit_busline.py:30-32 | an empty polyline is one empty segment, so `float("")` raises ValueError |
| Stops.ParseFields | streamlit_busline.py:69 | `list(map(float, location.split(',')))`: one number per field, and the only error is ValueError |
| Stops.ParseLocation | streamlit_busline.py:69 | `lng, lat = ...`: success needs exactly two fields; failure is ValueError, or an unpacking of a count other than 2 |
| Stops.StopRowOf | streamlit_busline.py:69-75 | one loop iteration: the row is tagged with `line_id` and its geometry is `Point(X, Y)`; a KeyError names one of the four keys read that the stop lacks |
| Stops.StationsToGeopandas | streamlit_busline.py:61-80 | the column-by-column loop and the frame built from it return or raise exactly what `StopTable` says |
| Stops.ParseLocationExact | streamlit_busline.py:69 | a location unpacks iff it has exactly two `,`-fields that both parse; the pair is those two numbers |
| Stops.LocationStricterThanSegment | streamlit_busline.py:69 | a location the stop loop accepts decodes to the same pair as a `transPoint` segment |
| Stops.ThirdFieldSeparatesTheParsers | streamlit_busline.py:23-75 | `"0,0,0"` is accepted by `transPoint` as `(0, 0)`, but the stop loop rejects it as an unpacking of 3 values |
| Stops.StopTableShape | streamlit_busline.py:67-80 | the table exists iff there is at least one stop and every stop's row succeeds; then there is one row per stop in input order, each tagged `line_id` and carrying the stop's `id`, `name`, `sequence`, transformed `X`, `Y` and `Point(X, Y)` |
| Stops.StopRowOfShape | streamlit_busline.py:69-75 | a stop that yields a row has all four keys, and its row carries their values and the transformed location |
| BusLines.BusInfo | streamlit_busline.py:95-107 | the metadata row exists iff all ten keys and `busstops` are present; it carries `id`, `type`, `name`, `start_stop`, `end_stop`, `start_time`, `end_time`, `distance`, `basic_price`, `total_price` of the line and its number of stops; otherwise a KeyError names a missing key |
| BusLines.LineFromResponse | streamlit_busline.py:93-109 | what `get_bus_line` returns or raises once the response is decoded; characterised by `LineFromResponseShape` and `NoStopsFails` |
| BusLines.GetBusLine | streamlit_busline.py:83-109 | the fetch, `['buslines'][0]`, the metadata, `transPoint` and `stations_to_geopandas`, in that order, return or raise exactly what `BusLineOf` says |
| BusLines.LineFromResponseShape | streamlit_busline.py:93-109 | a returned line comes from `buslines[0]` alone: its metadata is that entry's, `busstops_number` is its stop count, the polyline has one vertex per `;`-segment, the stop table is exactly `stations_to_geopandas` of its stops tagged with its `id`, and the line is well formed |
| BusLines.BusLineOfWellFormed | streamlit_busline.py:83-109 | every returned line has a non-empty stop table with `busstops_number` rows, all tagged with its `id`, and a non-empty polyline |
| BusLines.NoStopsFails | streamlit_busline.py:77-109 | a first bus line with an empty `busstops` list makes `get_bus_line` raise |
| Aggregation.Concat | streamlit_busline.py:167-176 | `pd.concat`: the tables' rows one table after another; characterised by `ConcatMembers` and `ConcatCount` |
| Aggregation.PathOf | streamlit_busline.py:177 | the `line_id == id` group's geometries in frame order; never longer than the frame |
| Aggregation.GroupPaths | streamlit_busline.py:177 | `groupby('line_id')['geometry']`: one path per line id; characterised by the `PathOf...` lemmas |
| Aggregation.Merge | streamlit_busline.py:178 | the inner join on `id`: no more rows than metadata rows, and each joined row has its id's path |
| Aggregation.Aggregate | streamlit_busline.py:166-180 | both collections, or ShortLineString as the only error; both tagged EPSG:4326, no more line rows than metadata rows, every path of two points or more |
| Aggregation.ConcatMembers | streamlit_busline.py:167 | a row is in the concatenation iff it is in one of the tables |
| Aggregation.ConcatCount | streamlit_busline.py:167 | the stop collection has as many rows as the metadata rows' `busstops_number` add up to |
| Aggregation.PathOfAppend | streamlit_busline.py:177 | the group of a concatenation is the groups of the parts, in order |
| Aggregation.PathOfTagged | streamlit_busline.py:177 | a table tagged with `id` throughout is the whole group of `id`, in row order |
| Aggregation.PathOfOther | streamlit_busline.py:177 | a table tagged with another id adds nothing to the group of `id` |
| Aggregation.PathOfConcat | streamlit_busline.py:167-177 | with a unique `id`, its group in the stop collection is exactly its own table's points, in table order |
| Aggregation.PathOfAbsent | streamlit_busline.py:167-177 | an id no metadata row carries has an empty group |
| Aggregation.IdsAreGroupKeys | streamlit_busline.py:167-177 | every metadata row's `id` is a group key of the stop collection |
| Aggregation.MergeMembers | streamlit_busline.py:178 | a joined row is a metadata row whose `id` has a path, paired with that path, and nothing else |
| Aggregation.MergeKeepsAll | streamlit_busline.py:178 | when every `id` has a path, the join keeps every metadata row, in order |
| Aggregation.PathOfAtLeast | streamlit_busline.py:167-177 | the group of a line's `id` holds at least as many points as that line has stops |
| Aggregation.GroupKeysAreIds | streamlit_busline.py:167-177 | every group key of the stop collection is some metadata row's `id` |
| Aggregation.AggregateDrawable | streamlit_busline.py:177 | grouping raises only for a `LineString` of fewer than two points. It cannot raise when every line has two stops or more; with distinct ids it raises exactly when some line has fewer |
| Aggregation.AggregatePaired | streamlit_busline.py:166-180 | both collections are EPSG:4326; stops are the tables in order; there is one line row per metadata row, in order, with the path of its `id` (two points or more), which for distinct ids is its own stops with `busstops_number` points |
| Pipeline.Progress | streamlit_busline.py:141 | `(index + 2) * 100 // length`; bounded and monotone by `ProgressAtMost100` and `ProgressMonotone` |
| Pipeline.Collect | streamlit_busline.py:129-161 | the accumulators after the loop over `lines`: the first line's tables first, both accumulators the same length, and accumulated plus skipped lines numbering the lines handled |
| Pipeline.GetMain | streamlit_busline.py:112-184 | the loop over `data[1:]` with its progress values, followed by the aggregation, returns or raises exactly what `RunOf` says |
| Pipeline.TryLine | streamlit_busline.py:145-161 | one `try`: appends the line's tables or records it as skipped, advancing the accumulators as `Collect` does |
| Pipeline.ProgressMonotone | streamlit_busline.py:141 | a later line never gets a smaller progress value |
| Pipeline.ProgressAtMost100 | streamlit_busline.py:141 | `(index + 2) * 100 // length` never passes 100, and equals 100 for the last line |
| Pipeline.ProgressBounds | streamlit_busline.py:128-141 | the progress values number `length`, start at 0, never decrease, stay within 0..100 and end at 100 when there are at least two lines |
| Pipeline.CollectStep | streamlit_busline.py:145-161 | a line that raises leaves both accumulators unchanged and is skipped with its error; a line that succeeds appends exactly its stop table and metadata row |
| Pipeline.CollectPaired | streamlit_busline.py:129-161 | the accumulators stay paired, with the first line's tables first; accumulated plus skipped lines number `len(data)` |
| Pipeline.CollectProvenance | streamlit_busline.py:140-161 | every skipped entry is a line of the batch that raised that error, and every later accumulated table is some line's result |
| Pipeline.RunOfAborts | streamlit_busline.py:121-177 | an empty `data` raises IndexError; a first line that raises aborts the run with its error; otherwise the run raises only for a short `LineString`: never when every accumulated line has two stops or more, and for distinct ids exactly when one has fewer |
| Pipeline.RunOfBatch | streamlit_busline.py:129-180 | a completed run is the aggregation of its paired batch, with `data[0]`'s metadata first; it reports exactly the batch's skipped lines and the `ProgressTrace` values |
| Pipeline.RunOfShape | streamlit_busline.py:129-180 | a completed run has EPSG:4326 collections; one line row per accumulated line, `data[0]`'s first; one progress value per line; each path is its id's group of two points or more |
| Pipeline.RunOfRows | streamlit_busline.py:166-180 | the stop collection is the accumulated stop tables in order; line row `i` carries accumulated metadata row `i`; with distinct ids its path is that line's own stops in table order |
| Pipeline.OneFailureInThree | streamlit_busline.py:140-180 | with three lines, the middle one raising and the others having two stops or more, the run completes with two line rows and the middle one skipped |

## Left out

- The HTTP request, `.json()` and the Amap service are a parameter, `Records.Fetcher`. Any `Error` it returns stands for a failure of the request or of its decoding; `RequestFailed` is the one the model names for a failed request.
- `float()` and `gcj02_to_wgs84` (the `trans` module) are parameters.
  - `trans` is not part of this model.
  - Numbers are mathematical reals, so NaN, infinities and rounding are not modelled.
- JSON values are modelled as text.
  - `str()` of the numeric fields `type`, `start_time`, `end_time`, `basic_price` and `total_price` is taken as the identity.
  - A non-text `id` or `polyline` is not modelled.
- The pandas and geopandas frames are sequences of row values. Column dtypes, the index and the `geometry` column name are not modelled.
- `LineString` is the sequence of its points.
  - shapely's minimum of two points is modelled as one error, `ShortLineString`.
  - shapely's own exception class and message are not modelled.
  - The stop file written at 171, before that error is raised, is not modelled.
- `groupby` key order is not modelled. The group of each key is modelled exactly.
- Merge: the inner join keeps the metadata rows in their order, as pandas 2.2 and later do. Before 2.2 pandas puts rows with equal keys next to each other, so with an `id` repeated in the metadata (a keyword repeated in `data`) the line rows of older pandas follow the left keys' first-appearance order instead; `MergeKeepsAll` and `AggregatePaired` state the 2.2 order.
- The stop table keeps `X` and `Y` as separate values.
  - The source calls `gcj02_to_wgs84` once for each of them.
  - With a deterministic transform, this is the same as calling it once.
- The UI is not modelled:
  - spinners;
  - the status text at 142-144;
  - `st.dataframe` and `add_rows`;
  - the folium map and the `np.mean` map centre at 138;
  - the random `faker` colours at 155;
  - `folium_static`;
  - `time.sleep`;
  - `st.success`.
  - These are assumed not to raise inside the `try`.
  - Progress values are recorded as a sequence instead of being drawn.
- The fetch is a fixed function of the key, the city and the keyword.
  - A name that appears twice in `data` therefore gets the same outcome both times.
  - `CollectProvenance` relies on this when it states `attempt(name) == Failure(e)`.
  - Responses that change between requests are not modelled.
- A request that never returns is not modelled. `requests.get` at line 92 has no timeout.
- `print(e)` is modelled as the list of skipped lines with their errors.
- `to_file` at 171 and 181 and the `time.time()` file names are not modelled. The two exported collections are the run's result.
- `get_bus_name` (web scraping with `HTMLSession`) and the `__main__` page layout are not modelled. They are scraping and UI, outside the data core.
- The model has no behaviour the code lacks. In particular:
  - the first line's failure is not skipped, it aborts the run;
  - stops are not sorted by `sequence`;
  - no warning is emitted for a line without geometry. Such a line raises instead.
