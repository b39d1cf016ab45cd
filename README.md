# clean-air-pipeline: a verified model of the ETL core

clean-air-pipeline moves air-quality readings from the OpenAQ v3 API into a
Snowflake warehouse in three stages. Each stage hands over to the next through an
S3 bucket:

- **Extract** pages through the API. It writes each answer as a JSON document
  under `raw/<entity>/YYYY/MM/DD/<prefix>_<timestamp>.json`.
- **Transform** reads the raw documents and flattens and renames their records.
  It drops duplicate rows and stamps each row with an ingestion time. It writes a
  table, or a list of ids, under `processed/...` and moves each raw file to
  `archive/...`.
- **Load** runs SQL against an external stage over `processed/...`. It truncates
  and copies the newest file for the dimension tables, and merges the newest file
  into the fact table.

A runner executes the daily steps and the weekly steps in order, and stops at the
first step that raises.

This project models those stages in Dafny:

- **The S3 bucket** is a map from keys to stored documents. Each document carries
  its last-modified time.
  - Refused accesses are an explicit set.
  - The store is a `Store` class whose methods change the map in place.
  - The effect of each call is given by a pure function on the map.
- **Listing** results are an input constrained to be the stored keys under the
  prefix, in key order.
- **The API** is a finite sequence of answers per URL.
- **Timestamps and clocks** are parameters.
- **The warehouse tables** are state:
  - a dimension table is a `DimTable` class, with its rows and its load history;
  - the fact table is a `FactTable` class.
  - The statements the loaders send (`LIST`, `ORDER BY ... LIMIT 1`, `REPLACE`,
    `LIKE`, `TRUNCATE`, `COPY INTO ... FORCE`, `MERGE`) are modelled by what they
    do to that state.

Modules follow the source files:

| module | source file |
|---|---|
| `Values`, `Text` | shared values and string helpers |
| `ObjectStore` | the S3 calls |
| `ExtractUtils` | `src/utils/extract_openaq_utils.py` |
| `TransformUtils` | `src/utils/transform_utils.py` |
| `TestRun` | `src/test_run.py` |
| `PipelineRunner` | `src/pipeline_runner.py` |
| `ExtractMeasurements` | `src/extract_openaq_meausurements.py` |
| `TransformDimLocation` | `src/transform_dim_location.py` |
| `TransformDimParameter` | `src/transform_dim_parameter.py` |
| `TransformDimSensor` | `src/transform_dim_sensor.py` |
| `TransformFactMeasurements` | `src/transform_fact_measurements.py` |
| `Warehouse` | the statement sequence shared by the dimension loaders |
| `LoadDimLocation` | `src/load_dim_location.py` |
| `LoadDimParameter` | `src/load_dim_parameter.py` |
| `LoadFactMeasurements` | `src/load_fact_measurements.py` |

Each stage's `main` is a method that works on the live store or table. The
method's postcondition ties the final state and outcome to a pure function of the
initial state. Lemmas about that function state what the stage promises.

Where the design description and the code differ, the model follows the code:

- An empty record list gives a frame with no columns at all.
- The `schema` argument of `transform_records_to_df` is never applied.
- Ties in `find_latest_s3_key` go to the first object listed.
- The loaders catch and print every error rather than raising it.
- The archive loop of the sensor transform is not guarded: its first failure ends
  the stage.

## Model

| member | source | states |
|---|---|---|
| Text.Find | src/utils/transform_utils.py:97 | the leftmost occurrence of a pattern: it occurs there, nowhere before, and None exactly when the pattern does not occur |
| Text.RStrip | src/utils/transform_utils.py:27 | the result is a prefix of the input without a trailing `/`, and everything cut off was `/` |
| Text.NatToString | src/extract_openaq_meausurements.py:98-104 | `str(n)` is a non-empty string of digits |
| Text.NatToStringValue | src/extract_openaq_meausurements.py:98-104 | the digits of `str(n)` denote `n`, with no leading zero unless `n` is 0 |
| Text.NatToStringInjective | src/transform_fact_measurements.py:78-83 | different sensor ids print as different digit strings, so the id read back from a key names one sensor |
| Text.ReplaceAllStripsPrefix | src/load_dim_location.py:31 | `REPLACE(name, url, '')` on a name that starts with the stage URL yields the rest, when the URL does not occur again |
| Text.LikeContainsFollowed | src/load_dim_location.py:33 | `LIKE '%w_%'` holds exactly when `w` occurs with at least one character after it; the `_` is a wildcard |
| ExtractUtils.CreateS3KeyStamp | src/utils/extract_openaq_utils.py:44-63 | the timestamp can be read back from a created key, at a position fixed by the base path and the file prefix alone |
| ExtractUtils.CreateS3KeyUnique | src/utils/extract_openaq_utils.py:44-63 | keys created at different timestamps differ |
| ExtractUtils.UploadKeyUnique | src/utils/extract_openaq_utils.py:224-261 | upload keys made at different timestamps differ |
| ExtractUtils.CreateS3KeyIsListed | src/utils/extract_openaq_utils.py:56-62 | a created key lies under the prefix `list_s3_keys_by_prefix` sends for the same base path |
| ExtractUtils.UploadKeyVersusCreateS3Key | src/utils/extract_openaq_utils.py:224-261 | the upload key equals the created key exactly when the endpoint has no trailing `/`; with one it contains an empty segment `//` |
| ExtractUtils.Upload | src/utils/extract_openaq_utils.py:224-261 | an empty bucket name raises ValueError and writes nothing; otherwise the document is put under the upload key, and on success it is stored there |
| ExtractUtils.UploadToS3 | src/utils/extract_openaq_utils.py:224-261 | the store and the outcome after the call are those of `Upload` |
| ExtractUtils.UploadBytesToS3 | src/utils/extract_openaq_utils.py:264-276 | the table's parquet bytes are put under the given key, and a refusal is raised |
| ExtractUtils.ReadJson | src/utils/extract_openaq_utils.py:115-152 | a document is returned exactly when the key exists, reading is allowed and the content is JSON; it is the stored document; otherwise None, never an error |
| ExtractUtils.ReadJsonFromS3 | src/utils/extract_openaq_utils.py:115-152 | returns what `ReadJson` says of the current store |
| ExtractUtils.NewestSpec | src/utils/extract_openaq_utils.py:91-101 | the scan finds nothing exactly when no key contains the pattern; otherwise it keeps the first of the newest matching objects |
| ExtractUtils.FindLatestS3Key | src/utils/extract_openaq_utils.py:66-112 | the loop over the listed pages returns the key of the scan, and None on a listing error, on no match or on an empty key |
| ExtractUtils.LatestKeyInStore | src/utils/extract_openaq_utils.py:66-112 | the key found is stored, lies under the prefix and contains the pattern; no matching stored key is newer, and ties go to the key first in order; None exactly when nothing under the prefix matches |
| ExtractUtils.RequestParams | src/utils/extract_openaq_utils.py:171-173 | each request carries `limit = 1000` and the page number, and every other parameter as the caller gave it |
| ExtractUtils.FetchAllPagesNew | src/utils/extract_openaq_utils.py:155-221 | the loop's result, waits and number of requests are those of the recursive fetch; request `i` carries page `i + 1` |
| ExtractUtils.FetchThroughFullPages | src/utils/extract_openaq_utils.py:203-214 | a run of full pages (at least 1000 results each) is kept whole, one request and one wait each, and the fetch continues after it |
| ExtractUtils.FetchStops | src/utils/extract_openaq_utils.py:196-218 | after N full pages: an empty page gives the N pages, a short page gives N + 1 pages, a failed request gives the error, a body without `results` gives KeyError; N + 1 requests in each case |
| ExtractUtils.FirstNotFull | src/utils/extract_openaq_utils.py:186-212 | every finite API answer has, after a run of full pages, a page that fails, lacks `results`, is empty or holds fewer than 1000 results: one of the four cases of `FetchStops` |
| ExtractUtils.FetchEnds | src/utils/extract_openaq_utils.py:176-218 | every fetch sends exactly one request past a run of full pages, and keeps that run, possibly followed by one short page |
| ExtractUtils.FetchedPagesHaveResults | src/utils/extract_openaq_utils.py:198-203 | every kept page has a non-empty `results` list |
| TransformUtils.ListPrefixShape | src/utils/transform_utils.py:27 | the listed prefix ends in exactly one `/` and otherwise agrees with the given prefix |
| TransformUtils.ListPrefixIdempotent | src/utils/transform_utils.py:27 | normalising a normalised prefix changes nothing |
| TransformUtils.ListS3KeysByPrefix | src/utils/transform_utils.py:21-31 | the keys of all pages in listing order; they are exactly the stored keys under the prefix, strictly increasing; a listing failure propagates |
| TransformUtils.ArchiveKeyOfRawKey | src/utils/transform_utils.py:97 | a `raw/...` key is archived under `archive/...` with the same rest |
| TransformUtils.ArchiveKeyMoves | src/utils/transform_utils.py:97 | the archive key differs from the key exactly when the key contains `raw/` |
| TransformUtils.ArchiveMoves | src/utils/transform_utils.py:93-112 | the archive passes exactly when the key exists, contains `raw/` and every access is allowed; then the content sits at the archive key and the source is gone; a failure leaves the payload at one of the two keys; other keys never change |
| TransformUtils.ArchiveS3File | src/utils/transform_utils.py:93-112 | the store and the outcome after the call are those of `Archive` |
| TransformUtils.Put | src/utils/transform_utils.py:50 | setting a key in an insertion-ordered row keeps an existing key's place or appends a new one, and changes no other key |
| TransformUtils.JsonNormalizeShape | src/utils/transform_utils.py:50 | one row per record; the columns are distinct and are exactly the flattened keys of some record; each cell is the record's flattened value or null |
| TransformUtils.FlattenRecordKeys | src/utils/transform_utils.py:50 | a record's flattened keys are the joined names of its non-object leaves |
| TransformUtils.NestedLeafColumn | src/utils/transform_utils.py:50 | leaf `b` of object field `a` becomes column `a_b` |
| TransformUtils.RenameLabelSpec | src/utils/transform_utils.py:53-54 | a column named in the map takes the map's first new name; every other column keeps its name |
| TransformUtils.Rename | src/utils/transform_utils.py:53-54 | renaming keeps the rows and the number of columns |
| TransformUtils.DeduplicatedSpec | src/utils/transform_utils.py:57-64 | without a subset, or with a subset column missing, the frame is unchanged; otherwise the first row of each key tuple is kept, so keys are unique; deduplicating twice equals once |
| TransformUtils.KeepFirstOnlyFirsts | src/utils/transform_utils.py:60 | every kept row is the first of its key tuple |
| TransformUtils.KeepFirstKeepsFirsts | src/utils/transform_utils.py:60 | every row that is first of its key tuple is kept |
| TransformUtils.KeepFirstUniqueKeys | src/utils/transform_utils.py:60 | after `keep='first'` no two rows share a key tuple |
| TransformUtils.KeepFirstCoversKeys | src/utils/transform_utils.py:60 | every key tuple of the input is still present |
| TransformUtils.KeepFirstOfUnique | src/utils/transform_utils.py:60 | rows whose keys are already unique are left as they are |
| TransformUtils.SetColumnSpec | src/utils/transform_utils.py:67 | `df[c] = cells` gives column `c` those cells, appends `c` only when absent, and leaves every other column unchanged |
| TransformUtils.StampIngestTsSpec | src/utils/transform_utils.py:67 | every row gets the same ingestion time and nothing else changes |
| TransformUtils.ProjectShape | src/utils/transform_utils.py:72-81 | the projected frame has the requested columns once each, keeps the values of present columns, and has rows only if some requested column exists |
| TransformUtils.NormalisedShape | src/utils/transform_utils.py:33-85 | no records gives an empty frame; otherwise the frame has exactly the final columns, one row per deduplicated row, each stamped with the ingestion time |
| TransformUtils.TransformRecordsToDf | src/utils/transform_utils.py:33-85 | the step-by-step frame equals the normalised frame |
| TestRun.SuccessesCount | src/test_run.py:28-35 | at most one body per URL; exactly one per URL when every URL answers, and then the bodies are the answers in URL order |
| TestRun.SuccessesFromUrls | src/test_run.py:28-35 | every body returned is the answer of one of the URLs |
| TestRun.FetchSequentiallyTest | src/test_run.py:11-42 | no API key raises RuntimeError before any request; a rate of 0 raises ZeroDivisionError; a positive rate requests every URL in order with the same parameters and waits after each; a negative rate fails at the first wait |
| PipelineRunner.RunStepsSpec | src/pipeline_runner.py:30-46 | the steps run form a prefix of the list; a passing run ran all of them; a failing run stops at the first failing step and re-raises its error |
| PipelineRunner.RunStepsPassingPrefix | src/pipeline_runner.py:30-46 | a passing first step is followed by the run of the rest from its new world |
| PipelineRunner.ExecuteSteps | src/pipeline_runner.py:30-46 | the loop ends in the world, the steps run and the outcome of `RunSteps` |
| PipelineRunner.RunDailyPipeline | src/pipeline_runner.py:9-19 | the daily run is `RunSteps` over the nine daily steps in order |
| PipelineRunner.RunWeeklyPipeline | src/pipeline_runner.py:22-26 | the weekly run is `RunSteps` over the three weekly steps in order |
| PipelineRunner.RunStopsAt | src/pipeline_runner.py:35-45 | when the first `n` steps pass and step `n` raises, the run re-raises that error after attempting exactly the first `n + 1` steps |
| PipelineRunner.DailyStopsAtLocationTransform | src/transform_dim_location.py:18 | importing the location transform raises ImportError, so after the three extracts the daily run fails at step 4 and no later transform or load runs |
| PipelineRunner.WeeklyStopsAtParameterTransform | src/pipeline_runner.py:22-26 | importing the parameter transform raises NameError, so the weekly run fails with it at step 2 and the parameter load never runs |
| ExtractMeasurements.SensorStepSpec | src/extract_openaq_meausurements.py:95-126 | a sensor's URL is counted exactly when its fetch returned at least one page, and only then is its upload written |
| ExtractMeasurements.SensorLoopFrame | src/extract_openaq_meausurements.py:95-126 | the loop writes at most each sensor's own upload key and leaves every other key unchanged |
| ExtractMeasurements.SensorLoopCounts | src/extract_openaq_meausurements.py:107-110 | the counted URLs are those of sensors whose fetch returned pages, in order; at most one per sensor; none without an API key |
| ExtractMeasurements.ExtractSensor | src/extract_openaq_meausurements.py:96-126 | one iteration leaves the store and the count as `SensorStep` says |
| ExtractMeasurements.ExtractSensors | src/extract_openaq_meausurements.py:95-126 | the loop ends as `SensorLoop` says; it fetches every sensor's endpoint in order |
| ExtractMeasurements.ExtractStage | src/extract_openaq_meausurements.py:50-128 | the stage's outcome, store and counted URLs are those of `ExtractRun`: no sensor-list key returns early, an unreadable list raises, and every element of an id list is fetched in order |
| TransformDimLocation.TransformAllSpec | src/transform_dim_location.py:59-74 | the tables collected are exactly the ones the keys produced, in key order; failures contribute nothing |
| TransformDimLocation.TransformKeys | src/transform_dim_location.py:59-74 | the loop collects what `TransformAll` says |
| TransformDimLocation.LocationIdsSpec | src/transform_dim_location.py:83-84 | KeyError exactly when no table has the id column; otherwise the ids have no repeats and are exactly those occurring in some table |
| TransformDimLocation.IdListKey | src/transform_dim_location.py:86-94 | the id list is written under `processed/dim_location/` with the file name `location_id_list__<ts>.json` |
| TransformDimLocation.ArchiveEachSpec | src/transform_dim_location.py:103-110 | every movable listed raw key is moved with its content; keys that are neither listed nor archive keys are untouched; failures are swallowed |
| TransformDimLocation.ArchiveKeys | src/transform_dim_location.py:103-110 | the loop leaves the store as `ArchiveEach` says |
| TransformDimLocation.LocationRunGating | src/transform_dim_location.py:50-112 | a listing failure raises; until the id list is written the store is unchanged; once it is, the list holds the ids and every movable raw key is archived |
| TransformDimLocation.TransformStage | src/transform_dim_location.py:50-112 | the stage ends as `LocationRun` says |
| TransformDimParameter.ParameterRunSpec | src/transform_dim_parameter.py:46-83 | a listing failure raises with the store unchanged; otherwise every movable raw parameter file is archived with its content, whatever the transforms did, and keys elsewhere are untouched |
| TransformDimParameter.DeduplicationColumnNotProduced | src/transform_dim_parameter.py:30-41 | the deduplication column is produced by neither the rename map nor the final columns |
| TransformDimParameter.TransformStage | src/transform_dim_parameter.py:46-83 | the stage ends as `ParameterRun` says |
| TransformDimSensor.PageRecordsMembers | src/transform_dim_sensor.py:106-110 | a record is gathered exactly when some page's `results` holds it |
| TransformDimSensor.CollectRecordsSpec | src/transform_dim_sensor.py:98-110 | gathering succeeds exactly when every file can be read; it then holds exactly the files' records; otherwise it fails with the first failing file's error |
| TransformDimSensor.CollectRecordsStopsAt | src/transform_dim_sensor.py:98-110 | once a file raises, later files are never read |
| TransformDimSensor.LeftJoinSpec | src/transform_dim_sensor.py:131-133 | the left join keeps every row and column and appends `location_id`; it is non-null exactly when the map knows the sensor, and is then the mapped location |
| TransformDimSensor.ArchiveAllSpec | src/transform_dim_sensor.py:145-146 | the unguarded archive loop passes exactly when every key was movable, and then moves every key with its content |
| TransformDimSensor.ArchiveAllStopsAt | src/transform_dim_sensor.py:145-146 | the loop stops at the first failing archive |
| TransformDimSensor.ArchiveAllFrame | src/transform_dim_sensor.py:145-146 | keys that are neither listed nor archive keys are never touched |
| TransformDimSensor.SensorsKeyPlace | src/transform_dim_sensor.py:139 | the table key lies under `processed/dim_sensor/`, outside `raw/` and `archive/` |
| TransformDimSensor.SensorTableShape | src/transform_dim_sensor.py:122-133 | the table has the final columns then `location_id`, one row per deduplicated row, each stamped with the ingestion time |
| TransformDimSensor.SensorRunNotWritten | src/transform_dim_sensor.py:60-146 | until the table is written the store is unchanged; archiving only follows a successful put |
| TransformDimSensor.SensorRunWritten | src/transform_dim_sensor.py:136-146 | once written, the table is stored under its key; the stage passes exactly when every raw key was movable, and then every raw key is archived |
| TransformDimSensor.ExtendWithPages | src/transform_dim_sensor.py:106-110 | the page loop appends the pages' records in order |
| TransformDimSensor.CollectRecordsFromS3 | src/transform_dim_sensor.py:98-110 | the file loop returns what `CollectRecords` says |
| TransformDimSensor.ArchiveRawFiles | src/transform_dim_sensor.py:145-146 | the loop leaves the store and outcome as `ArchiveAll` says |
| TransformDimSensor.LoadLocationMap | src/transform_dim_sensor.py:68-82 | the map is the first element of the newest `sensor_to_location_map` document; a missing document, an empty list or an element that is not a map raises |
| TransformDimSensor.TransformStage | src/transform_dim_sensor.py:60-146 | the stage ends as `SensorRun` says |
| TransformFactMeasurements.SearchFromSpec | src/transform_fact_measurements.py:78-83 | searching past positions without a match finds an id exactly when `._sensor_(\d+)` matches somewhere, ignoring case; the id is the full digit run after the first match |
| TransformFactMeasurements.SensorIdOfSpec | src/transform_fact_measurements.py:78-83 | an id is found exactly when the pattern matches somewhere; it is the digit run of the first match |
| TransformFactMeasurements.SensorIdOfUploadedKey | src/transform_fact_measurements.py:78-83 | in a key the extract stage writes for a sensor, the id found is that sensor's id written in decimal, its digits denote the sensor, and keys of different sensors give different ids |
| TransformFactMeasurements.RawKeysIds | src/transform_fact_measurements.py:60-63 | the two fixed keys have ids 3019 and 3018, and are keys the extract stage writes |
| TransformFactMeasurements.SetFieldSpec | src/transform_fact_measurements.py:106-107 | `record[name] = v` gives the field the value and leaves every other field unchanged |
| TransformFactMeasurements.TagRecords | src/transform_fact_measurements.py:106-107 | the in-place loop tags every record with the id |
| TransformFactMeasurements.FactStepRelabels | src/transform_fact_measurements.py:93-107 | as written, after a file with an id, every accumulated record carries that file's id |
| TransformFactMeasurements.RelabelExample | src/transform_fact_measurements.py:60-107 | as written, the reading of 10 from sensor 3019's file ends up tagged 3018 |
| TransformFactMeasurements.FactLoopPerFileTags | src/transform_fact_measurements.py:74-107 | with per-file tagging every gathered record comes from some file and carries that file's id |
| TransformFactMeasurements.FactLoopPerFileStopsAt | src/transform_fact_measurements.py:74-100 | once a file raises, later files are never read |
| TransformFactMeasurements.ProcessFile | src/transform_fact_measurements.py:74-114 | one file of the corrected loop ends as the per-file step says: only that file's records take its sensor id |
| TransformFactMeasurements.TransformStage | src/transform_fact_measurements.py:51-124 | the outcome and the printed frames are those of the per-file stage |
| Warehouse.TextOrderPicksOlder | src/load_dim_location.py:34 | as written, `ORDER BY` on the text of `last_modified` picks the file of Wednesday 20 August 2025 over the one of Friday 22 August, two days newer; the order by instant picks Friday |
| Warehouse.LatestBySpec | src/load_dim_location.py:28-36 | for any ranking, no file is chosen exactly when none passes the filter; the chosen file is listed, passes the filter, and no passing file ranks higher |
| Warehouse.NewestSpec | src/load_dim_location.py:28-36 | in the corrected order by the instant `last_modified` denotes: no file is chosen exactly when none passes the filter; the chosen file is listed, passes the filter, and no passing file is newer |
| Warehouse.LatestStaged | src/load_dim_location.py:28-36 | over a listing whose ranks are the stored times, the key left by `REPLACE` names a stored object ranked at least as high as every passing file |
| Warehouse.NewestKeyStaged | src/load_dim_location.py:28-36 | in the corrected order, the key selected names a stored object at least as new as every passing file |
| Warehouse.ProjectionCell | src/load_dim_location.py:58-89 | `$1:c` takes the file row's cell under `c`, or NULL |
| Warehouse.ForcedCopyIgnoresHistory | src/load_dim_location.py:85 | a forced copy appends the file's projected rows whatever the load history says; a bad file fails and changes nothing |
| Warehouse.UnforcedCopySkipsLoaded | src/load_dim_location.py:85 | without `FORCE` a second copy of the same file changes nothing |
| Warehouse.DimLoadSpec | src/load_dim_location.py:27-98 | a connection failure changes nothing; otherwise the table is truncated, then no file gives TypeError with the table empty, and a file leaves exactly its projected rows |
| Warehouse.DimLoadIdempotent | src/load_dim_location.py:39-89 | loading twice in a row leaves the table as loading once |
| Warehouse.DimLoadLoadsNewest | src/load_dim_location.py:27-98 | in the corrected order, a successful load leaves exactly the rows of the newest passing file; no passing file gives TypeError with an empty table |
| Warehouse.DimTable.Truncate | src/load_dim_location.py:43-44 | the rows and the load history are gone |
| Warehouse.DimTable.CopyInto | src/load_dim_location.py:58-89 | the table after the copy is what `CopyFile` says |
| Warehouse.LoadDimension | src/load_dim_location.py:27-98 | the statements leave the table and the failure as `DimLoad` says |
| LoadDimLocation.NamePatternMeaning | src/load_dim_location.py:33 | the filter admits a name exactly when it holds `locations` followed by any one character |
| LoadDimLocation.PatternAdmitsPlural | src/load_dim_location.py:33 | a name ending in `locations.parquet` passes the filter too |
| LoadDimLocation.LoadDimLocation | src/load_dim_location.py:27-98 | the load is the dimension load with the `%locations_%` filter and the eight location fields |
| LoadDimLocation.LoadDimLocationSpec | src/load_dim_location.py:27-98 | no admitted file gives TypeError with an empty table; in the corrected order, success leaves exactly the rows of the newest admitted file |
| LoadDimParameter.LoadDimParameter | src/load_dim_parameter.py:27-91 | the load is the dimension load with no filter and the five parameter fields |
| LoadDimParameter.LoadDimParameterSpec | src/load_dim_parameter.py:27-91 | nothing under the prefix gives TypeError with an empty table; in the corrected order, success leaves exactly the rows of the newest file of any name |
| LoadFactMeasurements.MillisToSeconds | src/load_fact_measurements.py:92 | `(ms / 1000)::INTEGER` is within half a second of the quotient, and ties round away from zero |
| LoadFactMeasurements.MillisToSecondsExact | src/load_fact_measurements.py:92 | whole seconds convert exactly, and the cast is symmetric about zero |
| LoadFactMeasurements.SourceRowsUpTo | src/load_fact_measurements.py:85-96 | the source rows convert the file rows in order; the first row that cannot be converted fails the statement |
| LoadFactMeasurements.SourceRowFields | src/load_fact_measurements.py:85-96 | each source column takes the file's own field, with sensor and parameter renamed, and NULL stays NULL |
| LoadFactMeasurements.MergeRowsSpec | src/load_fact_measurements.py:83-108 | the merge fails exactly when a target row matches two source rows; otherwise target rows keep their place and key, unmatched ones are unchanged, matched ones take a matching source value, and the unmatched source rows are appended |
| LoadFactMeasurements.DistinctKeysMatchOnce | src/load_fact_measurements.py:97-102 | with distinct source keys no target row is joined twice |
| LoadFactMeasurements.MergeIdempotent | src/load_fact_measurements.py:83-108 | merging the same rows with complete, distinct keys a second time changes nothing |
| LoadFactMeasurements.NullKeyInsertedAgain | src/load_fact_measurements.py:97-105 | a row with a NULL key part never matches, so each merge inserts it again |
| LoadFactMeasurements.NamePatternMeaning | src/load_fact_measurements.py:29 | the filter admits a name exactly when it holds `/measurements` followed by a character |
| LoadFactMeasurements.FactLoadKeepsRows | src/load_fact_measurements.py:38-40 | nothing is truncated: every existing row keeps its place and key, and only its value may change; a failure changes nothing |
| LoadFactMeasurements.FactLoadTwice | src/load_fact_measurements.py:23-125 | loading the same stage twice leaves the table as loading once, when the chosen file's keys are complete and distinct |
| LoadFactMeasurements.FactTable.MergeFile | src/load_fact_measurements.py:83-115 | a failing read, conversion or merge leaves the rows and raises; otherwise the rows are the merge's |
| LoadFactMeasurements.LoadFactMeasurements | src/load_fact_measurements.py:23-125 | the statements leave the table and the failure as `FactLoad` says |

## Left out

- Logging, `load_dotenv`, environment lookups and `print` are left out, except the
  frames the measurement transform prints. The API
  key, the bucket name and the warehouse connection are parameters; the connection
  is one outcome, either usable or failing with an error.
- `time.sleep` is left out; sleeps appear only as counts (`waits`). Generated
  timestamps (`datetime.now`, `strftime`) and the store's last-modified times are
  parameters.
- Network transport is left out. The API is a finite list of answers per URL, and
  pages past its end are empty. An endless run of full pages therefore cannot be
  expressed.
- JSON and parquet serialisation is left out. A document is a typed value; only
  `json.dumps` refusing a timestamp cell is modelled. Floats are integers.
- The per-file transform `transform_json_to_parquet` is a parameter of the location
  and parameter stages. `src/utils/transform_utils.py` does not define it, so the
  import at `src/transform_dim_location.py:18` raises ImportError. The parameter
  module imports it too, but loading it fails earlier, with NameError.
- TransformDimLocation.TransformStage models `main` as if the module could be
  imported. Loading it raises ImportError; that is the constant `ImportOutcome`, and
  `PipelineRunner.DailyStopsAtLocationTransform` follows it through the daily run.
- TransformDimLocation.LocationRunGating and TransformDimParameter.ParameterRunSpec
  take the per-file transform to read the store and never write it. The source
  hands it the client and the processed prefix, so a transform that wrote there
  would break "unchanged until the id list is written" and the frame over
  `processed/dim_parameter`.
- ExtractMeasurements.ExtractStage: a sensor-list document of raw pages or of
  location maps ends the stage with TypeError and fetches nothing. The source would
  iterate such a list and swallow each element's failure. Ids are rendered into the
  URL without JSON escaping.
- The pandas `astype` and the dtype coercions of `pd.merge` are left out.
  `sensor_to_location_map` keys are assumed integral.
- TransformUtils.TransformRecordsToDf: the `schema` argument is accepted and never
  applied, as in the source.
- TransformFactMeasurements.TransformStage: the frames are returned as `printed`
  rather than written to a terminal. The stage method tags per file (see Findings).
  `FactLoop` keeps the code as written.
- TransformFactMeasurements.ProcessFile is the corrected per-file step: it tags only
  the records of its own file. The code as written retags every record gathered so
  far; that is `FactStep`, with no method of its own.
- TransformFactMeasurements.SearchFromSpec: `\d` is ASCII digits only. Case folding
  covers ASCII letters and the long s.
- The load scripts' preview `SELECT` and their printing of `LIST` are left out. So
  is the COPY statement that `load_fact_measurements` builds and never executes.
- Warehouse.Newest, Warehouse.NewestKey, Warehouse.LoadDimension,
  LoadDimLocation.LoadDimLocation, LoadDimParameter.LoadDimParameter and
  LoadFactMeasurements.LoadFactMeasurements choose the staged file by the instant
  `last_modified` denotes. As written, the SQL sorts that column as text (see
  Findings); `Warehouse.TextLatest` is that order.
- Warehouse behaviour is assumed, not derived:
  - `::INTEGER` rounds half away from zero.
  - `MERGE` fails when a target row matches two source rows.
  - `TRUNCATE` clears the load history.
  - `LIST` and `TRUNCATE` never fail.
  - The stage's bucket is the store's bucket.
- Concurrency between stages, and the Airflow DAGs, are left out.
- `load_dim_sensor` and the other extract and transform scripts are not part of
  this model.
- TransformDimParameter.TransformStage models `main` as if the module could be
  imported. Loading it raises NameError; that is the constant `ImportOutcome`.

## Findings

| source | as written | input that shows it | evidently intended | confidence | as-written member | corrected member |
|---|---|---|---|---|---|---|
| src/load_dim_location.py:34 | `ORDER BY "last_modified" DESC` sorts the text `LIST` shows (`Fri, 22 Aug 2025 17:48:40 GMT`), so the weekday name decides first; the same holds at src/load_dim_parameter.py:33 and src/load_fact_measurements.py:30 | two staged files modified at `Fri, 22 Aug 2025 17:48:40 GMT` and `Wed, 20 Aug 2025 17:48:40 GMT`: the query picks the Wednesday file, two days older | load the most recently modified file, ordering by the instant the text denotes | not executed | Warehouse.TextOrderPicksOlder | Warehouse.NewestSpec |
| src/transform_fact_measurements.py:106-107 | after each file, every record accumulated so far is tagged with that file's sensor id | the two fixed files of sensors 3019 and 3018, one reading each: the reading from 3019 ends up tagged 3018 | tag only the records each file brought, so each record carries its own file's sensor id | not executed | TransformFactMeasurements.RelabelExample | TransformFactMeasurements.FactLoopPerFileTags |
