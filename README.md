# Air-quality backend — a verified Dafny model

This project models the rule logic of an air-quality backend written in Python.
The backend pulls pollutant readings from two providers (AirNow and OpenAQ),
normalises them into one measurement shape, deduplicates them, falls back to
simulated data when no real data arrives, and keeps a run-status record. A
scheduler runs the extraction every 30 minutes and sweeps old snapshot files
once a day. HTTP routes validate parameters and summarise OpenAQ data. A
NASA TEMPO satellite helper searches, filters and exports granules, and
another route trims outliers from a heat-map file. A progress tracker estimates
the remaining time of a long job.

Everything the Python code gets from the outside world is an input of the model:

- provider responses and HTTP results are sequences of records or `Result` values;
- the clock is a `now` parameter, and each parsed provider record carries the clock reading taken while it was parsed;
- the host's offset from UTC is a parameter of the cleanup sweep;
- random draws are a sequence of draw records;
- the snapshot directory is a map from file name to modification time.

The model follows the form of the source:

- pure lookups and conditionals are functions with lemmas;
- list-building loops are methods with loop invariants, proved equal to a specification function;
- objects whose fields change in place are classes: the run status, the API client, the scheduler and the progress tracker.

Files, one module each:

| file | module | source |
|---|---|---|
| `wrappers.dfy` | `Wrappers` | `Option` and `Result` |
| `text.dfy` | `Text` | ASCII `lower`/`upper`/`strip`, `in` on strings, `split`, `int()` |
| `sequences.dfy` | `Sequences` | subsequences, `Take`, a generic `Filter` |
| `measurements.dfy` | `Measurements` | the measurement record, built from its uses in the client |
| `mock_data_generator.dfy` | `MockDataGenerator` | `src/mock_data_generator.py` |
| `air_quality_client.dfy` | `AirQualityClient` | `src/air_quality_client.py` |
| `scheduler.dfy` | `Scheduler` | `src/scheduler.py` |
| `openaq_client.dfy` | `OpenAQClient` | `src/openaq_client.py` |
| `air_quality_routes.dfy` | `AirQualityRoutes` | `src/routes/air_quality.py` |
| `tempo_routes.dfy` | `TempoRoutes` | `src/routes/tempo.py` |
| `tempo.dfy` | `Tempo` | `src/tempo.py` |
| `progress_tracker.dfy` | `ProgressTrackerModel` | `ProgressTracker` in `src/tempoNachoHCHO.py` |

## Model

| member | source | states |
|---|---|---|
| Text.StripLower | src/air_quality_client.py:68 | lowercasing and stripping commute, so the order in which a name is normalised does not matter |
| Text.JoinSplit | src/tempo.py:351 | joining the fields of `split(sep)` with `sep` gives back the original string |
| Text.ParseIntRejects | src/tempo.py:132 | `int()` of unpadded text whose first character is neither a sign nor a digit fails |
| Text.ParseIntDigits | src/tempo.py:132 | `int()` of a non-empty digit string is its decimal value |
| Sequences.FilterProperties | src/tempo.py:127-137 | a filter keeps exactly the elements that pass, in their original order |
| MockDataGenerator.BreakpointTablesWellFormed | src/mock_data_generator.py:54-61 | every breakpoint table has six entries, starts at 0 and strictly increases |
| MockDataGenerator.FindBracket | src/mock_data_generator.py:79-80 | the bracket found is the first `i` with concentration ≤ bp[i+1]; no bracket means the concentration exceeds every breakpoint after the first |
| MockDataGenerator.Truncate | src/mock_data_generator.py:85 | Python's `int()` on a real rounds toward zero |
| MockDataGenerator.CalculateAqi | src/mock_data_generator.py:51-89 | a pollutant without a table gives (50, GOOD); a concentration above the last breakpoint gives (300, HAZARDOUS); a result from inside the loop is never HAZARDOUS |
| MockDataGenerator.InterpolationWithinLevels | src/mock_data_generator.py:85 | the linear interpolation of a concentration inside [c_lo, c_hi] lies in [aqi_lo, aqi_hi] |
| MockDataGenerator.InterpolateWithinBracket | src/mock_data_generator.py:79-86 | for a non-negative concentration in bracket `i`, the truncated AQI lies in [aqi_levels[i], aqi_levels[i+1]] |
| MockDataGenerator.CalculateAqiWithinBracket | src/mock_data_generator.py:76-86 | for a tabled pollutant and a concentration in range, the AQI lies within its bracket's levels and the category is that bracket's |
| MockDataGenerator.RoundHundredths | src/mock_data_generator.py:125 | `round(c, 2)` is a whole number of hundredths within 0.005 of `c` |
| MockDataGenerator.RoundHundredthsKeepsHundredths | src/mock_data_generator.py:125 | a value already in hundredths is not changed by rounding |
| MockDataGenerator.RoundHundredthsWithin | src/mock_data_generator.py:107-125 | rounding keeps a value inside any interval whose ends are whole hundredths |
| MockDataGenerator.RangesInHundredths | src/mock_data_generator.py:42-49 | every concentration range has ends in whole hundredths |
| MockDataGenerator.GenerateMeasurements | src/mock_data_generator.py:91-144 | the loop returns the measurements of the draws whose pollutant has a range, in order |
| MockDataGenerator.GenerateOneWellFormed | src/mock_data_generator.py:97-139 | a generated item has a ranged pollutant with its unit; its value is an in-range concentration rounded to hundredths, and its AQI and category are `_calculate_aqi` of that unrounded concentration; it has a city's name and state, coordinates within ±0.1° of that city, an OPENAQ or AIRNOW source and a site id prefixed by that source |
| MockDataGenerator.GeneratedValueFromDraw | src/mock_data_generator.py:106-128 | for a ranged pollutant the item carries the drawn pollutant and its range's unit, the value `round(concentration, 2)` inside the range, and the AQI and category of the unrounded concentration |
| MockDataGenerator.GeneratedPlaceFromDraw | src/mock_data_generator.py:97-139 | the item lies within ±0.1° of the drawn city and carries its name and state, country "US", and a site id that starts with its source's value |
| MockDataGenerator.CategoryIsOfTheUnroundedDraw | src/mock_data_generator.py:107-125 | ozone drawn at 54.004 is stored as 54.0 with category MODERATE, while 54.0 itself would be GOOD |
| MockDataGenerator.GeneratedWellFormed | src/mock_data_generator.py:95-144 | at most `count` items are produced and every one is well formed, its AQI and category being those of the unrounded draw behind its stored value |
| MockDataGenerator.GeneratedSkipsUnrangedPollutants | src/mock_data_generator.py:102-103 | no generated item is HCHO, the pollutant without a range |
| MockDataGenerator.PartitionIsSplit | src/mock_data_generator.py:157-161 | the two parts add up to the whole, as a multiset, and every OpenAQ-part item has source OPENAQ |
| MockDataGenerator.PartitionBySource | src/mock_data_generator.py:157-161 | the loop splits the list into its OpenAQ and AirNow parts, in order |
| MockDataGenerator.MockFiles | src/mock_data_generator.py:163-195 | exactly one file is planned for each non-empty part and none for an empty one, no two for the same source, each named after its source and the timestamp, with count equal to the part's length |
| MockDataGenerator.SaveMockData | src/mock_data_generator.py:146-200 | the saved parts partition the 200 generated items and the files follow the plan |
| AirQualityClient.ConvertPollutantName | src/air_quality_client.py:66-87 | a name maps to pollutant `q` iff its stripped lowercase form is one of `q`'s synonyms; every other name maps to None |
| AirQualityClient.NoNameOutsideSynonyms | src/air_quality_client.py:71-87 | a key outside the 13-entry table is no pollutant's synonym |
| AirQualityClient.SynonymsAgreeWithNames | src/air_quality_client.py:71-85 | every table key names exactly one pollutant, the one it maps to |
| AirQualityClient.ConvertDependsOnNormalisedName | src/air_quality_client.py:68 | two names with the same stripped lowercase form convert to the same pollutant |
| AirQualityClient.ConvertIgnoresCase | src/air_quality_client.py:68 | upper-casing a name does not change its conversion |
| AirQualityClient.DetermineAqiCategory | src/air_quality_client.py:89-102 | the category rank exceeds `j` iff the AQI exceeds the j-th cut-off of 50/100/150/200/300; HAZARDOUS iff AQI > 300 |
| AirQualityClient.AqiCategoryMonotone | src/air_quality_client.py:89-102 | a larger AQI never gets a lower category |
| AirQualityClient.MapAirNowObservation | src/air_quality_client.py:154-200 | an observation is kept iff its ParameterName converts and its date parses; a kept one has source AIRNOW and country "US", and both `aqi` and `category` are set iff AQI > 0 |
| AirQualityClient.MapAllProperties | src/air_quality_client.py:154-200 | the mapped list is no longer than the input and every item is an AIRNOW, "US" measurement whose `aqi` and `category` are both set or both unset |
| AirQualityClient.GetAirNowCurrentObservations | src/air_quality_client.py:104-207 | without a key the result is empty; a failed request yields nothing; otherwise the observations are mapped in order |
| AirQualityClient.MapObservations | src/air_quality_client.py:154-200 | the loop keeps the mapped observations, in order, skipping those that map to nothing |
| AirQualityClient.ResolvedPoint | src/air_quality_client.py:350-371 | coordinates come from the non-empty `coordinates`, else from `location.coordinates`, else from top-level latitude/longitude; a text `location` with no `coordinates` fails |
| AirQualityClient.ParseOpenAQMeasurement | src/air_quality_client.py:333-438 | a record parses iff its parameter converts, it has a value and a resolved point, and that point is not (0, 0); the result is an OPENAQ "US" measurement at that point with no AQI |
| AirQualityClient.TextLocationBlocksTopLevelPoint | src/air_quality_client.py:351-358 | a record with a text `location` and no `coordinates` is dropped even when it has top-level latitude/longitude |
| AirQualityClient.ParameterIdsMatchPolledParameters | src/air_quality_client.py:320-331 | the id lookup gives each polled parameter the id the loop sends, and knows a name iff its lowercase form is one of the polled parameters |
| AirQualityClient.ParameterIdIgnoresCase | src/air_quality_client.py:331 | the id lookup ignores letter case |
| AirQualityClient.ParseResults | src/air_quality_client.py:292-300 | the loop keeps the parsed records of one response, in order |
| AirQualityClient.PollFromStep | src/air_quality_client.py:271-280 | a 401 ends the walk; any other response contributes its own output and the walk goes on |
| AirQualityClient.GetOpenAQMeasurements | src/air_quality_client.py:209-318 | the loop's output is the polling specification: nothing without a key, otherwise parsed 200 responses up to the first 401 |
| AirQualityClient.PollStopsAt401 | src/air_quality_client.py:271-273 | responses after a 401 cannot change the output |
| AirQualityClient.PollSkipsFailedParameter | src/air_quality_client.py:274-280 | a failed request, a 429 or another non-200 status for one parameter gives the same output as an empty 200 answer: that parameter is skipped, the rest still run |
| AirQualityClient.SameTail | src/air_quality_client.py:256-311 | the walk from parameter `i` depends only on the responses from `i` on |
| AirQualityClient.ParseAllAccepted | src/air_quality_client.py:292-300 | every measurement parsed from a response is an accepted OPENAQ record: its point is not (0, 0) |
| AirQualityClient.PollFromAccepted | src/air_quality_client.py:256-311 | every measurement the walk returns is accepted |
| AirQualityClient.KeySetAppend | src/air_quality_client.py:523-526 | appending a measurement adds exactly its key to the set of keys |
| AirQualityClient.DedupProperties | src/air_quality_client.py:519-528 | the deduplicated list has pairwise-distinct keys, covers every input key and is a subsequence of the input |
| AirQualityClient.DedupOfDistinct | src/air_quality_client.py:519-528 | a list whose keys are already distinct is unchanged |
| AirQualityClient.DedupIdempotent | src/air_quality_client.py:519-528 | deduplicating twice equals deduplicating once |
| AirQualityClient.DedupKeepsFirstOccurrence | src/air_quality_client.py:522-526 | the first occurrence of every key survives |
| AirQualityClient.DeduplicateOpenAQ | src/air_quality_client.py:519-528 | the loop with its `seen` set computes the deduplication |
| AirQualityClient.DedupOfTwo | src/air_quality_client.py:519-528 | of two measurements, the second is dropped iff the keys are equal |
| AirQualityClient.UndatedKeyedAtReading | src/air_quality_client.py:378-380 | an undated record is timestamped, and so keyed, with the clock reading taken while it is parsed |
| AirQualityClient.UndatedRepeatKeptUnlessSameReading | src/air_quality_client.py:519-528 | an undated record returned twice, each copy stamped with its own clock reading (line 380), survives deduplication twice iff the two readings differ |
| AirQualityClient.DatedKeyedAtTime | src/air_quality_client.py:383-395 | a record whose date parses is timestamped, and so keyed, with that parsed `datetime` |
| AirQualityClient.DatedRepeatKeptUnlessSameTime | src/air_quality_client.py:519-528 | a record returned twice with two parsed dates survives deduplication twice iff the two `datetime`s differ, offset included |
| AirQualityClient.SameInstantTwoOffsetsKeptTwice | src/air_quality_client.py:388-389 | one instant written as 10:00-06:00 and as 16:00+00:00 gives two keys, so both copies survive |
| AirQualityClient.ReadingsWithinOneSecondKeptApart | src/air_quality_client.py:380 | two undated copies whose `utcnow()` readings are one microsecond apart both survive |
| AirQualityClient.ActiveSources | src/air_quality_client.py:563-571 | a source is listed iff its list is non-empty, in the order airnow, openaq, mock |
| AirQualityClient.ExtractionStatus.constructor | src/air_quality_client.py:58 | a fresh status has zero counters and no times, sources or error |
| AirQualityClient.ExtractionStatus.RecordRun | src/air_quality_client.py:551-571 | some data counts a success and clears the error; no data counts a failure with "No data extracted from any source"; the run time and the active sources are recorded |
| AirQualityClient.ExtractionStatus.RecordFailure | src/air_quality_client.py:578-581 | an exception counts one failure and stores its message; nothing else changes |
| AirQualityClient.ExtractionStatus.RecordExtraction | src/air_quality_client.py:440-583 | the run is counted, then recorded as the fallback's failure or by `RecordRun`; the new status is `AfterExtraction` of the old one and stays consistent |
| AirQualityClient.AfterExtractionProperties | src/air_quality_client.py:440-583 | one extraction adds one run, counted as exactly one of success or failure; the counters stay consistent; the next-run time is untouched; a fallback exception keeps the old stamp and sources and stores its message; otherwise success iff anything was extracted, no data stores "No data extracted from any source", and the run is stamped with its active sources |
| AirQualityClient.AirQualityApiClient.constructor | src/air_quality_client.py:31-58 | the client keeps its two keys, has an open HTTP client and a fresh status |
| AirQualityClient.AirQualityApiClient.Close | src/air_quality_client.py:63-64 | leaving the context closes the HTTP client |
| AirQualityClient.AirQualityApiClient.CollectAirNow | src/air_quality_client.py:471-475 | the AirNow list is the successful regions' lists joined in order; a failed region adds nothing |
| AirQualityClient.AirQualityApiClient.CollectOpenAQ | src/air_quality_client.py:482-517 | the OpenAQ list is the general run's measurements followed by each city run's, in order |
| AirQualityClient.AirQualityApiClient.ExtractAllData | src/air_quality_client.py:440-583 | AirNow data is the four regions' data and is never deduplicated; OpenAQ data is the deduplicated general and city runs; both are empty through a closed client; mock data appears only when both real lists are empty and the fallback does not raise; the whole new status is `AfterExtraction` of the old one |
| AirQualityClient.SaveDataToJson | src/air_quality_client.py:585-612 | exactly one file per non-empty source and none for an empty one (as many files as non-empty lists, no source twice), each named after its source and the timestamp, with count equal to its length |
| Scheduler.NextDailyRun | src/scheduler.py:128-134 | the cleanup's next run is the first 02:00 UTC at or after `now`, within one day |
| Scheduler.ListingStep | src/scheduler.py:169-176 | listing one more job extends the listed ids by that job's id |
| Scheduler.AirQualityScheduler.constructor | src/scheduler.py:22-45 | a new scheduler is stopped with no jobs |
| Scheduler.AirQualityScheduler.StartScheduler | src/scheduler.py:110-146 | starting a running scheduler changes nothing; otherwise it registers exactly the extraction job (30 minutes, first run after 10 s) and the daily 02:00 cleanup job, and is running |
| Scheduler.AirQualityScheduler.StopScheduler | src/scheduler.py:148-161 | afterwards the scheduler is stopped and the job table is as before |
| Scheduler.AirQualityScheduler.GetJobStatus | src/scheduler.py:163-182 | stopped gives "stopped" with no jobs; running gives "running" and one entry per registered job |
| Scheduler.AirQualityScheduler.RescheduleExtraction | src/scheduler.py:189-213 | when stopped nothing changes; when running the extraction job gets the new interval, with no range check, and the cleanup job is untouched |
| Scheduler.StartStopStart | src/scheduler.py:110-161 | starting after a stop registers both jobs again, the extraction job first running 10 s after the restart |
| Scheduler.LocalTimeComparisonExpiresYoungFile | src/scheduler.py:88-97 | comparing a local mtime against a UTC cutoff deletes a file that is less than 7 days old when the server is 5 hours behind UTC |
| Scheduler.ExpiredIsAsWrittenAtUtc | src/scheduler.py:88-97 | on a UTC server the two comparisons agree: a file expires iff it is more than 7 days old |
| Scheduler.CleanupOldData | src/scheduler.py:75-108 | a missing directory deletes nothing; otherwise exactly the removable `*.json` files whose local modification time, for the host's UTC offset, is before the UTC cutoff are removed and counted |
| Scheduler.CleanupLeavesNoExpiredFile | src/scheduler.py:91-103 | after the sweep no deletable file is left and every other file is untouched |
| Scheduler.CleanupAtUtcDeletesOldFiles | src/scheduler.py:88-103 | on a host whose local time is UTC the sweep deletes exactly the removable `*.json` files more than 7 days old |
| Scheduler.CleanupBehindUtcDeletesYoungFile | src/scheduler.py:88-103 | on a host 5 hours behind UTC the sweep deletes a file modified less than 7 days ago |
| Scheduler.ExtractAirQualityData | src/scheduler.py:47-73 | the job returns what `extract_all_data` returned (real data only if the client was open when it started) and saves exactly `save_data_to_json` of those lists; the whole new status is `AfterJob` of the old one; the shared client is closed afterwards |
| Scheduler.FinishJob | src/scheduler.py:64-73 | after the save the next extraction is now + 30 minutes; a job exception instead becomes the last error; nothing else changes |
| Scheduler.AfterJobProperties | src/scheduler.py:47-73 | a job counts one run with the extraction's counters, stamp and sources; it keeps the counters consistent; without an exception it schedules the next run in 30 minutes and keeps the extraction's error, and with one it keeps the old next-run time and stores the exception's message |
| Scheduler.SecondScheduledRunAsWritten | src/scheduler.py:53 | a second run through the closed client gets no AirNow and no OpenAQ data, so it falls back to mock data |
| Scheduler.ExtractAirQualityDataKeepingClient | src/scheduler.py:47-73 | the same extraction, saved files and new status `AfterJob` as ExtractAirQualityData, with the shared client left open |
| Scheduler.SecondScheduledRun | src/scheduler.py:47-73 | with the client left open, a second run fetches real data again |
| OpenAQClient.ParameterKeysAre | src/openaq_client.py:22-29 | the parameter table's keys are pm10, pm25, no2, co2, so2, o3 |
| OpenAQClient.ParameterNamesDistinct | src/openaq_client.py:22-29 | no parameter name appears twice |
| OpenAQClient.LookupParameter | src/openaq_client.py:22-29 | a name has an id iff it is a key, and then the id is the one the table pairs with it |
| OpenAQClient.LookupFrom | src/openaq_client.py:22-29 | the search from position `i` finds a name iff it occurs at or after `i`, with its paired id |
| OpenAQClient.ResolveApiKey | src/openaq_client.py:39-41 | a truthy argument wins, else a truthy environment value; with neither, the constructor fails with the ValueError message |
| OpenAQClient.ApiLimit | src/openaq_client.py:78-79 | without filters the limit is `limit` capped at 10000; with a state or city filter it is `10*limit`, or exactly 10000 when that is larger |
| OpenAQClient.CountriesId | src/openaq_client.py:83 | 237 is sent iff the uppercased country is US or USA |
| OpenAQClient.CountriesIdIgnoresCase | src/openaq_client.py:83 | the country check ignores case |
| OpenAQClient.LocationsParams | src/openaq_client.py:374-388 | the limit is clamped to 1000, page and extra parameters pass through, and `countries_id` = 237 only for a truthy US/USA country |
| OpenAQClient.KeptAppend | src/openaq_client.py:104-119 | filtering a concatenation filters each part |
| OpenAQClient.KeptProperties | src/openaq_client.py:104-119 | the unbounded filter keeps exactly the results that pass, in their original order |
| OpenAQClient.FilteredResultsProperties | src/openaq_client.py:104-128 | every kept result passes, in order; at most `limit` are kept; below the cap every passing result is kept |
| OpenAQClient.FilteredAtCap | src/openaq_client.py:121-123 | once the cap is reached the loop stops: the result is the prefix kept so far |
| OpenAQClient.FilterByLocality | src/openaq_client.py:104-123 | the loop with its early `break` computes the capped filter |
| OpenAQClient.FilteredData | src/openaq_client.py:125-129 | the filtered response holds the capped results, `found` equals their number, `filtered` is set, and the note is added for the single-parameter endpoint |
| OpenAQClient.GetLatestMeasurements | src/openaq_client.py:51-131 | the query uses the limit and country rules; an error passes through; without filters the response is unchanged, with filters it is the filtered response |
| OpenAQClient.GetAllParametersLatest | src/openaq_client.py:133-211 | there is one entry per parameter key; an error on one parameter gives an error entry for it alone; the others are filtered as for one parameter |
| OpenAQClient.MatchLocations | src/openaq_client.py:243-251 | the loop computes the matching locations |
| OpenAQClient.MatchingProperties | src/openaq_client.py:243-251 | a location is kept iff the lowercased search text occurs in its lowercased name or locality, with None as ""; order is preserved |
| OpenAQClient.FirstMatchIsEarliest | src/openaq_client.py:265-266 | the location used is the earliest matching one |
| OpenAQClient.MatchingIgnoresSearchCase | src/openaq_client.py:247-250 | the case of the search text does not matter |
| OpenAQClient.EmptySearchMatchesAll | src/openaq_client.py:247-251 | an empty search text matches every location |
| OpenAQClient.Summaries | src/openaq_client.py:295-342 | each reading is summarised by its value and time, in order |
| OpenAQClient.FetchParameter | src/openaq_client.py:295-342 | an error gives an unavailable entry with the error; an empty list gives "no data"; otherwise the latest reading, its unit or "N/A", the total and at most 10 readings |
| OpenAQClient.CollectReports | src/openaq_client.py:344-350 | there is one report per parameter key, each fetched independently |
| OpenAQClient.OtherMatches | src/openaq_client.py:281-290 | present iff there is more than one match; then matches 2 to 6, so at most 5 |
| OpenAQClient.SearchLocation | src/openaq_client.py:213-352 | a failed location request fails the search; no match gives `found: False` with the number of locations searched; otherwise the first match, the match count, the other matches and one report per parameter |
| OpenAQClient.SearchOutcomeProperties | src/openaq_client.py:253-290 | "not found" means no location matches; every other match listed is a matching location and there are at most 5 |
| AirQualityRoutes.ServerError | src/routes/air_quality.py:52-53 | a caught exception becomes status 500 with its message after the route's prefix |
| AirQualityRoutes.ValidateParameterName | src/routes/air_quality.py:34-43 | accepted iff the lowercase name is a parameter key, giving its id; otherwise 400 with the list of keys |
| AirQualityRoutes.ValidateParameterNameIgnoresCase | src/routes/air_quality.py:34 | validation ignores case |
| AirQualityRoutes.CarbonMonoxideNameRejected | src/routes/air_quality.py:17 | "co", which the parameter description advertises, is rejected, while "CO2" is accepted with id 8 |
| AirQualityRoutes.LatestRoute | src/routes/air_quality.py:13-53 | 400 iff the parameter is unknown; otherwise the client's latest data for "US", or a 500 carrying the client's error |
| AirQualityRoutes.LocationFilters | src/routes/air_quality.py:87-91 | `state` and `city` are passed iff truthy, unchanged |
| AirQualityRoutes.LocationsRoute | src/routes/air_quality.py:77-100 | the query is for the US with the limit clamped to 1000 and the filters as extra parameters; an error becomes a 500 |
| AirQualityRoutes.ValidIdsAreParameterIds | src/routes/air_quality.py:202 | the accepted ids {1, 2, 7, 8, 9, 10} are exactly the client's parameter ids |
| AirQualityRoutes.ByParameterRoute | src/routes/air_quality.py:202-222 | 400 iff the id is not accepted; otherwise the client's data, or a 500 carrying its error |
| AirQualityRoutes.LocationIds | src/routes/air_quality.py:141 | the set holds exactly the truthy `location_id` values of the results |
| AirQualityRoutes.SummaryOf | src/routes/air_quality.py:131-142 | an error entry gives its error with count 0; otherwise count is the number of results and locations the number of distinct truthy ids |
| AirQualityRoutes.LocationIdsAtMostResults | src/routes/air_quality.py:141 | there are never more distinct ids than results |
| AirQualityRoutes.DistinctIdsAllCounted | src/routes/air_quality.py:141 | when all ids are truthy and distinct, locations equals count |
| AirQualityRoutes.SummaryLocationsBounded | src/routes/air_quality.py:138-142 | in every summary, locations ≤ count |
| AirQualityRoutes.Summarize | src/routes/air_quality.py:131-142 | the loop summarises every parameter entry and nothing else |
| AirQualityRoutes.SummaryRoute | src/routes/air_quality.py:103-146 | the summary echoes the query and has one summary per parameter key, of that parameter's filtered entry |
| AirQualityRoutes.Coverage | src/routes/air_quality.py:427-432 | a measurement under an unknown parameter name raises KeyError; otherwise each key counts the error-free locations where it is available |
| AirQualityRoutes.FirstUnknownOfPrefix | src/routes/air_quality.py:428-432 | once a KeyError occurs in a prefix, later locations do not change it |
| AirQualityRoutes.UnknownInOfPrefix | src/routes/air_quality.py:430-432 | the same for the measurements of one location |
| AirQualityRoutes.LocationStep | src/routes/air_quality.py:428-432 | one more location adds its availability unless it has an error |
| AirQualityRoutes.MeasurementStep | src/routes/air_quality.py:430-432 | one more measurement adds 1 to its own parameter iff it is available |
| AirQualityRoutes.CountLocation | src/routes/air_quality.py:430-432 | the inner loop adds a location's availabilities or raises KeyError on an unknown parameter |
| AirQualityRoutes.CountCoverage | src/routes/air_quality.py:427-432 | the nested loops compute the coverage specification |
| AirQualityRoutes.AvailableAtMostOnce | src/routes/air_quality.py:430-432 | a location's measurement dictionary adds at most 1 to each parameter, exactly when that parameter is available |
| AirQualityRoutes.CoverageAtMostLocations | src/routes/air_quality.py:427-432 | each coverage count is at most the number of error-free locations |
| AirQualityRoutes.CoveragePercentage | src/routes/air_quality.py:437 | "0%" iff there are no successful locations; otherwise a percentage within [0, 100] when count ≤ successful |
| TempoRoutes.HeatmapFile | src/routes/tempo.py:9-85 | each handler reads a `*_heatmap.json` file |
| TempoRoutes.HeatmapFilesDistinct | src/routes/tempo.py:9-85 | the five handlers read five different files |
| TempoRoutes.BoxFilter | src/routes/tempo.py:14-17 | the loop keeps the in-box points |
| TempoRoutes.InBoxPointsProperties | src/routes/tempo.py:16-17 | a point is kept iff lat_min ≤ lat ≤ lat_max and lon_min ≤ lon ≤ lon_max, in file order |
| TempoRoutes.InsertByValue | src/routes/tempo.py:19-20 | inserting adds exactly one point |
| TempoRoutes.InsertByValueSorted | src/routes/tempo.py:19-20 | inserting into a sorted list keeps it sorted |
| TempoRoutes.SortByValue | src/routes/tempo.py:19-20 | sorting is a permutation |
| TempoRoutes.SortByValueSorted | src/routes/tempo.py:19-20 | the sorted list is ordered by value |
| TempoRoutes.SortedEnds | src/routes/tempo.py:19-20 | the first sorted point has the least value and the last the greatest |
| TempoRoutes.TrimCount | src/routes/tempo.py:18-20 | k = floor(0.05 × the number of points in the whole file) |
| TempoRoutes.WithinValuesProperties | src/routes/tempo.py:21 | the comprehension keeps exactly the points whose value lies in [lower, upper], in order |
| TempoRoutes.WithinValuesKeepsAll | src/routes/tempo.py:21 | when every value lies in the bounds, nothing is dropped |
| TempoRoutes.TrimAsWritten | src/routes/tempo.py:18-21 | IndexError iff the in-box list has at most k points; otherwise the points between sorted[k] and sorted[-k] |
| TempoRoutes.ZeroTrimKeepsOnlyMinimum | src/routes/tempo.py:19-21 | as written, with k = 0 only minimum-valued points survive |
| TempoRoutes.TrimAsWrittenDropsLargerOfTwo | src/routes/tempo.py:18-21 | as written, two points in a two-point file come back as one |
| TempoRoutes.UpperBoundAsWrittenOneShort | src/routes/tempo.py:19-21 | for k ≥ 1 the written upper bound `sorted[-k]` is the (k−1)-th largest value, so only k−1 points are cut from the top |
| TempoRoutes.Trim | src/routes/tempo.py:18-21 | the same trim with the upper bound taken k places from the end |
| TempoRoutes.ZeroTrimKeepsEverything | src/routes/tempo.py:18-21 | with k = 0 the corrected trim keeps every in-box point |
| TempoRoutes.TrimProperties | src/routes/tempo.py:18-21 | the output is a subsequence of the in-box points holding exactly those with values between the bounds |
| TempoRoutes.DataRouteAsWritten | src/routes/tempo.py:9-22 | a missing file fails; otherwise the as-written trim of the file's in-box points |
| TempoRoutes.DataRoute | src/routes/tempo.py:9-22 | the same handler with the corrected trim |
| TempoRoutes.DataRouteOutputInBox | src/routes/tempo.py:14-21 | every returned point is a point of the file inside the box |
| Tempo.SearchQueryFor | src/tempo.py:104-123 | a product outside {O3, NO2, SO2, HCHO} is a ValueError; otherwise the query spans the whole day at the given point |
| Tempo.FilterDaytime | src/tempo.py:127-138 | the loop keeps the daytime granules |
| Tempo.DaytimeProperties | src/tempo.py:127-138 | a granule is kept iff its hour is in 12..22 or cannot be parsed, in original order |
| Tempo.SearchData | src/tempo.py:89-161 | an unknown product raises; a failed search gives []; with `daytime_only` and results, the daytime filter; otherwise the results unchanged |
| Tempo.LinkFileName | src/tempo.py:130 | the file name is the part of the link after its last '/' |
| Tempo.TempoGranuleKeptAsWritten | src/tempo.py:130-137 | every file name starting "TEMPO_" has no parsable hour after its first 'T', so it is kept |
| Tempo.GranuleHourAfterLastT | src/tempo.py:130-132 | reading the time after the last 'T' gives the hour of the granule's own timestamp |
| Tempo.TempoGranuleHours | src/tempo.py:130-132 | for a TEMPO name, the first-'T' reading finds no hour while the last-'T' reading finds the timestamp's hour |
| Tempo.TwoDigitHour | src/tempo.py:132 | `int()` of two digits is their decimal value |
| Tempo.HourOfNightTime | src/tempo.py:132 | the hour of "031500" is 3 |
| Tempo.NightGranule | src/tempo.py:127-137 | a 03:15 UTC granule is kept as written, but its hour is 3 and the corrected filter drops it |
| Tempo.Below | src/tempo.py:186 | only indices below the number of results survive, in their order |
| Tempo.SelectIndices | src/tempo.py:186 | one result per surviving index, in the given order, with duplicates and Python's negative indexing; an index below −n raises IndexError |
| Tempo.DownloadSelection | src/tempo.py:175-190 | no results give []; no or empty indices select everything; otherwise the indexed selection |
| Tempo.AllIndices | src/tempo.py:186 | the indices 0..n−1 in order |
| Tempo.SelectAllIndices | src/tempo.py:185-190 | selecting every index gives all results |
| Tempo.BelowAll | src/tempo.py:186 | indices that are all in range are all kept |
| Tempo.SelectSkipsLargeIndex | src/tempo.py:186 | an index at or beyond the end is ignored |
| Tempo.TitleTimestampAsWritten | src/tempo.py:350-352 | the 4th '_'-field of the file name when it has more than 3, else "Unknown" |
| Tempo.TitleTimestamp | src/tempo.py:350-352 | the 5th field when there are more than 4, else "Unknown" |
| Tempo.TempoTitleFields | src/tempo.py:350-352 | for a TEMPO file name the as-written title shows the version while the corrected title shows the timestamp |
| Tempo.NightGranuleTitle | src/tempo.py:350-352 | for a concrete granule the as-written title is "V03" and the corrected one "20240801T031500Z" |
| Tempo.Repeat | src/tempo.py:376 | `np.repeat` gives len(xs)·times values |
| Tempo.Tile | src/tempo.py:377 | `np.tile` gives len(xs)·times values |
| Tempo.RepeatAt | src/tempo.py:376 | position q·times + m of the repeat holds xs[q] |
| Tempo.TileAt | src/tempo.py:377 | position q·len(xs) + m of the tile holds xs[m] |
| Tempo.ExportToCsv | src/tempo.py:362-400 | the frame builds iff the coordinate lengths fit the grid; it has rows·cols rows, row k carrying the k-th flattened values and the units |
| Tempo.ExportRowsAreCells | src/tempo.py:371-387 | row q·cols + m has latitude lat[q] and longitude lon[m] |
| ProgressTrackerModel.SumAppend | src/tempoNachoHCHO.py:41 | appending adds to the sum |
| ProgressTrackerModel.NextWindow | src/tempoNachoHCHO.py:40-44 | the window grows to at most 10, dropping the oldest when full, and afterwards sums to the elapsed time |
| ProgressTrackerModel.RemainingTime | src/tempoNachoHCHO.py:47-48 | the estimate is non-negative for a non-negative rate and zero when no steps remain |
| ProgressTrackerModel.FloorDiv | src/tempoNachoHCHO.py:59 | `//` is floor division |
| ProgressTrackerModel.Repeat | src/tempoNachoHCHO.py:60 | a string times n is n copies, empty for n ≤ 0 |
| ProgressTrackerModel.FullCell | src/tempoNachoHCHO.py:59-60 | cell k is below the filled length iff (k+1)·total ≤ 20·step |
| ProgressTrackerModel.BarShape | src/tempoNachoHCHO.py:58-60 | while step ≤ total the bar is exactly 20 cells, and cell k is full iff (k+1)·total ≤ 20·step |
| ProgressTrackerModel.ProgressTracker.constructor | src/tempoNachoHCHO.py:20-25 | a new tracker is at step 0 with an empty window |
| ProgressTrackerModel.ProgressTracker.Update | src/tempoNachoHCHO.py:27-68 | the step goes up by one; the window is the next window; total 0 is a ZeroDivisionError; otherwise the bar, percentage, elapsed time, average, remaining time and completion flag |
| ProgressTrackerModel.WindowAfter | src/tempoNachoHCHO.py:40-44 | the window after n updates holds min(n, 10) values |
| ProgressTrackerModel.WindowMeanAsWritten | src/tempoNachoHCHO.py:34-44 | once the window is full, its mean is the last elapsed time / 10, not a per-step duration |
| ProgressTrackerModel.SteadyRun | src/tempoNachoHCHO.py:31 | elapsed times 1, 2, …, n |
| ProgressTrackerModel.SteadyRunAverageAsWritten | src/tempoNachoHCHO.py:34-37 | with steady 1 s steps, the 21st update estimates 2 s per step |
| ProgressTrackerModel.Durations | src/tempoNachoHCHO.py:41 | one duration per update |
| ProgressTrackerModel.RecentDurations | src/tempoNachoHCHO.py:40-44 | the last min(n, 10) durations |
| ProgressTrackerModel.DurationsSum | src/tempoNachoHCHO.py:41 | the durations sum to the last elapsed time |
| ProgressTrackerModel.SteadyDurations | src/tempoNachoHCHO.py:41 | steady 1 s steps have 1 s durations |
| ProgressTrackerModel.SumOfConstant | src/tempoNachoHCHO.py:35 | n equal values sum to n times the value |
| ProgressTrackerModel.SteadyRunAverage | src/tempoNachoHCHO.py:34-37 | the corrected average for steady 1 s steps is 1 s |

## Left out

- Network and file I/O: HTTP requests, `asyncio.gather` and `sleep`, JSON reading and writing, `os.remove`, `glob`, `stat`, earthaccess, netCDF and plotting. Responses, file contents and file times are inputs; only naming, skip and age decisions are modelled.
- Logging and `print`, including the progress line's text. The `message` argument of `update` only goes into that text, so it is dropped.
- The scheduler library. Triggers, executors, `max_instances` and `coalesce` are reduced to a job table. The cron trigger is reduced to "the next 02:00 UTC at or after now".
- `run_extraction_now` and the FastAPI start/stop hooks in src/scheduler.py: they only call modelled operations.
- Floating point: all numbers are exact `real`s. `round(x, 2)` on mock values rounds the exact value half to even, and the binary result it would have is not modelled. This also covers `len(datos) * 0.05` (modelled as exact floor(n/20)), the `:.1f` percentage and the `/test/washington` timing metrics.
- Timestamps: `datetime.fromisoformat`, `strptime`, `strftime` and `isoformat` are not modelled as text. A parsed date is a `DateTime` (wall-clock microseconds and UTC offset), or the parse fails and the record falls back to its own clock reading. The dedup key compares these values, which is what comparing their `isoformat()` texts does. The scheduler's clock and file times are whole seconds.
- `OpenAQClient.LatestQuery`: the `**kwargs` of `get_latest_measurements` (src/openaq_client.py:58, 84) are extra query parameters forwarded to the API unchanged. No caller in the modelled code passes any, so the query holds only `limit` and `countries_id`.
- `OpenAQClient.LocationsParams`: `get_locations` builds `{"limit": …, "page": …, **kwargs}` (src/openaq_client.py:374-377), so a `limit` or `page` key among the extra parameters would replace the clamped limit or the page. The model keeps the extras in a separate map. The only caller, the `/locations` route, passes just `state` and `city`.
- `Text.Lower`, `Text.Upper` and `Text.Strip` map case and whitespace on ASCII only, while Python's `lower`, `upper` and `strip` follow Unicode. So a non-ASCII letter keeps its case in the model: "CAÑON CITY" does not contain "cañon" here, though it does in Python. This affects `OpenAQClient.Kept`, `OpenAQClient.FilteredResults`, `OpenAQClient.Matching`, `OpenAQClient.CountriesId`, `AirQualityClient.ConvertPollutantName`, `AirQualityClient.ParameterId` and `AirQualityRoutes.ValidateParameterName` for non-ASCII input.
- JSON `null` versus a missing key: an absent or null optional field is `None` in the model.
- Coordinates and country in the search outcome: the OpenAQ search result carries them unchanged from the location record, and the model does not.
- The `unit`, `location_name`, `city`, `state` and `site_id` of a parsed OpenAQ record: they do not affect which records are kept.
- `get_measurements_by_parameter` and `get_measurements_by_location` in src/openaq_client.py: their responses pass through the routes unchanged, so the routes take them as opaque inputs.
- `/latest/all`: it returns `get_all_parameters_latest` unchanged, which is modelled.
- `/states`: a static table.
- `/measurements/by-location-name`: it passes a `state=` argument that `search_location_and_get_all_measurements` does not accept, so it always fails.
- `/locations/in-area` and `/test/washington` call `get_all_locations_in_bbox_with_measurements`, which the OpenAQ client does not define. The coverage count of `/test/washington` is modelled on the data that call would return.
- FastAPI's query validation (`ge`/`le`, returning 422) is a precondition of the route methods.
- `OpenAQClient.FilteredResults`: a `limit` ≤ 0 keeps one result, as the loop's check after the append does; the routes never pass such a limit.
- The unused `source` argument of `_convert_pollutant_name`.
- `timedelta` formatting of the elapsed and remaining times in the progress line.
- src/tempoNacho.py, the script body of src/tempoNachoHCHO.py, src/recargarTempo.py, src/main.py, src/routes/users.py and src/models.py are not part of this model. Nor are the import-time `main()` calls of src/routes/tempo.py.
- The types imported from src/schemas.py are not defined there. The measurement record is built from its uses in the client.

## Findings

| source | as written | input that shows it | evidently intended | confidence | as-written member | corrected member |
|---|---|---|---|---|---|---|
| src/routes/tempo.py:19-21 | the upper bound is `sorted[-int(borrar)]`; for k = 0 that is `sorted[0]`, the minimum | a 2-point file whose points, valued 1.0 and 2.0, are both in the box (k = 0): only the 1.0 point is returned | trim k points from each end; with k = 0 keep every in-box point | not executed | TempoRoutes.TrimAsWrittenDropsLargerOfTwo | TempoRoutes.ZeroTrimKeepsEverything |
| src/routes/tempo.py:19-21 | for k ≥ 1 the upper bound `sorted[-k]` is `sorted[n-k]`, the (k−1)-th largest value, so only k−1 points are cut from the top | a 20-point file, all in the box, with values 1.0 to 20.0 (k = 1): the bounds are 2.0 and 20.0, so the largest point is kept | the upper bound `sorted[n-1-k]`, the k-th largest value, cutting k points from the top | not executed | TempoRoutes.UpperBoundAsWrittenOneShort | TempoRoutes.TrimProperties |
| src/tempo.py:130-131 | the hour is read after the first 'T' of the file name, which for "TEMPO_…" is inside "TEMPO" | the granule "TEMPO_NO2_L3_V03_20240801T031500Z_S001.nc": the hour text is "EM", which does not parse, so a 03:15 UTC granule is kept as daytime | read the time after the date's 'T', giving hour 3 and dropping the granule | not executed | Tempo.NightGranule | Tempo.TempoGranuleHours |
| src/tempo.py:350-352 | the title uses `filename.split('_')[3]` | "TEMPO_NO2_L3_V03_20240801T031500Z_S001.nc": the title shows "V03" | show the date-time field, index 4 | not executed | Tempo.NightGranuleTitle | Tempo.TempoTitleFields |
| src/scheduler.py:53 | `async with air_quality_client` closes the shared HTTP client when the first scheduled run ends | any two scheduled runs with valid keys: the second gets no AirNow and no OpenAQ data and falls back to mock data | keep the shared client open across runs | not executed | Scheduler.SecondScheduledRunAsWritten | Scheduler.SecondScheduledRun |
| src/scheduler.py:88-97 | `datetime.fromtimestamp` (local time) is compared with a `utcnow()` cutoff | a server 5 hours behind UTC and a file 6 days 23 hours old: it is deleted | delete files more than 7 days old | not executed | Scheduler.CleanupBehindUtcDeletesYoungFile | Scheduler.CleanupAtUtcDeletesOldFiles |
| src/tempoNachoHCHO.py:34-44 | `step_times` stores `elapsed - sum(step_times)`, so the window always sums to the total elapsed time, and the average is that total / 10 once the window is full | 21 updates at 1 s intervals: the 21st estimates 2 s per step | the mean duration of the last 10 steps, 1 s | not executed | ProgressTrackerModel.SteadyRunAverageAsWritten | ProgressTrackerModel.SteadyRunAverage |
