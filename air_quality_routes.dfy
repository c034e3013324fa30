/** The air-quality HTTP handlers (src/routes/air_quality.py): validation of
    the pollutant name and id, the request each handler hands to the OpenAQ
    client, the turning of client failures into HTTP 500 answers, the
    per-parameter count summary of `/summary` and the parameter coverage
    counters of `/test/washington`. FastAPI's own checks of the `ge`/`le`
    bounds on query parameters happen before a handler runs and appear here
    as preconditions. */
module AirQualityRoutes {
  import opened Wrappers
  import opened Text
  import opened OpenAQClient

  /** An `HTTPException`: the status code and the detail text. */
  datatype HttpError = HttpError(status: int, detail: string)

  /** The detail of a 500 answer: the handler's prefix, then `str(e)`. */
  function ServerError(prefix: string, message: string): (r: HttpError)
    ensures r.status == 500 && r.detail == prefix + message
  {
    HttpError(500, prefix + message)
  }

  // ---------------------------------------------------------------------------
  // /latest

  const InvalidParameterMessage := "Invalid parameter. Must be one of: pm10, pm25, no2, co2, so2, o3"
  const FetchErrorPrefix := "Error fetching data: "

  /** The parameter check of lines 34-43: the name is lower-cased and must be
      a key of `PARAMETERS`; its id is then looked up. */
  function ValidateParameterName(parameter: string): (r: Result<int, HttpError>)
    ensures r.Ok? <==> Lower(parameter) in ParameterKeys()
    ensures r.Ok? ==> exists i | 0 <= i < |Parameters| :: Parameters[i] == (Lower(parameter), r.value)
    ensures r.Err? ==> r.error == HttpError(400, InvalidParameterMessage)
  {
    match LookupParameter(Lower(parameter))
    case None => Err(HttpError(400, InvalidParameterMessage))
    case Some(id) => Ok(id)
  }

  /** The check ignores case, so "PM25" and "pm25" are the same parameter. */
  lemma ValidateParameterNameIgnoresCase(parameter: string)
    ensures ValidateParameterName(Upper(parameter)) == ValidateParameterName(parameter)
  {
    LowerOfUpper(parameter);
  }

  /** "co", which the handler's documentation advertises, is refused: the key
      of `PARAMETERS` is "co2". */
  lemma CarbonMonoxideNameRejected()
    ensures ValidateParameterName("co").Err?
    ensures ValidateParameterName("CO2") == Ok(8)
  {
    ParameterKeysAre();
    assert Lower("co") == "co";
    assert Lower("CO2") == "co2";
    assert NameAt(3) == "co2";
    assert LookupFrom("co2", 3) == Some(8);
  }

  /** `get_latest_air_quality` (lines 13-53): a 400 for an unknown parameter
      before any request; otherwise the client's answer for the US, or a 500
      carrying the client's error. */
  method LatestRoute(parameter: string, state: Option<string>, city: Option<string>, limit: int,
                     response: Result<LatestData, string>)
    returns (query: Option<LatestQuery>, r: Result<LatestData, HttpError>)
    requires 1 <= limit <= 10000
    ensures r.Err? && r.error.status == 400 <==> Lower(parameter) !in ParameterKeys()
    ensures query.Some? <==> Lower(parameter) in ParameterKeys()
    ensures query.Some? ==> query.value == LatestQueryFor("US", limit, state, city)
    ensures query.Some? && response.Err? ==> r == Err(ServerError(FetchErrorPrefix, response.error))
    ensures query.Some? && response.Ok? && !Filtering(state, city) ==> r == Ok(response.value)
    ensures query.Some? && response.Ok? && Filtering(state, city) ==>
      r == Ok(FilteredData(response.value, state, city, limit, true))
  {
    var checked := ValidateParameterName(parameter);
    if checked.Err? {
      return None, Err(checked.error);
    }
    var q, data := GetLatestMeasurements("US", limit, state, city, response);
    query := Some(q);
    match data {
      case Err(e) => r := Err(ServerError(FetchErrorPrefix, e));
      case Ok(d) => r := Ok(d);
    }
  }

  // ---------------------------------------------------------------------------
  // /locations

  const LocationsErrorPrefix := "Error fetching locations: "

  /** The extra query parameters of lines 87-91: `state` and `city`, each
      only when it is truthy. */
  function LocationFilters(state: Option<string>, city: Option<string>): (r: map<string, string>)
    ensures "state" in r <==> Truthy(state)
    ensures "city" in r <==> Truthy(city)
    ensures "state" in r ==> r["state"] == state.value
    ensures "city" in r ==> r["city"] == city.value
    ensures r.Keys <= {"state", "city"}
  {
    var withState := if Truthy(state) then map["state" := state.value] else map[];
    if Truthy(city) then withState["city" := city.value] else withState
  }

  /** `get_monitoring_locations` (lines 77-100): the request for the US
      locations with the given filters, or a 500 carrying the client's error. */
  function LocationsRoute<T>(limit: int, state: Option<string>, city: Option<string>, response: Result<T, string>)
    : (r: (LocationsQuery, Result<T, HttpError>))
    requires 1 <= limit <= 10000
    ensures r.0 == LocationsParams(Some("US"), limit, 1, LocationFilters(state, city))
    ensures r.0.countriesId == Some(UsCountryId) && r.0.limit == (if limit <= 1000 then limit else 1000)
    ensures r.1.Ok? <==> response.Ok?
    ensures r.1.Ok? ==> r.1.value == response.value
    ensures r.1.Err? ==> r.1.error == ServerError(LocationsErrorPrefix, response.error)
  {
    assert Upper("US") == "US";
    var query := LocationsParams(Some("US"), limit, 1, LocationFilters(state, city));
    match response
    case Err(e) => (query, Err(ServerError(LocationsErrorPrefix, e)))
    case Ok(data) => (query, Ok(data))
  }

  // ---------------------------------------------------------------------------
  // /measurements/by-parameter/{parameter_id}

  const ValidParameterIds: seq<int> := [1, 2, 7, 8, 9, 10]
  const InvalidParameterIdMessage :=
    "Invalid parameter ID. Must be one of: [1, 2, 7, 8, 9, 10]. (1=PM10, 2=PM2.5, 7=NO2, 8=CO, 9=SO2, 10=O3)"
  const MeasurementsErrorPrefix := "Error fetching measurements: "

  /** The accepted ids are exactly the ids of `PARAMETERS`. */
  lemma ValidIdsAreParameterIds(id: int)
    ensures id in ValidParameterIds <==> exists i | 0 <= i < |Parameters| :: IdAt(i) == id
  {
    assert IdAt(0) == 1 && IdAt(1) == 2 && IdAt(2) == 7;
    assert IdAt(3) == 8 && IdAt(4) == 9 && IdAt(5) == 10;
  }

  /** `get_measurements_by_parameter` (lines 174-222): a 400 for an id outside
      the list before any request; otherwise the client's answer, or a 500
      carrying its error. */
  function ByParameterRoute<T>(parameterId: int, response: Result<T, string>): (r: Result<T, HttpError>)
    ensures r.Err? && r.error.status == 400 <==> parameterId !in ValidParameterIds
    ensures r.Ok? <==> parameterId in ValidParameterIds && response.Ok?
    ensures r.Ok? ==> r.value == response.value
    ensures parameterId in ValidParameterIds && response.Err? ==>
      r == Err(ServerError(MeasurementsErrorPrefix, response.error))
  {
    if parameterId !in ValidParameterIds then Err(HttpError(400, InvalidParameterIdMessage))
    else
      match response
      case Err(e) => Err(ServerError(MeasurementsErrorPrefix, e))
      case Ok(data) => Ok(data)
  }

  // ---------------------------------------------------------------------------
  // /summary

  /** One entry of `summary["parameters"]`. */
  datatype ParamSummary =
    | ErrorSummary(error: string, count: nat)
    | CountSummary(count: nat, locations: nat)

  datatype Summary = Summary(country: string, state: Option<string>, city: Option<string>, limit: int,
                             parameters: map<string, ParamSummary>)

  /** An int is truthy when it is not 0. */
  predicate TruthyId(id: Option<int>) {
    id.Some? && id.value != 0
  }

  /** `set(r.get("location_id") for r in results if r.get("location_id"))`. */
  function LocationIds(results: seq<LatestResult>): (r: set<int>)
    ensures forall id :: id in r <==> exists k | 0 <= k < |results| :: TruthyId(results[k].locationId) && results[k].locationId.value == id
  {
    if results == [] then {}
    else
      var last := results[|results| - 1];
      var init := LocationIds(results[..|results| - 1]);
      assert forall k | 0 <= k < |results| - 1 :: results[..|results| - 1][k] == results[k];
      if TruthyId(last.locationId) then init + {last.locationId.value} else init
  }

  /** Lines 132-142: an error entry counts 0; otherwise the count of results
      and the number of distinct truthy location ids among them. */
  function SummaryOf(entry: ParamEntry): (r: ParamSummary)
    ensures entry.ParamError? <==> r.ErrorSummary?
    ensures r.ErrorSummary? ==> r.error == entry.error && r.count == 0
    ensures r.CountSummary? ==> r.count == |entry.data.results| && r.locations == |LocationIds(entry.data.results)|
  {
    match entry
    case ParamError(e) => ErrorSummary(e, 0)
    case ParamData(data) => CountSummary(|data.results|, |LocationIds(data.results)|)
  }

  /** There are never more distinct locations than results. */
  lemma {:induction false} LocationIdsAtMostResults(results: seq<LatestResult>)
    ensures |LocationIds(results)| <= |results|
  {
    if results != [] {
      LocationIdsAtMostResults(results[..|results| - 1]);
    }
  }

  /** When every result has its own truthy location id, there are as many
      locations as results. */
  lemma {:induction false} DistinctIdsAllCounted(results: seq<LatestResult>)
    requires forall k | 0 <= k < |results| :: TruthyId(results[k].locationId)
    requires forall j, k | 0 <= j < k < |results| :: results[j].locationId != results[k].locationId
    ensures |LocationIds(results)| == |results|
  {
    if results != [] {
      var init := results[..|results| - 1];
      var last := results[|results| - 1];
      DistinctIdsAllCounted(init);
      assert last.locationId.value !in LocationIds(init);
    }
  }

  /** Every summary entry keeps the distinct-location count within the result
      count. */
  lemma SummaryLocationsBounded(entry: ParamEntry)
    ensures SummaryOf(entry).CountSummary? ==> SummaryOf(entry).locations <= SummaryOf(entry).count
  {
    if entry.ParamData? {
      LocationIdsAtMostResults(entry.data.results);
    }
  }

  /** The loop of lines 131-142 over `all_data.items()`. */
  method Summarize(allData: map<string, ParamEntry>) returns (parameters: map<string, ParamSummary>)
    ensures parameters.Keys == allData.Keys
    ensures forall name | name in allData :: parameters[name] == SummaryOf(allData[name])
  {
    parameters := map[];
    var remaining := allData.Keys;
    while remaining != {}
      invariant remaining <= allData.Keys
      invariant parameters.Keys == allData.Keys - remaining
      invariant forall name | name in parameters :: parameters[name] == SummaryOf(allData[name])
      decreases |remaining|
    {
      var name :| name in remaining;
      var entry := allData[name];
      if entry.ParamError? {
        parameters := parameters[name := ErrorSummary(entry.error, 0)];
      } else {
        var results := entry.data.results;
        parameters := parameters[name := CountSummary(|results|, |LocationIds(results)|)];
      }
      remaining := remaining - {name};
    }
  }

  /** `get_air_quality_summary` (lines 103-146): one entry per parameter of
      `PARAMETERS`, and the query echoed back. */
  method SummaryRoute(state: Option<string>, city: Option<string>, limit: int,
                      responses: seq<Result<LatestData, string>>)
    returns (query: LatestQuery, summary: Summary)
    requires 1 <= limit <= 1000
    requires |responses| == |Parameters|
    ensures query == LatestQueryFor("US", limit, state, city)
    ensures summary.country == "US" && summary.state == state && summary.city == city && summary.limit == limit
    ensures summary.parameters.Keys == ParameterKeys()
    ensures forall i | 0 <= i < |Parameters| ::
      summary.parameters[NameAt(i)] == SummaryOf(EntryFor(responses[i], state, city, limit))
  {
    var allData;
    query, allData := GetAllParametersLatest("US", limit, state, city, responses);
    var parameters := Summarize(allData);
    summary := Summary("US", state, city, limit, parameters);
  }

  // ---------------------------------------------------------------------------
  // /test/washington: parameter coverage

  /** One location of the client's answer: whether it has an "error" key, and
      its `measurements` items (name, `available`) in order; a missing
      `measurements` key is the empty list. */
  datatype LocationCoverage = LocationCoverage(hasError: bool, measurements: seq<(string, bool)>)

  /** Python's message for `KeyError(name)`. */
  function KeyErrorMessage(name: string): string {
    "'" + name + "'"
  }

  /** How many items of one location are available under `param`. */
  function AvailableIn(measurements: seq<(string, bool)>, param: string): nat {
    if measurements == [] then 0
    else
      var last := measurements[|measurements| - 1];
      AvailableIn(measurements[..|measurements| - 1], param) + (if last.0 == param && last.1 then 1 else 0)
  }

  /** The locations without an error that have `param` available, counted
      once per available item. */
  function CoverageCount(locations: seq<LocationCoverage>, param: string): nat {
    if locations == [] then 0
    else
      var last := locations[|locations| - 1];
      CoverageCount(locations[..|locations| - 1], param) + (if last.hasError then 0 else AvailableIn(last.measurements, param))
  }

  /** The first available item whose name is not a key of `PARAMETERS`:
      `param_stats[param] += 1` raises `KeyError` on it. */
  function UnknownIn(measurements: seq<(string, bool)>): Option<string> {
    if measurements == [] then None
    else
      var last := measurements[|measurements| - 1];
      var before := UnknownIn(measurements[..|measurements| - 1]);
      if before.Some? then before
      else if last.1 && last.0 !in ParameterKeys() then Some(last.0)
      else None
  }

  function FirstUnknown(locations: seq<LocationCoverage>): Option<string> {
    if locations == [] then None
    else
      var last := locations[|locations| - 1];
      var before := FirstUnknown(locations[..|locations| - 1]);
      if before.Some? then before
      else if last.hasError then None
      else UnknownIn(last.measurements)
  }

  /** The counters of lines 427-432, or the `KeyError` that aborts them. */
  function Coverage(locations: seq<LocationCoverage>): (r: Result<map<string, nat>, string>)
    ensures r.Err? <==> FirstUnknown(locations).Some?
    ensures r.Ok? ==> r.value.Keys == ParameterKeys()
    ensures r.Ok? ==> forall p | p in r.value :: r.value[p] == CoverageCount(locations, p)
  {
    match FirstUnknown(locations)
    case Some(name) => Err(KeyErrorMessage(name))
    case None => Ok(map p | p in ParameterKeys() :: CoverageCount(locations, p))
  }

  /** An unknown name found in a prefix is the first one of the whole list. */
  lemma {:induction false} FirstUnknownOfPrefix(locations: seq<LocationCoverage>, n: nat)
    requires n <= |locations| && FirstUnknown(locations[..n]).Some?
    ensures FirstUnknown(locations) == FirstUnknown(locations[..n])
    decreases |locations|
  {
    if n < |locations| {
      var init := locations[..|locations| - 1];
      assert init[..n] == locations[..n];
      FirstUnknownOfPrefix(init, n);
    } else {
      assert locations[..n] == locations;
    }
  }

  lemma {:induction false} UnknownInOfPrefix(measurements: seq<(string, bool)>, n: nat)
    requires n <= |measurements| && UnknownIn(measurements[..n]).Some?
    ensures UnknownIn(measurements) == UnknownIn(measurements[..n])
    decreases |measurements|
  {
    if n < |measurements| {
      var init := measurements[..|measurements| - 1];
      assert init[..n] == measurements[..n];
      UnknownInOfPrefix(init, n);
    } else {
      assert measurements[..n] == measurements;
    }
  }

  /** How the counters and the search for an unknown name advance by one
      location. */
  lemma LocationStep(locations: seq<LocationCoverage>, i: nat)
    requires i < |locations|
    ensures FirstUnknown(locations[..i + 1]) ==
      if FirstUnknown(locations[..i]).Some? then FirstUnknown(locations[..i])
      else if locations[i].hasError then None
      else UnknownIn(locations[i].measurements)
    ensures forall p ::
      CoverageCount(locations[..i + 1], p)
        == CoverageCount(locations[..i], p) + (if locations[i].hasError then 0 else AvailableIn(locations[i].measurements, p))
  {
    assert locations[..i + 1][..i] == locations[..i];
  }

  /** How the counters and the search for an unknown name advance by one
      item of a location. */
  lemma MeasurementStep(measurements: seq<(string, bool)>, j: nat)
    requires j < |measurements|
    ensures UnknownIn(measurements[..j + 1]) ==
      if UnknownIn(measurements[..j]).Some? then UnknownIn(measurements[..j])
      else if measurements[j].1 && measurements[j].0 !in ParameterKeys() then Some(measurements[j].0)
      else None
    ensures forall p ::
      AvailableIn(measurements[..j + 1], p)
        == AvailableIn(measurements[..j], p) + (if measurements[j].0 == p && measurements[j].1 then 1 else 0)
  {
    assert measurements[..j + 1][..j] == measurements[..j];
  }

  /** The inner loop of lines 430-432 for one location without an error:
      each available item adds one to its parameter's counter, and an
      available item of an unknown parameter raises `KeyError`. */
  method CountLocation(stats: map<string, nat>, measurements: seq<(string, bool)>)
    returns (r: Result<map<string, nat>, string>)
    requires stats.Keys == ParameterKeys()
    ensures r.Err? <==> UnknownIn(measurements).Some?
    ensures r.Err? ==> r.error == KeyErrorMessage(UnknownIn(measurements).value)
    ensures r.Ok? ==> r.value.Keys == ParameterKeys()
    ensures r.Ok? ==> forall p | p in r.value :: r.value[p] == stats[p] + AvailableIn(measurements, p)
  {
    var counts := stats;
    var j := 0;
    while j < |measurements|
      invariant 0 <= j <= |measurements|
      invariant UnknownIn(measurements[..j]).None?
      invariant counts.Keys == ParameterKeys()
      invariant forall p | p in counts :: counts[p] == stats[p] + AvailableIn(measurements[..j], p)
    {
      var (param, available) := measurements[j];
      MeasurementStep(measurements, j);
      if available {
        if param !in counts {
          UnknownInOfPrefix(measurements, j + 1);
          return Err(KeyErrorMessage(param));
        }
        counts := counts[param := counts[param] + 1];
      }
      j := j + 1;
    }
    assert measurements[..j] == measurements;
    r := Ok(counts);
  }

  /** The nested loops of lines 427-432. */
  method CountCoverage(locations: seq<LocationCoverage>) returns (r: Result<map<string, nat>, string>)
    ensures r == Coverage(locations)
  {
    var stats: map<string, nat> := map p | p in ParameterKeys() :: 0;
    var i := 0;
    while i < |locations|
      invariant 0 <= i <= |locations|
      invariant FirstUnknown(locations[..i]).None?
      invariant stats.Keys == ParameterKeys()
      invariant forall p | p in stats :: stats[p] == CoverageCount(locations[..i], p)
    {
      var loc := locations[i];
      LocationStep(locations, i);
      if !loc.hasError {
        var counted := CountLocation(stats, loc.measurements);
        if counted.Err? {
          FirstUnknownOfPrefix(locations, i + 1);
          return counted;
        }
        stats := counted.value;
      }
      i := i + 1;
    }
    assert locations[..i] == locations;
    assert stats == map p | p in ParameterKeys() :: CoverageCount(locations, p);
    r := Ok(stats);
  }

  /** Within a location whose names are distinct, a parameter is available at
      most once. */
  lemma {:induction false} AvailableAtMostOnce(measurements: seq<(string, bool)>, param: string)
    requires forall j, k | 0 <= j < k < |measurements| :: measurements[j].0 != measurements[k].0
    ensures AvailableIn(measurements, param) <= 1
    ensures AvailableIn(measurements, param) == 1 <==> (param, true) in measurements
  {
    if measurements != [] {
      var init := measurements[..|measurements| - 1];
      var last := measurements[|measurements| - 1];
      AvailableAtMostOnce(init, param);
      assert measurements == init + [last];
      if last.0 == param {
        assert (param, true) !in init;
      }
    }
  }

  function NonErrorCount(locations: seq<LocationCoverage>): nat {
    if locations == [] then 0
    else NonErrorCount(locations[..|locations| - 1]) + (if locations[|locations| - 1].hasError then 0 else 1)
  }

  /** Each parameter is covered by at most as many locations as there are
      locations without an error. */
  lemma {:induction false} CoverageAtMostLocations(locations: seq<LocationCoverage>, param: string)
    requires forall l | l in locations :: forall j, k | 0 <= j < k < |l.measurements| :: l.measurements[j].0 != l.measurements[k].0
    ensures CoverageCount(locations, param) <= NonErrorCount(locations)
  {
    if locations != [] {
      var init := locations[..|locations| - 1];
      var last := locations[|locations| - 1];
      CoverageAtMostLocations(init, param);
      AvailableAtMostOnce(last.measurements, param);
    }
  }

  /** The "percentage" text of line 437: "0%" unless `successful` is positive. */
  datatype Percentage = ZeroPercent | Percent(value: real)

  function CoveragePercentage(count: nat, successful: int): (r: Percentage)
    ensures r.ZeroPercent? <==> successful <= 0
    ensures r.Percent? && count <= successful ==> 0.0 <= r.value <= 100.0
  {
    if successful > 0 then Percent(count as real / successful as real * 100.0) else ZeroPercent
  }
}
