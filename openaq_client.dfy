/** The OpenAQ v3 client (src/openaq_client.py): API-key resolution, the
    request parameters it builds, the client-side state/city filter with its
    early stop at `limit`, the per-parameter collection, and the search of
    locations by name. Every HTTP response is an input: `Ok(payload)` for a
    2xx answer, `Err(message)` for an `httpx.HTTPError`. */
module OpenAQClient {
  import opened Wrappers
  import opened Text
  import opened Sequences

  // ---------------------------------------------------------------------------
  // PARAMETERS and the constructor

  /** `PARAMETERS`, in its insertion order (lines 22-29). */
  const Parameters: seq<(string, int)> :=
    [("pm10", 1), ("pm25", 2), ("no2", 7), ("co2", 8), ("so2", 9), ("o3", 10)]

  function NameAt(i: nat): string
    requires i < |Parameters|
  {
    Parameters[i].0
  }

  function IdAt(i: nat): int
    requires i < |Parameters|
  {
    Parameters[i].1
  }

  /** The keys of `PARAMETERS`. */
  function ParameterKeys(): set<string> {
    set i | 0 <= i < |Parameters| :: NameAt(i)
  }

  lemma ParameterKeysAre()
    ensures ParameterKeys() == {"pm10", "pm25", "no2", "co2", "so2", "o3"}
  {
    assert NameAt(0) == "pm10" && NameAt(1) == "pm25" && NameAt(2) == "no2";
    assert NameAt(3) == "co2" && NameAt(4) == "so2" && NameAt(5) == "o3";
  }

  lemma ParameterNamesDistinct()
    ensures forall i, j | 0 <= i < j < |Parameters| :: NameAt(i) != NameAt(j)
  {
  }

  /** `PARAMETERS.get(name)`. */
  function LookupParameter(name: string): (r: Option<int>)
    ensures r.Some? <==> name in ParameterKeys()
    ensures r.Some? ==> exists i | 0 <= i < |Parameters| :: Parameters[i] == (name, r.value)
  {
    LookupFrom(name, 0)
  }

  function LookupFrom(name: string, i: nat): (r: Option<int>)
    requires i <= |Parameters|
    ensures r.Some? <==> exists j | i <= j < |Parameters| :: NameAt(j) == name
    ensures r.Some? ==> exists j | i <= j < |Parameters| :: Parameters[j] == (name, r.value)
    decreases |Parameters| - i
  {
    if i == |Parameters| then None
    else if NameAt(i) == name then Some(IdAt(i))
    else LookupFrom(name, i + 1)
  }

  const MissingKeyMessage := "OPENAQ_API_KEY not found. Please set it in your .env file or pass it to the constructor."

  /** `api_key or os.getenv("OPENAQ_API_KEY")` followed by the `ValueError`
      raised when that is empty (lines 39-41). */
  function ResolveApiKey(argument: Option<string>, environment: Option<string>): (r: Result<string, string>)
    ensures r.Ok? <==> Truthy(argument) || Truthy(environment)
    ensures r.Ok? ==> r.value != ""
    ensures Truthy(argument) ==> r == Ok(argument.value)
    ensures !Truthy(argument) && Truthy(environment) ==> r == Ok(environment.value)
    ensures r.Err? ==> r.error == MissingKeyMessage
  {
    if Truthy(argument) then Ok(argument.value)
    else if Truthy(environment) then Ok(environment.value)
    else Err(MissingKeyMessage)
  }

  // ---------------------------------------------------------------------------
  // Request parameters

  const ApiMaxLimit := 10000
  const UsCountryId := 237

  /** `state or city`: whether the client-side filter applies. */
  predicate Filtering(state: Option<string>, city: Option<string>) {
    Truthy(state) || Truthy(city)
  }

  /** The `limit` sent to the API (lines 78-79 and 155-156): ten times the
      requested limit when filtering, capped at 10000. */
  function ApiLimit(limit: int, state: Option<string>, city: Option<string>): (r: int)
    ensures r <= ApiMaxLimit
    ensures limit <= ApiMaxLimit ==> limit <= r || (Filtering(state, city) && limit < 0)
    ensures !Filtering(state, city) ==> r == if limit <= ApiMaxLimit then limit else ApiMaxLimit
    ensures Filtering(state, city) && 10 * limit <= ApiMaxLimit ==> r == 10 * limit
    ensures Filtering(state, city) && 10 * limit > ApiMaxLimit ==> r == ApiMaxLimit
  {
    var requested := if Filtering(state, city) then limit * 10 else limit;
    if requested <= ApiMaxLimit then requested else ApiMaxLimit
  }

  /** `237 if country.upper() in ["US", "USA"] else None`; a `None` value is
      dropped from the query. */
  function CountriesId(country: string): (r: Option<int>)
    ensures r.Some? <==> Upper(country) == "US" || Upper(country) == "USA"
    ensures r.Some? ==> r.value == UsCountryId
  {
    if Upper(country) in ["US", "USA"] then Some(UsCountryId) else None
  }

  /** The country code is compared case-insensitively. */
  lemma CountriesIdIgnoresCase(country: string)
    ensures CountriesId(Lower(country)) == CountriesId(country)
  {
    UpperOfLower(country);
  }

  /** The query string of a `/parameters/{id}/latest` request. */
  datatype LatestQuery = LatestQuery(limit: int, countriesId: Option<int>)

  function LatestQueryFor(country: string, limit: int, state: Option<string>, city: Option<string>): LatestQuery {
    LatestQuery(ApiLimit(limit, state, city), CountriesId(country))
  }

  /** The query of `get_locations` (lines 374-388): `limit` capped at 1000,
      the page, the caller's extra parameters, and `countries_id` only for a
      non-empty "US"/"USA" country. */
  datatype LocationsQuery = LocationsQuery(limit: int, page: int, countriesId: Option<int>, extra: map<string, string>)

  function LocationsParams(country: Option<string>, limit: int, page: int, extra: map<string, string>): (q: LocationsQuery)
    ensures q.limit <= 1000
    ensures q.limit == limit || (limit > 1000 && q.limit == 1000)
    ensures q.page == page && q.extra == extra
    ensures q.countriesId.Some? <==> Truthy(country) && Upper(country.value) in {"US", "USA"}
    ensures q.countriesId.Some? ==> q.countriesId.value == UsCountryId
  {
    var capped := if limit <= 1000 then limit else 1000;
    var id := if Truthy(country) then CountriesId(country.value) else None;
    LocationsQuery(capped, page, id, extra)
  }

  // ---------------------------------------------------------------------------
  // The client-side state/city filter

  /** One entry of a `/latest` response: the `location_id`, the
      `location.locality` (`None` when missing or null) and the value. */
  datatype LatestResult = LatestResult(locationId: Option<int>, locality: Option<string>, value: Option<real>)

  /** The `meta` object; `filtered` false and `filterNote` `None` stand for
      absent keys. */
  datatype LatestMeta = LatestMeta(found: int, filtered: bool, filterNote: Option<string>)

  datatype LatestData = LatestData(results: seq<LatestResult>, meta: LatestMeta)

  const FilterNote := "Results filtered client-side by state/city"

  /** A filter text rules a result out only when both it and the locality are
      non-empty and the locality does not contain it, ignoring case. */
  predicate Admits(filter: Option<string>, locality: Option<string>) {
    Truthy(filter) && Truthy(locality) ==> Contains(Lower(locality.value), Lower(filter.value))
  }

  predicate Passes(r: LatestResult, state: Option<string>, city: Option<string>) {
    Admits(state, r.locality) && Admits(city, r.locality)
  }

  function PassesFilters(state: Option<string>, city: Option<string>): LatestResult -> bool {
    r => Passes(r, state, city)
  }

  /** All passing results, in order: the filter without its early stop. */
  function Kept(results: seq<LatestResult>, state: Option<string>, city: Option<string>): seq<LatestResult> {
    Filter(results, PassesFilters(state, city))
  }

  /** The loop stops after the append that reaches `limit`, so at least one
      passing result is kept even when `limit` is below 1. */
  function Cap(limit: int): nat {
    if limit >= 1 then limit else 1
  }

  /** What the filtering loops leave in `filtered_results`. */
  function FilteredResults(results: seq<LatestResult>, state: Option<string>, city: Option<string>, limit: int): seq<LatestResult> {
    Take(Kept(results, state, city), Cap(limit))
  }

  lemma KeptAppend(a: seq<LatestResult>, b: seq<LatestResult>, state: Option<string>, city: Option<string>)
    ensures Kept(a + b, state, city) == Kept(a, state, city) + Kept(b, state, city)
  {
    FilterAppend(a, b, PassesFilters(state, city));
  }

  /** The result of the full filter: only passing results, none missing, in
      their original order. */
  lemma KeptProperties(results: seq<LatestResult>, state: Option<string>, city: Option<string>)
    ensures forall r | r in Kept(results, state, city) :: Passes(r, state, city)
    ensures forall r | r in results && Passes(r, state, city) :: r in Kept(results, state, city)
    ensures IsSubsequence(Kept(results, state, city), results)
  {
    FilterProperties(results, PassesFilters(state, city));
  }

  /** What the filter returns (lines 104-128): passing results only, in
      order, no more than `limit` of them (when `limit >= 1`), and every
      passing result when the limit was not reached. */
  lemma FilteredResultsProperties(results: seq<LatestResult>, state: Option<string>, city: Option<string>, limit: int)
    ensures forall r | r in FilteredResults(results, state, city, limit) :: Passes(r, state, city)
    ensures IsSubsequence(FilteredResults(results, state, city, limit), results)
    ensures limit >= 1 ==> |FilteredResults(results, state, city, limit)| <= limit
    ensures |FilteredResults(results, state, city, limit)| < Cap(limit) ==>
      forall r | r in results && Passes(r, state, city) :: r in FilteredResults(results, state, city, limit)
  {
    var k := Kept(results, state, city);
    KeptProperties(results, state, city);
    PrefixOfSubsequence(k, results, |FilteredResults(results, state, city, limit)|);
  }

  /** A prefix of the input whose kept results already fill the cap
      determines the whole filter result. */
  lemma FilteredAtCap(results: seq<LatestResult>, i: nat, state: Option<string>, city: Option<string>, limit: int)
    requires i <= |results| && |Kept(results[..i], state, city)| == Cap(limit)
    ensures FilteredResults(results, state, city, limit) == Kept(results[..i], state, city)
  {
    KeptAppend(results[..i], results[i..], state, city);
    assert results[..i] + results[i..] == results;
  }

  /** The filtering loop shared by `get_latest_measurements` (lines 104-123)
      and `get_all_parameters_latest` (lines 182-201). */
  method FilterByLocality(results: seq<LatestResult>, state: Option<string>, city: Option<string>, limit: int)
    returns (filtered: seq<LatestResult>)
    ensures filtered == FilteredResults(results, state, city, limit)
  {
    filtered := [];
    var i := 0;
    while i < |results|
      invariant 0 <= i <= |results|
      invariant filtered == Kept(results[..i], state, city)
      invariant |filtered| < Cap(limit)
    {
      var result := results[i];
      var locality := result.locality;
      assert Kept(results[..i + 1], state, city)
        == Kept(results[..i], state, city) + (if Passes(result, state, city) then [result] else []) by {
        assert results[..i + 1][..i] == results[..i];
      }
      if Truthy(state) && Truthy(locality) {
        if !Contains(Lower(locality.value), Lower(state.value)) {
          i := i + 1;
          continue;
        }
      }
      if Truthy(city) && Truthy(locality) {
        if !Contains(Lower(locality.value), Lower(city.value)) {
          i := i + 1;
          continue;
        }
      }
      filtered := filtered + [result];
      i := i + 1;
      if |filtered| >= limit {
        FilteredAtCap(results, i, state, city, limit);
        return;
      }
    }
    assert results[..i] == results;
  }

  /** A successful payload after filtering; only `get_latest_measurements`
      adds the `filter_note`. */
  function FilteredData(data: LatestData, state: Option<string>, city: Option<string>, limit: int, withNote: bool): (r: LatestData)
    ensures r.results == FilteredResults(data.results, state, city, limit)
    ensures r.meta.found == |r.results| && r.meta.filtered
    ensures r.meta.filterNote == if withNote then Some(FilterNote) else data.meta.filterNote
  {
    var kept := FilteredResults(data.results, state, city, limit);
    var note := if withNote then Some(FilterNote) else data.meta.filterNote;
    LatestData(kept, LatestMeta(|kept|, true, note))
  }

  /** `get_latest_measurements` (lines 51-130): the query it sends and what it
      makes of the answer. An HTTP error propagates. */
  method GetLatestMeasurements(country: string, limit: int, state: Option<string>, city: Option<string>,
                               response: Result<LatestData, string>)
    returns (query: LatestQuery, r: Result<LatestData, string>)
    ensures query == LatestQueryFor(country, limit, state, city)
    ensures response.Err? ==> r == response
    ensures response.Ok? && !Filtering(state, city) ==> r == response
    ensures response.Ok? && Filtering(state, city) ==> r == Ok(FilteredData(response.value, state, city, limit, true))
  {
    query := LatestQuery(ApiLimit(limit, state, city), CountriesId(country));
    if response.Err? {
      return query, response;
    }
    var data := response.value;
    if Truthy(state) || Truthy(city) {
      var filtered := FilterByLocality(data.results, state, city, limit);
      data := LatestData(filtered, LatestMeta(|filtered|, true, Some(FilterNote)));
    }
    r := Ok(data);
  }

  /** One value of the dictionary `get_all_parameters_latest` returns. */
  datatype ParamEntry = ParamData(data: LatestData) | ParamError(error: string)

  function EntryFor(response: Result<LatestData, string>, state: Option<string>, city: Option<string>, limit: int): ParamEntry {
    match response
    case Err(e) => ParamError(e)
    case Ok(data) => ParamData(if Filtering(state, city) then FilteredData(data, state, city, limit, false) else data)
  }

  /** `get_all_parameters_latest` (lines 132-211): one request per parameter,
      `responses[i]` answering `Parameters[i]`. Every parameter gets an entry,
      and an HTTP error on one is recorded without stopping the others. */
  method GetAllParametersLatest(country: string, limit: int, state: Option<string>, city: Option<string>,
                                responses: seq<Result<LatestData, string>>)
    returns (query: LatestQuery, results: map<string, ParamEntry>)
    requires |responses| == |Parameters|
    ensures query == LatestQueryFor(country, limit, state, city)
    ensures results.Keys == ParameterKeys()
    ensures forall i | 0 <= i < |Parameters| :: results[NameAt(i)] == EntryFor(responses[i], state, city, limit)
  {
    query := LatestQuery(ApiLimit(limit, state, city), CountriesId(country));
    results := map[];
    ParameterNamesDistinct();
    var i := 0;
    while i < |Parameters|
      invariant 0 <= i <= |Parameters|
      invariant results.Keys == set j | 0 <= j < i :: NameAt(j)
      invariant forall j | 0 <= j < i :: results[NameAt(j)] == EntryFor(responses[j], state, city, limit)
    {
      var entry;
      match responses[i] {
        case Err(e) =>
          entry := ParamError(e);
        case Ok(data) =>
          if Truthy(state) || Truthy(city) {
            var filtered := FilterByLocality(data.results, state, city, limit);
            entry := ParamData(LatestData(filtered, LatestMeta(|filtered|, true, data.meta.filterNote)));
          } else {
            entry := ParamData(data);
          }
      }
      results := results[NameAt(i) := entry];
      i := i + 1;
    }
  }

  // ---------------------------------------------------------------------------
  // search_location_and_get_all_measurements

  /** A location record of `/locations`; `None` stands for a missing or null key. */
  datatype LocationRecord = LocationRecord(id: Option<int>, name: Option<string>, locality: Option<string>)

  /** `search_name in loc_name or search_name in loc_locality`, with both
      sides lower-cased and `None` read as "" (lines 245-250). */
  predicate NameMatches(loc: LocationRecord, search: string) {
    Contains(Lower(loc.name.GetOr("")), Lower(search))
    || Contains(Lower(loc.locality.GetOr("")), Lower(search))
  }

  function MatchesSearch(search: string): LocationRecord -> bool {
    loc => NameMatches(loc, search)
  }

  /** The locations matching the search text, in order. */
  function Matching(all: seq<LocationRecord>, search: string): seq<LocationRecord> {
    Filter(all, MatchesSearch(search))
  }

  /** The matching loop of lines 243-251. */
  method MatchLocations(all: seq<LocationRecord>, search: string) returns (matches: seq<LocationRecord>)
    ensures matches == Matching(all, search)
  {
    matches := [];
    var i := 0;
    while i < |all|
      invariant 0 <= i <= |all|
      invariant matches == Matching(all[..i], search)
    {
      var loc := all[i];
      assert all[..i + 1] == all[..i] + [loc];
      var locName := Lower(loc.name.GetOr(""));
      var locLocality := Lower(loc.locality.GetOr(""));
      var searchName := Lower(search);
      if Contains(locName, searchName) || Contains(locLocality, searchName) {
        matches := matches + [loc];
      }
      i := i + 1;
    }
    assert all[..i] == all;
  }

  /** The matches are exactly the matching locations, in their order. */
  lemma MatchingProperties(all: seq<LocationRecord>, search: string)
    ensures forall loc | loc in Matching(all, search) :: NameMatches(loc, search)
    ensures forall loc | loc in all && NameMatches(loc, search) :: loc in Matching(all, search)
    ensures IsSubsequence(Matching(all, search), all)
  {
    FilterProperties(all, MatchesSearch(search));
  }

  /** The location used is the earliest matching one. */
  lemma FirstMatchIsEarliest(all: seq<LocationRecord>, search: string)
    requires Matching(all, search) != []
    ensures exists k | 0 <= k < |all| ::
      all[k] == Matching(all, search)[0] && forall j | 0 <= j < k :: !NameMatches(all[j], search)
  {
    FilterFirstIsEarliest(all, MatchesSearch(search));
  }

  /** Matching ignores the case of the search text. */
  lemma MatchingIgnoresSearchCase(loc: LocationRecord, search: string)
    ensures NameMatches(loc, Upper(search)) == NameMatches(loc, search)
  {
    LowerOfUpper(search);
  }

  /** An empty search text matches every location. */
  lemma EmptySearchMatchesAll(all: seq<LocationRecord>)
    ensures Matching(all, "") == all
  {
    forall loc | loc in all
      ensures NameMatches(loc, "")
    {
      assert OccursAt(Lower(loc.name.GetOr("")), Lower(""), 0);
    }
    FilterKeepsAll(all, MatchesSearch(""));
  }

  /** One element of a `/parameters/{id}/latest` answer: its value, the
      `parameter.units` (`None` when missing) and `datetime.utc`. */
  datatype Reading = Reading(value: Option<real>, units: Option<string>, utc: Option<string>)

  datatype ReadingSummary = ReadingSummary(value: Option<real>, utc: Option<string>)

  /** The dictionary `fetch_parameter` returns for one parameter. */
  datatype ParameterReport =
    | Available(parameterId: int, parameterName: string, latestValue: Option<real>, unit: string,
                latestUtc: Option<string>, totalAvailable: nat, allMeasurements: seq<ReadingSummary>)
    | NoMeasurements(parameterId: int, parameterName: string)
    | FetchFailed(parameterId: int, parameterName: string, error: string)

  const MaxReadingsShown := 10

  function Summaries(readings: seq<Reading>): (r: seq<ReadingSummary>)
    ensures |r| == |readings|
    ensures forall j | 0 <= j < |r| :: r[j] == ReadingSummary(readings[j].value, readings[j].utc)
  {
    seq(|readings|, j requires 0 <= j < |readings| => ReadingSummary(readings[j].value, readings[j].utc))
  }

  /** `fetch_parameter` (lines 295-342). */
  function FetchParameter(name: string, id: int, response: Result<seq<Reading>, string>): (r: ParameterReport)
    ensures r.parameterId == id && r.parameterName == Upper(name)
    ensures r.FetchFailed? <==> response.Err?
    ensures r.Available? <==> response.Ok? && response.value != []
    ensures r.FetchFailed? ==> r.error == "Could not fetch data: " + response.error
    ensures r.Available? ==>
      var list := response.value;
      && r.latestValue == list[0].value
      && r.unit == list[0].units.GetOr("N/A")
      && r.latestUtc == list[0].utc
      && r.totalAvailable == |list|
      && |r.allMeasurements| == (if |list| <= MaxReadingsShown then |list| else MaxReadingsShown)
      && forall j | 0 <= j < |r.allMeasurements| :: r.allMeasurements[j] == ReadingSummary(list[j].value, list[j].utc)
  {
    match response
    case Err(e) => FetchFailed(id, Upper(name), "Could not fetch data: " + e)
    case Ok(list) =>
      if list == [] then NoMeasurements(id, Upper(name))
      else
        var latest := list[0];
        Available(id, Upper(name), latest.value, latest.units.GetOr("N/A"), latest.utc, |list|,
                  Summaries(Take(list, MaxReadingsShown)))
  }

  /** The loop of lines 349-350 that files the gathered per-parameter
      results under their names. */
  method CollectReports(responses: seq<Result<seq<Reading>, string>>) returns (measurements: map<string, ParameterReport>)
    requires |responses| == |Parameters|
    ensures measurements.Keys == ParameterKeys()
    ensures forall i | 0 <= i < |Parameters| :: measurements[NameAt(i)] == FetchParameter(NameAt(i), IdAt(i), responses[i])
  {
    measurements := map[];
    ParameterNamesDistinct();
    var i := 0;
    while i < |Parameters|
      invariant 0 <= i <= |Parameters|
      invariant measurements.Keys == set j | 0 <= j < i :: NameAt(j)
      invariant forall j | 0 <= j < i :: measurements[NameAt(j)] == FetchParameter(NameAt(j), IdAt(j), responses[j])
    {
      measurements := measurements[NameAt(i) := FetchParameter(NameAt(i), IdAt(i), responses[i])];
      i := i + 1;
    }
  }

  /** The answer of `search_location_and_get_all_measurements`. */
  datatype SearchOutcome =
    | NotFound(locationName: string, bbox: string, totalSearched: nat)
    | Found(location: LocationRecord, matchesFound: nat, otherMatches: Option<seq<LocationRecord>>,
            measurements: map<string, ParameterReport>)

  /** `matching_locations[1:6]` when there is more than one match. */
  function OtherMatches(matches: seq<LocationRecord>): (r: Option<seq<LocationRecord>>)
    ensures r.Some? <==> |matches| > 1
    ensures r.Some? ==> |r.value| == (if |matches| <= 6 then |matches| - 1 else 5) && r.value == matches[1..|r.value| + 1]
  {
    if |matches| > 1 then Some(Take(matches[1..], 5)) else None
  }

  /** `search_location_and_get_all_measurements` (lines 213-352): the
      locations answer, then one measurements answer per parameter for the
      first match. An HTTP error on the locations request propagates. */
  method SearchLocation(locationName: string, bbox: string, locationsResponse: Result<seq<LocationRecord>, string>,
                        parameterResponses: seq<Result<seq<Reading>, string>>)
    returns (r: Result<SearchOutcome, string>)
    requires |parameterResponses| == |Parameters|
    ensures locationsResponse.Err? ==> r == Err(locationsResponse.error)
    ensures locationsResponse.Ok? ==>
      var all := locationsResponse.value;
      var matches := Matching(all, locationName);
      && (matches == [] ==> r == Ok(NotFound(locationName, bbox, |all|)))
      && (matches != [] ==>
            && r.Ok? && r.value.Found?
            && r.value.location == matches[0]
            && r.value.matchesFound == |matches|
            && r.value.otherMatches == OtherMatches(matches)
            && r.value.measurements.Keys == ParameterKeys()
            && forall i | 0 <= i < |Parameters| ::
                 r.value.measurements[NameAt(i)] == FetchParameter(NameAt(i), IdAt(i), parameterResponses[i]))
  {
    if locationsResponse.Err? {
      return Err(locationsResponse.error);
    }
    var all := locationsResponse.value;
    var matches := MatchLocations(all, locationName);
    if matches == [] {
      return Ok(NotFound(locationName, bbox, |all|));
    }
    var others := if |matches| > 1 then Some(Take(matches[1..], 5)) else None;
    var measurements := CollectReports(parameterResponses);
    r := Ok(Found(matches[0], |matches|, others, measurements));
  }

  /** What a successful search reports about its matches: the first match is
      the earliest matching location, the extra matches are at most five
      further matching locations, and with no match every location was
      looked at. */
  lemma SearchOutcomeProperties(all: seq<LocationRecord>, search: string)
    ensures var m := Matching(all, search);
      && (m == [] ==> forall loc | loc in all :: !NameMatches(loc, search))
      && (OtherMatches(m).Some? ==>
            |OtherMatches(m).value| <= 5
            && forall loc | loc in OtherMatches(m).value :: loc in all && NameMatches(loc, search))
  {
    var m := Matching(all, search);
    MatchingProperties(all, search);
    SubsequenceElements(m, all);
    if OtherMatches(m).Some? {
      forall loc | loc in OtherMatches(m).value ensures loc in m {
        var j :| 0 <= j < |OtherMatches(m).value| && OtherMatches(m).value[j] == loc;
        assert m[j + 1] == loc;
      }
    }
  }
}
