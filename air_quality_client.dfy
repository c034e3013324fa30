/** The extraction client (src/air_quality_client.py): pollutant-name and AQI
    normalisation, the mapping of AirNow and OpenAQ records to measurements,
    the per-parameter OpenAQ polling loop, first-seen-wins deduplication, the
    mock fallback, the run-status bookkeeping and the snapshot file plan.
    Provider responses are inputs; `now` stands for `datetime.utcnow()` at
    the end of a run, and each record carries the clock reading taken while
    it is parsed. */
module AirQualityClient {
  import opened Wrappers
  import opened Text
  import opened Measurements
  import opened Sequences
  import MockDataGenerator

  // ---------------------------------------------------------------------------
  // _convert_pollutant_name

  /** The 13-entry lookup table of lines 71-85. */
  const PollutantSynonyms: map<string, Pollutant> := map[
    "ozone" := Ozone, "o3" := Ozone,
    "no2" := NO2, "nitrogen dioxide" := NO2,
    "pm2.5" := PM25, "pm25" := PM25,
    "pm10" := PM10,
    "co" := CO, "carbon monoxide" := CO,
    "so2" := SO2, "sulfur dioxide" := SO2,
    "hcho" := HCHO, "formaldehyde" := HCHO
  ]

  /** The lower-case names under which each pollutant is known, pollutant by pollutant. */
  function NamesOf(p: Pollutant): set<string> {
    match p
    case Ozone => {"ozone", "o3"}
    case NO2 => {"no2", "nitrogen dioxide"}
    case PM25 => {"pm2.5", "pm25"}
    case PM10 => {"pm10"}
    case CO => {"co", "carbon monoxide"}
    case SO2 => {"so2", "sulfur dioxide"}
    case HCHO => {"hcho", "formaldehyde"}
  }

  /** `_convert_pollutant_name`: look up `parameter.lower().strip()`. The
      table agrees with the names listed per pollutant: a name converts to `p`
      iff its normalised form is one of the names of `p`, and to None iff it
      is a name of no pollutant. (The unused `source` argument is dropped.) */
  function ConvertPollutantName(parameter: string): (r: Option<Pollutant>)
    ensures r.Some? ==> Strip(Lower(parameter)) in NamesOf(r.value)
    ensures forall q: Pollutant | Strip(Lower(parameter)) in NamesOf(q) :: r == Some(q)
  {
    var key := Strip(Lower(parameter));
    if key in PollutantSynonyms then
      SynonymsAgreeWithNames(key);
      Some(PollutantSynonyms[key])
    else
      NoNameOutsideSynonyms(key);
      None
  }

  lemma NoNameOutsideSynonyms(key: string)
    requires key !in PollutantSynonyms
    ensures forall q: Pollutant :: key !in NamesOf(q)
  {
  }

  /** Every table entry maps a name to the one pollutant that lists it. */
  lemma SynonymsAgreeWithNames(key: string)
    requires key in PollutantSynonyms
    ensures key in NamesOf(PollutantSynonyms[key])
    ensures forall q: Pollutant | key in NamesOf(q) :: q == PollutantSynonyms[key]
  {
  }

  /** The lookup depends only on the lower-cased, stripped name. */
  lemma ConvertDependsOnNormalisedName(a: string, b: string)
    requires Lower(Strip(a)) == Lower(Strip(b))
    ensures ConvertPollutantName(a) == ConvertPollutantName(b)
  {
    StripLower(a);
    StripLower(b);
  }

  /** Case does not matter: an upper-cased name converts like the original. */
  lemma ConvertIgnoresCase(name: string)
    ensures ConvertPollutantName(Upper(name)) == ConvertPollutantName(name)
  {
    LowerOfUpper(name);
  }

  // ---------------------------------------------------------------------------
  // _determine_aqi_category

  /** The upper-inclusive cut-offs of lines 91-100. */
  const AqiCutoffs: seq<int> := [50, 100, 150, 200, 300]

  /** The position of a category on the AQI scale, GOOD first. */
  function CategoryRank(c: AqiCategory): nat {
    match c
    case Good => 0
    case Moderate => 1
    case UnhealthyForSensitiveGroups => 2
    case Unhealthy => 3
    case VeryUnhealthy => 4
    case Hazardous => 5
  }

  /** `_determine_aqi_category`: the category's rank is the number of
      cut-offs that `aqi` exceeds. */
  function DetermineAqiCategory(aqi: int): (r: AqiCategory)
    ensures forall j | 0 <= j < |AqiCutoffs| :: CategoryRank(r) > j <==> aqi > AqiCutoffs[j]
    ensures r == Hazardous <==> aqi > 300
  {
    if aqi <= 50 then Good
    else if aqi <= 100 then Moderate
    else if aqi <= 150 then UnhealthyForSensitiveGroups
    else if aqi <= 200 then Unhealthy
    else if aqi <= 300 then VeryUnhealthy
    else Hazardous
  }

  /** A higher AQI never gives a better category. */
  lemma AqiCategoryMonotone(a: int, b: int)
    requires a <= b
    ensures CategoryRank(DetermineAqiCategory(a)) <= CategoryRank(DetermineAqiCategory(b))
  {
  }

  // ---------------------------------------------------------------------------
  // get_airnow_current_observations

  /** One AirNow observation, with absent keys already replaced by the
      defaults of lines 157-193. `observedAt` is what `strptime` makes of
      `DateObserved` and `HourObserved`; None when it raises. `fetchedAt` is
      the clock reading the loop takes for this observation when it has no
      date (line 171). */
  datatype AirNowObservation = AirNowObservation(
    parameterName: string,
    dateObserved: string,
    observedAt: Option<DateTime>,
    aqi: int,
    value: real,
    unit: string,
    latitude: real,
    longitude: real,
    reportingArea: string,
    stateCode: string,
    siteId: string,
    fetchedAt: DateTime)

  /** The body of the loop at lines 154-200: None when the observation is
      skipped (unknown parameter, or a date that does not parse). */
  function MapAirNowObservation(obs: AirNowObservation): (r: Option<Measurement>)
    ensures r.Some? <==> ConvertPollutantName(obs.parameterName).Some? && (obs.dateObserved == "" || obs.observedAt.Some?)
    ensures r.Some? ==>
      && r.value.parameter == ConvertPollutantName(obs.parameterName).value
      && r.value.source == AirNow && r.value.country == "US"
      && r.value.lastUpdated == (if obs.dateObserved == "" then obs.fetchedAt else obs.observedAt.value)
      && (obs.aqi > 0 ==> r.value.aqi == Some(obs.aqi) && r.value.category == Some(DetermineAqiCategory(obs.aqi)))
      && (obs.aqi <= 0 ==> r.value.aqi.None? && r.value.category.None?)
  {
    match ConvertPollutantName(obs.parameterName)
    case None => None
    case Some(pollutant) =>
      if obs.dateObserved != "" && obs.observedAt.None? then None
      else
        var timestamp := if obs.dateObserved != "" then obs.observedAt.value else obs.fetchedAt;
        Some(Measurement(
          parameter := pollutant,
          value := obs.value,
          unit := obs.unit,
          lastUpdated := timestamp,
          aqi := if obs.aqi > 0 then Some(obs.aqi) else None,
          category := if obs.aqi > 0 then Some(DetermineAqiCategory(obs.aqi)) else None,
          latitude := obs.latitude,
          longitude := obs.longitude,
          locationName := obs.reportingArea,
          city := None,
          state := Some(obs.stateCode),
          country := "US",
          source := AirNow,
          siteId := obs.siteId))
  }

  /** The measurements kept from a list of observations, in order. */
  function MapAll(observations: seq<AirNowObservation>): seq<Measurement> {
    if observations == [] then []
    else
      var last := observations[|observations| - 1];
      MapAll(observations[..|observations| - 1])
      + (match MapAirNowObservation(last) case Some(m) => [m] case None => [])
  }

  /** One more observation adds its measurement, if it maps to one. */
  lemma MapAllStep(observations: seq<AirNowObservation>, i: nat)
    requires i < |observations|
    ensures MapAll(observations[..i + 1]) == MapAll(observations[..i])
      + (match MapAirNowObservation(observations[i]) case Some(m) => [m] case None => [])
  {
    assert observations[..i + 1][..i] == observations[..i];
  }

  /** What an AirNow request yields: its observations, or a failure (an HTTP
      error status or a transport error), which is logged. */
  datatype AirNowResponse = AirNowOk(observations: seq<AirNowObservation>) | AirNowFailed

  function AirNowResult(hasKey: bool, response: AirNowResponse): seq<Measurement> {
    if !hasKey then []
    else match response
      case AirNowOk(observations) => MapAll(observations)
      case AirNowFailed => []
  }

  /** Every kept AirNow observation is tagged AirNow, in country "US", with
      AQI and category either both set or both absent; none is invented. */
  lemma {:induction false} MapAllProperties(observations: seq<AirNowObservation>)
    ensures |MapAll(observations)| <= |observations|
    ensures forall k | 0 <= k < |MapAll(observations)| ::
      var m := MapAll(observations)[k];
      m.source == AirNow && m.country == "US" && (m.aqi.Some? <==> m.category.Some?)
  {
    if observations != [] {
      var init := observations[..|observations| - 1];
      MapAllProperties(init);
      var out := MapAll(observations);
      forall k | 0 <= k < |out|
        ensures out[k].source == AirNow && out[k].country == "US" && (out[k].aqi.Some? <==> out[k].category.Some?)
      {
        if k < |MapAll(init)| {
          assert out[k] == MapAll(init)[k];
        }
      }
    }
  }


  /** `get_airnow_current_observations`: no key gives []; otherwise the
      observations are mapped one by one. */
  method GetAirNowCurrentObservations(hasKey: bool, response: AirNowResponse)
    returns (measurements: seq<Measurement>)
    ensures measurements == AirNowResult(hasKey, response)
  {
    if !hasKey || response.AirNowFailed? {
      return [];
    }
    measurements := MapObservations(response.observations);
  }

  /** The loop of lines 154-200 over the returned observations. */
  method MapObservations(observations: seq<AirNowObservation>) returns (measurements: seq<Measurement>)
    ensures measurements == MapAll(observations)
  {
    measurements := [];
    var i := 0;
    while i < |observations|
      invariant 0 <= i <= |observations|
      invariant measurements == MapAll(observations[..i])
    {
      MapAllStep(observations, i);
      match MapAirNowObservation(observations[i]) {
        case Some(m) => measurements := measurements + [m];
        case None =>
      }
      i := i + 1;
    }
    assert observations[..|observations|] == observations;
  }


  // ---------------------------------------------------------------------------
  // _parse_openaq_v3_measurement

  /** The `location` entry of an OpenAQ result: absent, a plain string, or an
      object with optional name, label, city, state, region and coordinates. */
  datatype LocationField =
    | NoLocation
    | LocationText(text: string)
    | LocationObject(
        name: Option<string>,
        displayLabel: Option<string>,
        city: Option<string>,
        state: Option<string>,
        region: Option<string>,
        coordinates: map<string, real>)

  /** One OpenAQ v3 result. An absent `coordinates` is the empty map; `time`
      is the parsed `datetime` (or `date.utc`), None when absent or when
      parsing fails; the three id fields are already converted by `str`.
      `fetchedAt` is the clock reading taken while this record is parsed
      (line 380), its timestamp when it has no usable date. */
  datatype OpenAQRecord = OpenAQRecord(
    value: Option<real>,
    unit: string,
    coordinates: map<string, real>,
    location: LocationField,
    latitude: Option<real>,
    longitude: Option<real>,
    time: Option<DateTime>,
    locationId: Option<string>,
    locationIdCamel: Option<string>,
    id: Option<string>,
    fetchedAt: DateTime)

  /** Lines 364-371: a coordinates dictionary gives a point only when it has a
      latitude; a missing longitude reads as 0.0. */
  function PointOf(cd: map<string, real>): Option<(real, real)> {
    if "latitude" in cd then Some((cd["latitude"], if "longitude" in cd then cd["longitude"] else 0.0))
    else None
  }

  function LocationCoordinates(loc: LocationField): map<string, real> {
    if loc.LocationObject? then loc.coordinates else map[]
  }

  /** The coordinate chain of lines 350-371: the record's own non-empty
      `coordinates`, else those of its `location` object, else the top-level
      latitude and longitude. Reading `coordinates` from a text location
      raises, which the handler of line 435 turns into None even when the
      top-level pair is present. */
  function ResolvedPoint(rec: OpenAQRecord): (r: Option<(real, real)>)
    ensures rec.coordinates != map[] ==> r == PointOf(rec.coordinates)
    ensures rec.coordinates == map[] && rec.location.LocationText? ==> r == None
    ensures rec.coordinates == map[] && LocationCoordinates(rec.location) != map[] ==>
      r == PointOf(LocationCoordinates(rec.location))
    ensures rec.coordinates == map[] && !rec.location.LocationText? && LocationCoordinates(rec.location) == map[] ==>
      r == (if rec.latitude.Some? && rec.longitude.Some? then Some((rec.latitude.value, rec.longitude.value)) else None)
  {
    if rec.coordinates != map[] then PointOf(rec.coordinates)
    else if rec.location.LocationText? then None
    else
      var fromLocation := LocationCoordinates(rec.location);
      if fromLocation != map[] then PointOf(fromLocation)
      else if rec.latitude.Some? && rec.longitude.Some? then
        PointOf(map["latitude" := rec.latitude.value, "longitude" := rec.longitude.value])
      else None
  }

  /** Lines 401-410. */
  function LocationName(loc: LocationField): string {
    match loc
    case NoLocation => ""
    case LocationText(text) => text
    case LocationObject(name, displayLabel, _, _, _, _) => name.GetOr(displayLabel.GetOr(""))
  }

  /** Lines 413-415: `state or region` of a location object. */
  function LocationState(loc: LocationField): Option<string> {
    if loc.LocationObject? then (if Truthy(loc.state) then loc.state else loc.region) else None
  }

  /** Line 429: `location_id`, else `locationId`, else `id`, else "". */
  function SiteIdOf(rec: OpenAQRecord): string {
    rec.locationId.GetOr(rec.locationIdCamel.GetOr(rec.id.GetOr("")))
  }

  /** `_parse_openaq_v3_measurement`: None for an unknown parameter, a missing
      value, no latitude anywhere on the chain, or the point (0, 0); otherwise
      an OpenAQ measurement at the resolved point. */
  function ParseOpenAQMeasurement(rec: OpenAQRecord, parameter: string): (r: Option<Measurement>)
    ensures r.Some? <==>
      && ConvertPollutantName(parameter).Some?
      && rec.value.Some?
      && ResolvedPoint(rec).Some?
      && ResolvedPoint(rec).value != (0.0, 0.0)
    ensures r.Some? ==>
      && r.value.parameter == ConvertPollutantName(parameter).value
      && r.value.value == rec.value.value
      && (r.value.latitude, r.value.longitude) == ResolvedPoint(rec).value
      && r.value.source == OpenAQ && r.value.country == "US"
      && r.value.aqi.None? && r.value.category.None?
      && r.value.lastUpdated == rec.time.GetOr(rec.fetchedAt)
  {
    match ConvertPollutantName(parameter)
    case None => None
    case Some(pollutant) =>
      if rec.value.None? then None
      else match ResolvedPoint(rec)
        case None => None
        case Some(point) =>
          if point.0 == 0.0 && point.1 == 0.0 then None
          else
            Some(Measurement(
              parameter := pollutant,
              value := rec.value.value,
              unit := rec.unit,
              lastUpdated := rec.time.GetOr(rec.fetchedAt),
              aqi := None,
              category := None,
              latitude := point.0,
              longitude := point.1,
              locationName := LocationName(rec.location),
              city := if rec.location.LocationObject? then rec.location.city else None,
              state := LocationState(rec.location),
              country := "US",
              source := OpenAQ,
              siteId := SiteIdOf(rec)))
  }

  /** A text location with no record-level coordinates blocks the top-level
      latitude/longitude fallback. */
  lemma TextLocationBlocksTopLevelPoint(rec: OpenAQRecord, parameter: string)
    requires rec.coordinates == map[] && rec.location.LocationText?
    requires rec.latitude.Some? && rec.longitude.Some?
    ensures ParseOpenAQMeasurement(rec, parameter).None?
  {
  }

  // ---------------------------------------------------------------------------
  // get_openaq_measurements

  /** The parameters requested in turn, with their OpenAQ ids (lines 247-254). */
  const TargetParameters: seq<(string, nat)> :=
    [("pm25", 2), ("pm10", 1), ("no2", 8), ("o3", 7), ("so2", 21), ("co", 6)]

  /** The id table of `_get_parameter_id` (lines 323-330). */
  const ParameterIds: map<string, nat> :=
    map["o3" := 7, "no2" := 8, "pm25" := 2, "pm10" := 1, "so2" := 21, "co" := 6]

  /** `_get_parameter_id`: the OpenAQ id of a parameter, looked up by its
      lowercase form; unknown names have none. */
  function ParameterId(parameter: string): (r: Option<nat>)
  {
    var key := Lower(parameter);
    if key in ParameterIds then Some(ParameterIds[key]) else None
  }

  /** The id lookup agrees with the ids the polling loop sends, and knows no
      parameter the loop does not poll. */
  lemma ParameterIdsMatchPolledParameters(parameter: string)
    ensures forall i | 0 <= i < |TargetParameters| ::
      ParameterId(TargetParameters[i].0) == Some(TargetParameters[i].1)
    ensures ParameterId(parameter).Some? <==>
      exists i | 0 <= i < |TargetParameters| :: Lower(parameter) == TargetParameters[i].0
  {
    forall i | 0 <= i < |TargetParameters|
      ensures Lower(TargetParameters[i].0) == TargetParameters[i].0
    {
      var name := TargetParameters[i].0;
      assert forall j | 0 <= j < |name| :: 'a' <= name[j] <= 'z' || '0' <= name[j] <= '9';
    }
    var key := Lower(parameter);
    if key in ParameterIds {
      assert key == "o3" || key == "no2" || key == "pm25" || key == "pm10" || key == "so2" || key == "co";
      assert key == TargetParameters[0].0 || key == TargetParameters[1].0 || key == TargetParameters[2].0
        || key == TargetParameters[3].0 || key == TargetParameters[4].0 || key == TargetParameters[5].0;
    }
  }

  /** The id lookup ignores letter case. */
  lemma ParameterIdIgnoresCase(parameter: string)
    ensures ParameterId(Upper(parameter)) == ParameterId(parameter)
  {
    LowerOfUpper(parameter);
  }

  /** What the request for one parameter yields: a status code and, for 200,
      the `results` list; or a transport failure, which is logged. */
  datatype ParamResponse = Response(status: int, results: seq<OpenAQRecord>) | RequestFailed

  /** The measurements parsed from one `results` list, in order. */
  function ParseAll(results: seq<OpenAQRecord>, parameter: string): seq<Measurement> {
    if results == [] then []
    else
      var last := results[|results| - 1];
      ParseAll(results[..|results| - 1], parameter)
      + (match ParseOpenAQMeasurement(last, parameter) case Some(m) => [m] case None => [])
  }

  predicate OneResponsePerParameter(responses: seq<ParamResponse>) {
    |responses| == |TargetParameters|
  }

  /** The output of the parameter loop from parameter `i` on: a 401 ends the
      loop, any other non-200 status or a failure skips the parameter. */
  function PollFrom(responses: seq<ParamResponse>, i: nat): seq<Measurement>
    requires OneResponsePerParameter(responses) && i <= |responses|
    decreases |responses| - i
  {
    if i == |responses| then []
    else match responses[i]
      case RequestFailed => PollFrom(responses, i + 1)
      case Response(status, results) =>
        if status == 401 then []
        else if status != 200 then PollFrom(responses, i + 1)
        else ParseAll(results, TargetParameters[i].0) + PollFrom(responses, i + 1)
  }

  function OpenAQResult(hasKey: bool, responses: seq<ParamResponse>): seq<Measurement>
    requires OneResponsePerParameter(responses)
  {
    if hasKey then PollFrom(responses, 0) else []
  }

  /** The loop of lines 292-300 over one `results` list. */
  method ParseResults(results: seq<OpenAQRecord>, parameter: string)
    returns (measurements: seq<Measurement>)
    ensures measurements == ParseAll(results, parameter)
  {
    measurements := [];
    var j := 0;
    while j < |results|
      invariant 0 <= j <= |results|
      invariant measurements == ParseAll(results[..j], parameter)
    {
      assert results[..j + 1][..j] == results[..j];
      var m := ParseOpenAQMeasurement(results[j], parameter);
      if m.Some? {
        measurements := measurements + [m.value];
      }
      j := j + 1;
    }
    assert results[..|results|] == results;
  }

  /** What the request for parameter `i` contributes when it is not a 401. */
  function StepOutput(responses: seq<ParamResponse>, i: nat): seq<Measurement>
    requires OneResponsePerParameter(responses) && i < |responses|
  {
    if responses[i].Response? && responses[i].status == 200
    then ParseAll(responses[i].results, TargetParameters[i].0)
    else []
  }

  lemma PollFromStep(responses: seq<ParamResponse>, i: nat)
    requires OneResponsePerParameter(responses) && i < |responses|
    ensures responses[i].Response? && responses[i].status == 401 ==> PollFrom(responses, i) == []
    ensures !(responses[i].Response? && responses[i].status == 401) ==>
      PollFrom(responses, i) == StepOutput(responses, i) + PollFrom(responses, i + 1)
  {
  }

  /** `get_openaq_measurements`: one request per target parameter, in order. */
  method GetOpenAQMeasurements(hasKey: bool, responses: seq<ParamResponse>)
    returns (measurements: seq<Measurement>)
    requires OneResponsePerParameter(responses)
    ensures measurements == OpenAQResult(hasKey, responses)
  {
    measurements := [];
    if !hasKey {
      return;
    }
    ghost var total := PollFrom(responses, 0);
    var i := 0;
    while i < |responses|
      invariant 0 <= i <= |responses|
      invariant measurements + PollFrom(responses, i) == total
    {
      PollFromStep(responses, i);
      var response := responses[i];
      if response.Response? && response.status == 401 {
        assert measurements == total;
        break;
      }
      var parsed := [];
      if response.Response? && response.status == 200 {
        parsed := ParseResults(response.results, TargetParameters[i].0);
      }
      assert parsed == StepOutput(responses, i);
      ghost var rest := PollFrom(responses, i + 1);
      assert (measurements + parsed) + rest == measurements + (parsed + rest);
      measurements := measurements + parsed;
      i := i + 1;
      if i == |responses| {
        assert measurements == total;
      }
    }
  }

  /** Once a parameter answers 401, the responses to the later parameters
      make no difference: they are never requested. */
  lemma {:induction false} PollStopsAt401(r1: seq<ParamResponse>, r2: seq<ParamResponse>, i: nat, start: nat)
    requires OneResponsePerParameter(r1) && OneResponsePerParameter(r2)
    requires start <= i < |r1| && r1[..i + 1] == r2[..i + 1]
    requires r1[i].Response? && r1[i].status == 401
    ensures PollFrom(r1, start) == PollFrom(r2, start)
    decreases i - start
  {
    assert r1[start] == r1[..i + 1][start] == r2[..i + 1][start] == r2[start];
    if start < i {
      PollStopsAt401(r1, r2, i, start + 1);
    }
  }

  /** A parameter answered with a status other than 200 and 401, or whose
      request failed, contributes exactly what an empty 200 answer would:
      nothing, and the loop goes on. */
  lemma {:induction false} PollSkipsFailedParameter(responses: seq<ParamResponse>, i: nat, start: nat)
    requires OneResponsePerParameter(responses) && start <= i < |responses|
    requires responses[i].RequestFailed? || (responses[i].status != 200 && responses[i].status != 401)
    ensures PollFrom(responses, start) == PollFrom(responses[i := Response(200, [])], start)
    decreases i - start
  {
    var other := responses[i := Response(200, [])];
    if start < i {
      PollSkipsFailedParameter(responses, i, start + 1);
    } else {
      assert PollFrom(other, i) == ParseAll([], TargetParameters[i].0) + PollFrom(other, i + 1);
      assert PollFrom(other, i + 1) == PollFrom(responses, i + 1) by {
        SameTail(responses, other, i + 1);
      }
    }
  }

  lemma {:induction false} SameTail(r1: seq<ParamResponse>, r2: seq<ParamResponse>, start: nat)
    requires OneResponsePerParameter(r1) && OneResponsePerParameter(r2) && start <= |r1|
    requires r1[start..] == r2[start..]
    ensures PollFrom(r1, start) == PollFrom(r2, start)
    decreases |r1| - start
  {
    if start < |r1| {
      assert r1[start] == r1[start..][0] == r2[start..][0] == r2[start];
      assert r1[start + 1..] == r1[start..][1..];
      assert r2[start + 1..] == r2[start..][1..];
      SameTail(r1, r2, start + 1);
    }
  }

  /** A measurement accepted from an OpenAQ result. */
  predicate AcceptedOpenAQ(m: Measurement) {
    m.source == OpenAQ && m.country == "US" && (m.latitude, m.longitude) != (0.0, 0.0)
  }

  lemma {:induction false} ParseAllAccepted(results: seq<OpenAQRecord>, parameter: string)
    ensures |ParseAll(results, parameter)| <= |results|
    ensures forall k | 0 <= k < |ParseAll(results, parameter)| :: AcceptedOpenAQ(ParseAll(results, parameter)[k])
  {
    if results != [] {
      var init := results[..|results| - 1];
      ParseAllAccepted(init, parameter);
      var out := ParseAll(results, parameter);
      forall k | 0 <= k < |out| ensures AcceptedOpenAQ(out[k]) {
        if k < |ParseAll(init, parameter)| {
          assert out[k] == ParseAll(init, parameter)[k];
        }
      }
    }
  }

  /** Everything the parameter loop collects is an accepted OpenAQ measurement. */
  lemma {:induction false} PollFromAccepted(responses: seq<ParamResponse>, i: nat)
    requires OneResponsePerParameter(responses) && i <= |responses|
    ensures forall k | 0 <= k < |PollFrom(responses, i)| :: AcceptedOpenAQ(PollFrom(responses, i)[k])
    decreases |responses| - i
  {
    if i < |responses| {
      PollFromAccepted(responses, i + 1);
      if responses[i].Response? && responses[i].status == 200 {
        var parsed := ParseAll(responses[i].results, TargetParameters[i].0);
        ParseAllAccepted(responses[i].results, TargetParameters[i].0);
        var out := PollFrom(responses, i);
        var rest := PollFrom(responses, i + 1);
        assert out == parsed + rest;
        forall k | 0 <= k < |out| ensures AcceptedOpenAQ(out[k]) {
          if k < |parsed| {
            assert out[k] == parsed[k];
          } else {
            assert out[k] == rest[k - |parsed|];
          }
        }
      }
    }
  }

  // ---------------------------------------------------------------------------
  // Deduplication (extract_all_data, lines 519-528)

  /** The key of line 523: latitude, longitude, parameter and ISO timestamp. */
  datatype DedupKey = DedupKey(latitude: real, longitude: real, parameter: Pollutant, lastUpdated: DateTime)

  function KeyOf(m: Measurement): DedupKey {
    DedupKey(m.latitude, m.longitude, m.parameter, m.lastUpdated)
  }

  function KeySet(ms: seq<Measurement>): set<DedupKey> {
    set m | m in ms :: KeyOf(m)
  }

  /** First-seen-wins deduplication: a measurement is kept iff no earlier
      measurement has its key. */
  function Dedup(ms: seq<Measurement>): seq<Measurement> {
    if ms == [] then []
    else
      var init := ms[..|ms| - 1];
      var last := ms[|ms| - 1];
      Dedup(init) + (if KeyOf(last) in KeySet(init) then [] else [last])
  }

  predicate DistinctKeys(ms: seq<Measurement>) {
    forall i, j | 0 <= i < j < |ms| :: KeyOf(ms[i]) != KeyOf(ms[j])
  }

  lemma KeySetAppend(ms: seq<Measurement>, m: Measurement)
    ensures KeySet(ms + [m]) == KeySet(ms) + {KeyOf(m)}
  {
    assert forall x | x in ms + [m] :: x in ms || x == m;
  }

  /** Deduplication keeps no two measurements with the same key, keeps one
      measurement for every key, and keeps them in input order. */
  lemma {:induction false} DedupProperties(ms: seq<Measurement>)
    ensures DistinctKeys(Dedup(ms))
    ensures KeySet(Dedup(ms)) == KeySet(ms)
    ensures IsSubsequence(Dedup(ms), ms)
  {
    if ms != [] {
      var init := ms[..|ms| - 1];
      var last := ms[|ms| - 1];
      DedupProperties(init);
      assert ms == init + [last];
      KeySetAppend(init, last);
      var d := Dedup(init);
      if KeyOf(last) !in KeySet(init) {
        KeySetAppend(d, last);
        assert Dedup(ms) == d + [last];
        assert Dedup(ms)[..|Dedup(ms)| - 1] == d;
        forall i, j | 0 <= i < j < |d| + 1 ensures KeyOf((d + [last])[i]) != KeyOf((d + [last])[j]) {
          if j == |d| {
            assert d[i] in d;
          } else {
            assert (d + [last])[i] == d[i] && (d + [last])[j] == d[j];
          }
        }
      } else {
        assert Dedup(ms) == d;
      }
    }
  }

  /** In a list with distinct keys, the last key occurs nowhere before it,
      and the list without its last element still has distinct keys. */
  lemma DistinctKeysInit(ms: seq<Measurement>)
    requires ms != [] && DistinctKeys(ms)
    ensures DistinctKeys(ms[..|ms| - 1])
    ensures KeyOf(ms[|ms| - 1]) !in KeySet(ms[..|ms| - 1])
  {
    var init := ms[..|ms| - 1];
    forall i, j | 0 <= i < j < |init| ensures KeyOf(init[i]) != KeyOf(init[j]) {
      assert init[i] == ms[i] && init[j] == ms[j];
    }
    forall x | x in init ensures KeyOf(x) != KeyOf(ms[|ms| - 1]) {
      var i :| 0 <= i < |init| && init[i] == x;
      assert ms[i] == x;
    }
  }

  /** A list whose keys are already distinct is left as it is. */
  lemma {:induction false} DedupOfDistinct(ms: seq<Measurement>)
    requires DistinctKeys(ms)
    ensures Dedup(ms) == ms
  {
    if ms != [] {
      var init := ms[..|ms| - 1];
      var last := ms[|ms| - 1];
      DistinctKeysInit(ms);
      DedupOfDistinct(init);
      DedupFreshLast(ms);
      InitLast(ms);
    }
  }

  /** A last measurement whose key is new is kept after the earlier ones. */
  lemma DedupFreshLast(ms: seq<Measurement>)
    requires ms != [] && KeyOf(ms[|ms| - 1]) !in KeySet(ms[..|ms| - 1])
    ensures Dedup(ms) == Dedup(ms[..|ms| - 1]) + [ms[|ms| - 1]]
  {
  }

  /** Deduplicating twice is deduplicating once. */
  lemma DedupIdempotent(ms: seq<Measurement>)
    ensures Dedup(Dedup(ms)) == Dedup(ms)
  {
    DedupProperties(ms);
    DedupOfDistinct(Dedup(ms));
  }

  /** The first measurement with a given key is the one kept. */
  lemma {:induction false} DedupKeepsFirstOccurrence(ms: seq<Measurement>, i: nat)
    requires i < |ms| && KeyOf(ms[i]) !in KeySet(ms[..i])
    ensures ms[i] in Dedup(ms)
  {
    var init := ms[..|ms| - 1];
    if i == |ms| - 1 {
      assert ms[..i] == init;
    } else {
      assert init[..i] == ms[..i] && init[i] == ms[i];
      DedupKeepsFirstOccurrence(init, i);
    }
  }

  /** The dedup loop of lines 520-528, with its `seen` set. */
  method DeduplicateOpenAQ(ms: seq<Measurement>) returns (unique: seq<Measurement>)
    ensures unique == Dedup(ms)
  {
    unique := [];
    var seen: set<DedupKey> := {};
    var i := 0;
    while i < |ms|
      invariant 0 <= i <= |ms|
      invariant unique == Dedup(ms[..i])
      invariant seen == KeySet(ms[..i])
    {
      DedupStep(ms, i);
      var key := KeyOf(ms[i]);
      if key !in seen {
        seen := seen + {key};
        unique := unique + [ms[i]];
      }
      i := i + 1;
    }
    assert ms[..|ms|] == ms;
  }

  /** One more measurement: it is kept iff its key is new, and its key
      joins the keys seen. */
  lemma DedupStep(ms: seq<Measurement>, i: nat)
    requires i < |ms|
    ensures Dedup(ms[..i + 1])
      == Dedup(ms[..i]) + (if KeyOf(ms[i]) in KeySet(ms[..i]) then [] else [ms[i]])
    ensures KeySet(ms[..i + 1]) == KeySet(ms[..i]) + {KeyOf(ms[i])}
  {
    assert ms[..i + 1] == ms[..i] + [ms[i]];
    assert ms[..i + 1][..i] == ms[..i];
    KeySetAppend(ms[..i], ms[i]);
  }

  /** Two measurements are both kept iff their keys differ. */
  lemma DedupOfTwo(x: Measurement, y: Measurement)
    ensures Dedup([x, y]) == if KeyOf(x) == KeyOf(y) then [x] else [x, y]
  {
    assert [x, y][..1] == [x] && [x][..0] == [];
    assert KeySet([]) == {};
    assert Dedup([x]) == [x];
    assert KeySet([x]) == {KeyOf(x)};
  }

  /** An undated record parsed at clock reading `t` is keyed at `t`. */
  lemma UndatedKeyedAtReading(rec: OpenAQRecord, parameter: string, t: DateTime)
    requires rec.time.None? && ParseOpenAQMeasurement(rec, parameter).Some?
    ensures ParseOpenAQMeasurement(rec.(fetchedAt := t), parameter).Some?
    ensures KeyOf(ParseOpenAQMeasurement(rec.(fetchedAt := t), parameter).value)
      == KeyOf(ParseOpenAQMeasurement(rec, parameter).value).(lastUpdated := t)
  {
    assert ResolvedPoint(rec.(fetchedAt := t)) == ResolvedPoint(rec);
  }

  /** Two records that both parse give their two measurements, in order. */
  lemma ParseAllOfTwo(a: OpenAQRecord, b: OpenAQRecord, parameter: string)
    requires ParseOpenAQMeasurement(a, parameter).Some? && ParseOpenAQMeasurement(b, parameter).Some?
    ensures ParseAll([a, b], parameter)
      == [ParseOpenAQMeasurement(a, parameter).value, ParseOpenAQMeasurement(b, parameter).value]
  {
    assert [a, b][..1] == [a] && [a][..0] == [];
    assert ParseAll([a], parameter) == [ParseOpenAQMeasurement(a, parameter).value];
  }

  /** An undated record returned twice is kept twice unless both copies were
      parsed at the same clock reading: each copy takes its own reading as
      its timestamp, and the timestamp is part of the key. */
  lemma UndatedRepeatKeptUnlessSameReading(rec: OpenAQRecord, parameter: string, t1: DateTime, t2: DateTime)
    requires rec.time.None? && ParseOpenAQMeasurement(rec, parameter).Some?
    ensures var ms := ParseAll([rec.(fetchedAt := t1), rec.(fetchedAt := t2)], parameter);
      |ms| == 2 && (|Dedup(ms)| == 2 <==> t1 != t2)
  {
    var a, b := rec.(fetchedAt := t1), rec.(fetchedAt := t2);
    UndatedKeyedAtReading(rec, parameter, t1);
    UndatedKeyedAtReading(rec, parameter, t2);
    ParseAllOfTwo(a, b, parameter);
    DedupOfTwo(ParseOpenAQMeasurement(a, parameter).value, ParseOpenAQMeasurement(b, parameter).value);
  }

  /** A record whose date parses to `d` is keyed at `d`. */
  lemma DatedKeyedAtTime(rec: OpenAQRecord, parameter: string, d: DateTime)
    requires ParseOpenAQMeasurement(rec, parameter).Some?
    ensures ParseOpenAQMeasurement(rec.(time := Some(d)), parameter).Some?
    ensures KeyOf(ParseOpenAQMeasurement(rec.(time := Some(d)), parameter).value)
      == KeyOf(ParseOpenAQMeasurement(rec, parameter).value).(lastUpdated := d)
  {
    assert ResolvedPoint(rec.(time := Some(d))) == ResolvedPoint(rec);
  }

  /** A record returned twice with two dates is kept twice unless the two
      parsed dates are the same `datetime`, offset included. */
  lemma DatedRepeatKeptUnlessSameTime(rec: OpenAQRecord, parameter: string, d1: DateTime, d2: DateTime)
    requires ParseOpenAQMeasurement(rec, parameter).Some?
    ensures var ms := ParseAll([rec.(time := Some(d1)), rec.(time := Some(d2))], parameter);
      |ms| == 2 && (|Dedup(ms)| == 2 <==> d1 != d2)
  {
    var a, b := rec.(time := Some(d1)), rec.(time := Some(d2));
    DatedKeyedAtTime(rec, parameter, d1);
    DatedKeyedAtTime(rec, parameter, d2);
    ParseAllOfTwo(a, b, parameter);
    DedupOfTwo(ParseOpenAQMeasurement(a, parameter).value, ParseOpenAQMeasurement(b, parameter).value);
  }

  /** The instant a `datetime` denotes, in microseconds since the epoch, UTC
      (a naive one is read as UTC). */
  function InstantOf(d: DateTime): int {
    d.wallMicros - d.utcOffset.GetOr(0) * 1000000
  }

  /** "10:00-06:00" and "16:00+00:00" name one instant, yet a record returned
      with each of them is kept twice. */
  lemma SameInstantTwoOffsetsKeptTwice(rec: OpenAQRecord, parameter: string)
    requires ParseOpenAQMeasurement(rec, parameter).Some?
    ensures var d1, d2 := DateTime(10 * 3600 * 1000000, Some(-6 * 3600)), DateTime(16 * 3600 * 1000000, Some(0));
      && InstantOf(d1) == InstantOf(d2)
      && |Dedup(ParseAll([rec.(time := Some(d1)), rec.(time := Some(d2))], parameter))| == 2
  {
    DatedRepeatKeptUnlessSameTime(rec, parameter, DateTime(10 * 3600 * 1000000, Some(-6 * 3600)), DateTime(16 * 3600 * 1000000, Some(0)));
  }

  /** Two undated copies parsed one microsecond apart are both kept. */
  lemma ReadingsWithinOneSecondKeptApart(rec: OpenAQRecord, parameter: string, t: int)
    requires rec.time.None? && ParseOpenAQMeasurement(rec, parameter).Some?
    ensures |Dedup(ParseAll([rec.(fetchedAt := DateTime(t, None)), rec.(fetchedAt := DateTime(t + 1, None))], parameter))| == 2
  {
    UndatedRepeatKeptUnlessSameReading(rec, parameter, DateTime(t, None), DateTime(t + 1, None));
  }

  // ---------------------------------------------------------------------------
  // extract_all_data

  /** The four AirNow regions, then the general OpenAQ run and the ten city
      runs: what each provider request answered, in the order issued. */
  function AirNowCombined(responses: seq<AirNowResponse>): seq<Measurement> {
    if responses == [] then []
    else
      AirNowCombined(responses[..|responses| - 1])
      + AirNowResult(true, responses[|responses| - 1])
  }

  predicate WellShapedRuns(runs: seq<seq<ParamResponse>>) {
    forall k | 0 <= k < |runs| :: OneResponsePerParameter(runs[k])
  }

  function OpenAQCombined(runs: seq<seq<ParamResponse>>): seq<Measurement>
    requires WellShapedRuns(runs)
  {
    if runs == [] then []
    else
      OpenAQCombined(runs[..|runs| - 1]) + OpenAQResult(true, runs[|runs| - 1])
  }

  /** A tag in `active_sources`. */
  datatype ActiveSource = AirNowSource | OpenAQSource | MockSource

  function SourceRank(s: ActiveSource): nat {
    match s
    case AirNowSource => 0
    case OpenAQSource => 1
    case MockSource => 2
  }

  /** Lines 563-569: the sources that produced data, airnow, openaq, mock. */
  function ActiveSources(airnow: seq<Measurement>, openaq: seq<Measurement>, mock: seq<Measurement>): (r: seq<ActiveSource>)
    ensures AirNowSource in r <==> airnow != []
    ensures OpenAQSource in r <==> openaq != []
    ensures MockSource in r <==> mock != []
    ensures forall i, j | 0 <= i < j < |r| :: SourceRank(r[i]) < SourceRank(r[j])
  {
    (if airnow != [] then [AirNowSource] else [])
    + (if openaq != [] then [OpenAQSource] else [])
    + (if mock != [] then [MockSource] else [])
  }

  const NoDataError: string := "No data extracted from any source"

  /** The fields of the run-status record, as one value. */
  datatype StatusView = StatusView(
    total: nat,
    successful: nat,
    failed: nat,
    lastExtraction: Option<Timestamp>,
    nextExtraction: Option<Timestamp>,
    activeSources: seq<ActiveSource>,
    lastError: Option<string>)

  /** Every run counts either as a success or as a failure. */
  predicate ViewValid(v: StatusView) {
    v.successful + v.failed == v.total
  }

  /** The status after one `extract_all_data` (lines 440-583): the run is
      counted; an exception from the mock fallback counts a failure and
      stores its message; otherwise the run counts as a success iff anything
      was extracted, and is stamped with its active sources. */
  function AfterExtraction(v: StatusView, airnow: seq<Measurement>, openaq: seq<Measurement>,
                           mock: seq<Measurement>, mockFailure: Option<string>, now: Timestamp): StatusView
  {
    var counted := v.(total := v.total + 1);
    if airnow == [] && openaq == [] && mockFailure.Some? then
      counted.(failed := v.failed + 1, lastError := mockFailure)
    else if |airnow| + |openaq| + |mock| > 0 then
      counted.(successful := v.successful + 1, lastError := None,
               lastExtraction := Some(now), activeSources := ActiveSources(airnow, openaq, mock))
    else
      counted.(failed := v.failed + 1, lastError := Some(NoDataError),
               lastExtraction := Some(now), activeSources := ActiveSources(airnow, openaq, mock))
  }

  /** One extraction counts exactly one run, as a success or as a failure,
      keeps the counters consistent and never touches the next-run time. */
  lemma AfterExtractionProperties(v: StatusView, airnow: seq<Measurement>, openaq: seq<Measurement>,
                                  mock: seq<Measurement>, mockFailure: Option<string>, now: Timestamp)
    ensures var r := AfterExtraction(v, airnow, openaq, mock, mockFailure, now);
      && r.total == v.total + 1
      && ((r.successful == v.successful + 1 && r.failed == v.failed)
          || (r.successful == v.successful && r.failed == v.failed + 1))
      && (ViewValid(v) ==> ViewValid(r))
      && r.nextExtraction == v.nextExtraction
      && (r.lastError.None? <==> r.successful == v.successful + 1)
      && (airnow == [] && openaq == [] && mockFailure.Some? ==>
            r.lastError == mockFailure && r.lastExtraction == v.lastExtraction && r.activeSources == v.activeSources)
      && (!(airnow == [] && openaq == [] && mockFailure.Some?) ==>
            && (r.successful == v.successful + 1 <==> |airnow| + |openaq| + |mock| > 0)
            && (|airnow| + |openaq| + |mock| == 0 ==> r.lastError == Some(NoDataError))
            && r.lastExtraction == Some(now)
            && r.activeSources == ActiveSources(airnow, openaq, mock))
  {
  }

  /** The run-status record (`DataExtractionStatus`). */
  class ExtractionStatus {
    var totalExtractions: nat
    var successfulExtractions: nat
    var failedExtractions: nat
    var lastExtraction: Option<Timestamp>
    var nextExtraction: Option<Timestamp>
    var activeSources: seq<ActiveSource>
    var lastError: Option<string>

    /** Every run counts either as a success or as a failure. */
    ghost predicate Valid()
      reads this
    {
      successfulExtractions + failedExtractions == totalExtractions
    }

    function View(): StatusView
      reads this
    {
      StatusView(totalExtractions, successfulExtractions, failedExtractions,
                 lastExtraction, nextExtraction, activeSources, lastError)
    }

    constructor()
      ensures Valid()
      ensures totalExtractions == 0 && successfulExtractions == 0 && failedExtractions == 0
      ensures lastExtraction.None? && nextExtraction.None? && activeSources == [] && lastError.None?
    {
      totalExtractions, successfulExtractions, failedExtractions := 0, 0, 0;
      lastExtraction, nextExtraction := None, None;
      activeSources := [];
      lastError := None;
    }

    /** Lines 551-571: the run counts as a success when anything was
        extracted, as a failure otherwise; it is stamped and its active
        sources are recorded. */
    method RecordRun(airnow: seq<Measurement>, openaq: seq<Measurement>, mock: seq<Measurement>, now: Timestamp)
      modifies this
      ensures totalExtractions == old(totalExtractions) && nextExtraction == old(nextExtraction)
      ensures |airnow| + |openaq| + |mock| > 0 ==>
        && successfulExtractions == old(successfulExtractions) + 1
        && failedExtractions == old(failedExtractions)
        && lastError.None?
      ensures |airnow| + |openaq| + |mock| == 0 ==>
        && successfulExtractions == old(successfulExtractions)
        && failedExtractions == old(failedExtractions) + 1
        && lastError == Some(NoDataError)
      ensures lastExtraction == Some(now)
      ensures activeSources == ActiveSources(airnow, openaq, mock)
    {
      if |airnow| + |openaq| + |mock| > 0 {
        successfulExtractions := successfulExtractions + 1;
        lastError := None;
      } else {
        failedExtractions := failedExtractions + 1;
        lastError := Some(NoDataError);
      }
      lastExtraction := Some(now);
      activeSources := ActiveSources(airnow, openaq, mock);
    }

    /** The status updates of one `extract_all_data`: the run is counted,
        then recorded as failed by the mock fallback's exception or by
        `RecordRun`. */
    method RecordExtraction(airnow: seq<Measurement>, openaq: seq<Measurement>, mock: seq<Measurement>,
                            mockFailure: Option<string>, now: Timestamp)
      requires Valid()
      modifies this
      ensures Valid()
      ensures View() == AfterExtraction(old(View()), airnow, openaq, mock, mockFailure, now)
    {
      totalExtractions := totalExtractions + 1;
      ghost var counted := View();
      if airnow == [] && openaq == [] && mockFailure.Some? {
        RecordFailure(mockFailure.value);
        assert View() == counted.(failed := counted.failed + 1, lastError := mockFailure);
      } else {
        RecordRun(airnow, openaq, mock, now);
      }
    }

    /** Lines 578-581: an exception counts the run as failed and is recorded. */
    method RecordFailure(error: string)
      modifies this
      ensures failedExtractions == old(failedExtractions) + 1 && lastError == Some(error)
      ensures totalExtractions == old(totalExtractions) && successfulExtractions == old(successfulExtractions)
      ensures lastExtraction == old(lastExtraction) && nextExtraction == old(nextExtraction)
      ensures activeSources == old(activeSources)
    {
      failedExtractions := failedExtractions + 1;
      lastError := Some(error);
    }
  }

  /** The client: its two API keys (read from the environment) and its status. */
  class AirQualityApiClient {
    const airnowKey: string
    const openaqKey: string
    const status: ExtractionStatus
    /** Whether the shared HTTP client has been closed (`__aexit__`, line 64);
        every request made through a closed client raises. */
    var httpClosed: bool

    constructor(airnowKey: string, openaqKey: string)
      ensures this.airnowKey == airnowKey && this.openaqKey == openaqKey
      ensures fresh(status) && status.Valid() && status.totalExtractions == 0
      ensures !httpClosed
    {
      this.airnowKey := airnowKey;
      this.openaqKey := openaqKey;
      status := new ExtractionStatus();
      httpClosed := false;
    }

    /** `__aexit__`: close the HTTP client. */
    method Close()
      modifies this
      ensures httpClosed
    {
      httpClosed := true;
    }

    /** The loop of lines 471-475 over the four regions' results. */
    static method CollectAirNow(responses: seq<AirNowResponse>) returns (ms: seq<Measurement>)
      ensures ms == AirNowCombined(responses)
    {
      ms := [];
      var i := 0;
      while i < |responses|
        invariant 0 <= i <= |responses|
        invariant ms == AirNowCombined(responses[..i])
      {
        assert responses[..i + 1][..i] == responses[..i];
        var part := GetAirNowCurrentObservations(true, responses[i]);
        ms := ms + part;
        i := i + 1;
      }
      assert responses[..|responses|] == responses;
    }

    /** Lines 482-517: the general run, then one run per major city. */
    static method CollectOpenAQ(runs: seq<seq<ParamResponse>>) returns (ms: seq<Measurement>)
      requires WellShapedRuns(runs)
      ensures ms == OpenAQCombined(runs)
    {
      ms := [];
      var i := 0;
      while i < |runs|
        invariant 0 <= i <= |runs|
        invariant ms == OpenAQCombined(runs[..i])
      {
        assert runs[..i + 1][..i] == runs[..i];
        var part := GetOpenAQMeasurements(true, runs[i]);
        ms := ms + part;
        i := i + 1;
      }
      assert runs[..|runs|] == runs;
    }

    /** `extract_all_data`. `mockFailure` is the exception, if any, raised
        while the mock fallback is being produced; it is caught at line 578.
        Through a closed HTTP client every request raises, and the handlers
        of lines 204 and 310 turn that into empty results. */
    method ExtractAllData(
      airnowResponses: seq<AirNowResponse>,
      openaqRuns: seq<seq<ParamResponse>>,
      mockDraws: seq<MockDataGenerator.MockDraw>,
      mockFailure: Option<string>,
      now: Timestamp)
      returns (airnow: seq<Measurement>, openaq: seq<Measurement>, mock: seq<Measurement>)
      requires status.Valid()
      requires |airnowResponses| == 4 && |openaqRuns| == 11 && WellShapedRuns(openaqRuns)
      requires |mockDraws| == 50 && MockDataGenerator.ValidDraws(mockDraws)
      modifies status
      ensures status.Valid()
      ensures airnow == (if airnowKey != "" && !httpClosed then AirNowCombined(airnowResponses) else [])
      ensures openaq == (if openaqKey != "" && !httpClosed then Dedup(OpenAQCombined(openaqRuns)) else [])
      ensures mock == (if airnow == [] && openaq == [] && mockFailure.None? then MockDataGenerator.Generated(mockDraws) else [])
      ensures status.View() == AfterExtraction(old(status.View()), airnow, openaq, mock, mockFailure, now)
    {
      airnow, openaq := CollectRealData(airnowKey != "" && !httpClosed, openaqKey != "" && !httpClosed,
                                        airnowResponses, openaqRuns);
      mock := [];
      if airnow == [] && openaq == [] && mockFailure.None? {
        mock := MockDataGenerator.GenerateMeasurements(50, mockDraws);
      }
      status.RecordExtraction(airnow, openaq, mock, mockFailure, now);
    }

    /** Lines 454-529: the AirNow regions when AirNow is enabled, then the
        OpenAQ runs, deduplicated, when OpenAQ is enabled. */
    static method CollectRealData(
      airnowEnabled: bool,
      openaqEnabled: bool,
      airnowResponses: seq<AirNowResponse>,
      openaqRuns: seq<seq<ParamResponse>>)
      returns (airnow: seq<Measurement>, openaq: seq<Measurement>)
      requires WellShapedRuns(openaqRuns)
      ensures airnow == (if airnowEnabled then AirNowCombined(airnowResponses) else [])
      ensures openaq == (if openaqEnabled then Dedup(OpenAQCombined(openaqRuns)) else [])
    {
      airnow, openaq := [], [];
      if airnowEnabled {
        airnow := CollectAirNow(airnowResponses);
      }
      if openaqEnabled {
        var collected := CollectOpenAQ(openaqRuns);
        openaq := DeduplicateOpenAQ(collected);
      }
    }
  }

  // ---------------------------------------------------------------------------
  // save_data_to_json

  /** `save_data_to_json`: one file per non-empty list, in the order airnow,
      openaq, mock, each named after its source and holding its count. */
  function SaveDataToJson(airnow: seq<Measurement>, openaq: seq<Measurement>, mock: seq<Measurement>, timestamp: string)
    : (r: seq<SnapshotFile>)
    ensures |r| == (if airnow != [] then 1 else 0) + (if openaq != [] then 1 else 0) + (if mock != [] then 1 else 0)
    ensures forall i, j | 0 <= i < j < |r| :: r[i].source != r[j].source
    ensures forall f | f in r :: f.count > 0 && f.fileName == SnapshotName(f.source, timestamp)
    ensures (exists f | f in r :: f.source == "airnow") <==> airnow != []
    ensures (exists f | f in r :: f.source == "openaq") <==> openaq != []
    ensures (exists f | f in r :: f.source == "mock") <==> mock != []
    ensures forall f | f in r ::
      || (f.source == "airnow" && f.count == |airnow|)
      || (f.source == "openaq" && f.count == |openaq|)
      || (f.source == "mock" && f.count == |mock|)
  {
    var a := SnapshotFile(SnapshotName("airnow", timestamp), "airnow", |airnow|);
    var o := SnapshotFile(SnapshotName("openaq", timestamp), "openaq", |openaq|);
    var m := SnapshotFile(SnapshotName("mock", timestamp), "mock", |mock|);
    if airnow != [] then
      if openaq != [] then (if mock != [] then [a, o, m] else [a, o])
      else (if mock != [] then [a, m] else [a])
    else
      if openaq != [] then (if mock != [] then [o, m] else [o])
      else (if mock != [] then [m] else [])
  }
}
