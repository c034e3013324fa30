/** The synthetic measurement generator (src/mock_data_generator.py): a simplified
    AQI interpolation over contiguous breakpoint brackets, the generation loop
    with its random draws made explicit, and the per-source split that
    `save_mock_data` writes out. */
module MockDataGenerator {
  import opened Wrappers
  import opened Text
  import opened Measurements
  import opened Sequences

  // ---------------------------------------------------------------------------
  // Reference tables

  datatype City = City(name: string, state: string, lat: real, lon: real)

  /** The twenty reference cities (mock_data_generator.py:18-39). */
  const Cities: seq<City> := [
    City("New York", "NY", 40.7128, -74.0060),
    City("Los Angeles", "CA", 34.0522, -118.2437),
    City("Chicago", "IL", 41.8781, -87.6298),
    City("Houston", "TX", 29.7604, -95.3698),
    City("Phoenix", "AZ", 33.4484, -112.0740),
    City("Philadelphia", "PA", 39.9526, -75.1652),
    City("San Antonio", "TX", 29.4241, -98.4936),
    City("San Diego", "CA", 32.7157, -117.1611),
    City("Dallas", "TX", 32.7767, -96.7970),
    City("San Jose", "CA", 37.3382, -121.8863),
    City("Austin", "TX", 30.2672, -97.7431),
    City("Jacksonville", "FL", 30.3322, -81.6557),
    City("Fort Worth", "TX", 32.7555, -97.3308),
    City("Columbus", "OH", 39.9612, -82.9988),
    City("Charlotte", "NC", 35.2271, -80.8431),
    City("San Francisco", "CA", 37.7749, -122.4194),
    City("Indianapolis", "IN", 39.7684, -86.1581),
    City("Seattle", "WA", 47.6062, -122.3321),
    City("Denver", "CO", 39.7392, -104.9903),
    City("Washington", "DC", 38.9072, -77.0369)
  ]

  datatype PollutantRange = PollutantRange(min: real, max: real, unit: string)

  /** Concentration ranges per pollutant; HCHO has none (lines 42-49). */
  const PollutantRanges: map<Pollutant, PollutantRange> := map[
    Ozone := PollutantRange(10.0, 180.0, "ppb"),
    NO2 := PollutantRange(5.0, 100.0, "ppb"),
    PM25 := PollutantRange(2.0, 55.0, "µg/m³"),
    PM10 := PollutantRange(5.0, 150.0, "µg/m³"),
    SO2 := PollutantRange(1.0, 75.0, "ppb"),
    CO := PollutantRange(0.1, 15.0, "ppm")
  ]

  /** Simplified concentration breakpoints; HCHO has none (lines 54-61). */
  const Breakpoints: map<Pollutant, seq<real>> := map[
    Ozone := [0.0, 54.0, 70.0, 85.0, 105.0, 200.0],
    NO2 := [0.0, 53.0, 100.0, 360.0, 649.0, 1249.0],
    PM25 := [0.0, 12.0, 35.5, 55.5, 150.5, 250.5],
    PM10 := [0.0, 54.0, 154.0, 254.0, 354.0, 424.0],
    SO2 := [0.0, 35.0, 75.0, 185.0, 304.0, 604.0],
    CO := [0.0, 4.4, 9.4, 12.4, 15.4, 30.4]
  ]

  const AqiLevels: seq<int> := [0, 50, 100, 150, 200, 300]

  const Categories: seq<AqiCategory> :=
    [Good, Moderate, UnhealthyForSensitiveGroups, Unhealthy, VeryUnhealthy, Hazardous]

  predicate StrictlyIncreasing(bp: seq<real>) {
    forall j | 0 <= j < |bp| - 1 :: bp[j] < bp[j + 1]
  }

  /** Every breakpoint table has six strictly increasing entries starting at 0. */
  lemma BreakpointTablesWellFormed()
    ensures forall p | p in Breakpoints ::
      |Breakpoints[p]| == 6 && Breakpoints[p][0] == 0.0 && StrictlyIncreasing(Breakpoints[p])
  {
  }

  // ---------------------------------------------------------------------------
  // _calculate_aqi

  /** The bracket search of lines 79-80: the first `i` from `start` with
      `concentration <= bp[i + 1]`, or None when the concentration exceeds
      every upper breakpoint. */
  function FindBracket(bp: seq<real>, concentration: real, start: nat): (r: Option<nat>)
    requires start <= |bp|
    decreases |bp| - start
    ensures r.Some? ==> start <= r.value < |bp| - 1 && concentration <= bp[r.value + 1]
    ensures r.Some? ==> forall j | start < j <= r.value :: concentration > bp[j]
    ensures r.None? ==> forall j | start < j < |bp| :: concentration > bp[j]
  {
    if start + 1 >= |bp| then None
    else if concentration <= bp[start + 1] then Some(start)
    else FindBracket(bp, concentration, start + 1)
  }

  /** Python's `int(x)` on a float: truncation toward zero. */
  function Truncate(x: real): (r: int)
    ensures x >= 0.0 ==> r as real <= x < r as real + 1.0
    ensures x < 0.0 ==> r as real - 1.0 < x <= r as real
  {
    if x >= 0.0 then x.Floor else -((-x).Floor)
  }

  /** `(aqi_hi - aqi_lo) / (c_hi - c_lo) * (c - c_lo) + aqi_lo`. */
  function Linear(cLo: real, cHi: real, aqiLo: int, aqiHi: int, c: real): real
    requires cLo < cHi
  {
    ((aqiHi - aqiLo) as real / (cHi - cLo)) * (c - cLo) + aqiLo as real
  }

  /** The linear interpolation of line 85 for bracket `i`. */
  function Interpolate(bp: seq<real>, i: nat, concentration: real): int
    requires |bp| == |AqiLevels| && i < |bp| - 1 && bp[i] < bp[i + 1]
  {
    Truncate(Linear(bp[i], bp[i + 1], AqiLevels[i], AqiLevels[i + 1], concentration))
  }

  /** `_calculate_aqi`: the AQI value and category for a concentration. */
  function CalculateAqi(pollutant: Pollutant, concentration: real): (r: (int, AqiCategory))
    ensures pollutant !in Breakpoints ==> r == (50, Good)
    ensures pollutant in Breakpoints && concentration > Breakpoints[pollutant][5] ==> r == (300, Hazardous)
    ensures pollutant in Breakpoints && concentration <= Breakpoints[pollutant][5] ==> r.1 != Hazardous
  {
    BreakpointTablesWellFormed();
    if pollutant !in Breakpoints then (50, Good)
    else
      var bp := Breakpoints[pollutant];
      match FindBracket(bp, concentration, 0)
      case Some(i) => (Interpolate(bp, i, concentration), Categories[i])
      case None => (300, Hazardous)
  }

  /** `(aqiHi - aqiLo) / (cHi - cLo) * (c - cLo) + aqiLo` stays within
      `[aqiLo, aqiHi]` when `c` lies within `[cLo, cHi]`. */
  lemma InterpolationWithinLevels(cLo: real, cHi: real, aqiLo: int, aqiHi: int, c: real)
    requires cLo < cHi && aqiLo <= aqiHi && cLo <= c <= cHi
    ensures aqiLo as real <= Linear(cLo, cHi, aqiLo, aqiHi, c) <= aqiHi as real
  {
    var w := cHi - cLo;
    var d := (aqiHi - aqiLo) as real;
    var slope := d / w;
    assert slope * w == d;
    assert slope >= 0.0;
    assert slope * (c - cLo) >= 0.0;
    assert slope * (c - cLo) <= slope * w by {
      assert slope * (w - (c - cLo)) >= 0.0;
    }
  }

  /** The interpolated AQI of the bracket that the search selects lies between
      that bracket's two AQI levels, for a table that starts at 0 and increases. */
  lemma InterpolateWithinBracket(bp: seq<real>, concentration: real, i: nat)
    requires |bp| == 6 && bp[0] == 0.0 && StrictlyIncreasing(bp)
    requires 0.0 <= concentration
    requires FindBracket(bp, concentration, 0) == Some(i)
    ensures i < 5 && AqiLevels[i] <= Interpolate(bp, i, concentration) <= AqiLevels[i + 1]
  {
    assert bp[i] <= concentration by {
      if i > 0 {
        assert concentration > bp[i];
      }
    }
    assert bp[i] < bp[i + 1];
    var lo, hi := AqiLevels[i], AqiLevels[i + 1];
    assert 0 <= lo <= hi;
    InterpolationWithinLevels(bp[i], bp[i + 1], lo, hi, concentration);
    var v := Linear(bp[i], bp[i + 1], lo, hi, concentration);
    assert lo as real <= v <= hi as real;
    var t := Truncate(v);
    assert t as real <= v < t as real + 1.0;
    assert Interpolate(bp, i, concentration) == t;
  }

  /** For a non-negative concentration up to the last breakpoint, the AQI lies
      between the selected bracket's two AQI levels and the category is the
      bracket's category, which is never HAZARDOUS. */
  lemma CalculateAqiWithinBracket(pollutant: Pollutant, concentration: real)
    requires pollutant in Breakpoints
    requires 0.0 <= concentration <= Breakpoints[pollutant][5]
    ensures var i := FindBracket(Breakpoints[pollutant], concentration, 0);
      && i.Some? && i.value < 5
      && AqiLevels[i.value] <= CalculateAqi(pollutant, concentration).0 <= AqiLevels[i.value + 1]
      && CalculateAqi(pollutant, concentration).1 == Categories[i.value]
  {
    BreakpointTablesWellFormed();
    var bp := Breakpoints[pollutant];
    assert |bp| == 6 && bp[0] == 0.0 && StrictlyIncreasing(bp);
    var i := FindBracket(bp, concentration, 0).value;
    InterpolateWithinBracket(bp, concentration, i);
  }

  // ---------------------------------------------------------------------------
  // generate_measurements

  /** The random choices made for one iteration of the generation loop:
      city, pollutant, concentration, timestamp, coordinate offsets, monitor
      number, source and site number. */
  datatype MockDraw = MockDraw(
    cityIndex: nat,
    pollutant: Pollutant,
    concentration: real,
    timestamp: DateTime,
    latOffset: real,
    lonOffset: real,
    monitorNumber: nat,
    source: DataSource,
    siteNumber: nat)

  /** What `random.choice`, `random.uniform` and `random.randint` can return. */
  predicate ValidDraw(d: MockDraw) {
    && d.cityIndex < |Cities|
    && (d.pollutant in PollutantRanges ==>
          PollutantRanges[d.pollutant].min <= d.concentration <= PollutantRanges[d.pollutant].max)
    && -0.1 <= d.latOffset <= 0.1
    && -0.1 <= d.lonOffset <= 0.1
    && 1 <= d.monitorNumber <= 5
    && 1000 <= d.siteNumber <= 9999
  }

  /** Python's `round(x, 2)` on an exact value: to the nearest hundredth,
      a tie going to the even hundredth. */
  function RoundHundredths(x: real): (r: real)
    ensures x - 0.005 <= r <= x + 0.005
    ensures IsHundredths(r)
  {
    var y := x * 100.0;
    var f := y.Floor;
    var frac := y - f as real;
    var n := if frac < 0.5 then f else if frac > 0.5 then f + 1 else if f % 2 == 0 then f else f + 1;
    assert -0.5 <= n as real - y <= 0.5;
    assert (n as real / 100.0) * 100.0 == n as real;
    n as real / 100.0
  }

  /** A whole number of hundredths. */
  predicate IsHundredths(x: real) {
    (x * 100.0).Floor as real == x * 100.0
  }

  /** A value already in hundredths is left as it is. */
  lemma RoundHundredthsKeepsHundredths(x: real)
    requires IsHundredths(x)
    ensures RoundHundredths(x) == x
  {
    var y := x * 100.0;
    assert y.Floor as real == y;
    assert RoundHundredths(x) == y.Floor as real / 100.0;
  }

  /** Rounding never leaves an interval whose ends are whole hundredths. */
  lemma RoundHundredthsWithin(lo: real, hi: real, x: real)
    requires IsHundredths(lo) && IsHundredths(hi) && lo <= x <= hi
    ensures lo <= RoundHundredths(x) <= hi
  {
    var y := x * 100.0;
    var f := y.Floor;
    var frac := y - f as real;
    var n := if frac < 0.5 then f else if frac > 0.5 then f + 1 else if f % 2 == 0 then f else f + 1;
    assert RoundHundredths(x) == n as real / 100.0;
    var l, h := (lo * 100.0).Floor, (hi * 100.0).Floor;
    assert l as real <= y <= h as real;
    assert l <= f <= h;
    assert l <= n;
    if f == h {
      assert frac == 0.0;
    }
    assert n <= h;
    assert l as real / 100.0 <= n as real / 100.0 <= h as real / 100.0;
  }

  /** Every concentration range has ends in whole hundredths. */
  lemma RangesInHundredths()
    ensures forall p | p in PollutantRanges ::
      IsHundredths(PollutantRanges[p].min) && IsHundredths(PollutantRanges[p].max)
  {
  }

  /** One loop iteration: None when the drawn pollutant has no range (line 102). */
  function GenerateOne(d: MockDraw): Option<Measurement>
    requires ValidDraw(d)
  {
    if d.pollutant !in PollutantRanges then None
    else
      var range := PollutantRanges[d.pollutant];
      var city := Cities[d.cityIndex];
      var (aqi, category) := CalculateAqi(d.pollutant, d.concentration);
      Some(Measurement(
        parameter := d.pollutant,
        value := RoundHundredths(d.concentration),
        unit := range.unit,
        lastUpdated := d.timestamp,
        aqi := Some(aqi),
        category := Some(category),
        latitude := city.lat + d.latOffset,
        longitude := city.lon + d.lonOffset,
        locationName := city.name + " Monitor " + NatToString(d.monitorNumber),
        city := Some(city.name),
        state := Some(city.state),
        country := "US",
        source := d.source,
        siteId := SourceValue(d.source) + "_" + NatToString(d.siteNumber)))
  }

  predicate ValidDraws(draws: seq<MockDraw>) {
    forall k | 0 <= k < |draws| :: ValidDraw(draws[k])
  }

  /** The measurements the loop collects from a sequence of draws. */
  function Generated(draws: seq<MockDraw>): seq<Measurement>
    requires ValidDraws(draws)
  {
    if draws == [] then []
    else
      var last := draws[|draws| - 1];
      Generated(draws[..|draws| - 1]) + (match GenerateOne(last) case Some(m) => [m] case None => [])
  }

  /** `generate_measurements(count)`: one iteration per draw. */
  method GenerateMeasurements(count: nat, draws: seq<MockDraw>) returns (measurements: seq<Measurement>)
    requires |draws| == count && ValidDraws(draws)
    ensures measurements == Generated(draws)
  {
    measurements := [];
    var i := 0;
    while i < count
      invariant 0 <= i <= count
      invariant measurements == Generated(draws[..i])
    {
      var d := draws[i];
      assert draws[..i + 1][..i] == draws[..i];
      if d.pollutant in PollutantRanges {
        var m := GenerateOne(d).value;
        measurements := measurements + [m];
      }
      i := i + 1;
    }
    assert draws[..count] == draws;
  }

  /** What every generated measurement satisfies. The AQI and category are
      those of the drawn concentration, which the stored value is that
      concentration rounded to hundredths. */
  ghost predicate WellFormedMock(m: Measurement) {
    && m.parameter in PollutantRanges
    && m.unit == PollutantRanges[m.parameter].unit
    && (exists c | PollutantRanges[m.parameter].min <= c <= PollutantRanges[m.parameter].max ::
          && RoundHundredths(c) == m.value
          && m.aqi == Some(CalculateAqi(m.parameter, c).0)
          && m.category == Some(CalculateAqi(m.parameter, c).1))
    && PollutantRanges[m.parameter].min <= m.value <= PollutantRanges[m.parameter].max
    && IsHundredths(m.value)
    && (exists c | c in Cities :: NearCity(m, c))
    && m.country == "US"
    && StartsWith(m.siteId, SourceValue(m.source))
  }

  /** The category is that of the drawn concentration, not of the stored
      value: ozone drawn at 54.004 ppb is MODERATE, stored as 54.0, a value
      that by itself would be GOOD. */
  lemma CategoryIsOfTheUnroundedDraw()
    ensures RoundHundredths(54.004) == 54.0
    ensures CalculateAqi(Ozone, 54.004).1 == Moderate
    ensures CalculateAqi(Ozone, 54.0).1 == Good
  {
    var bp := Breakpoints[Ozone];
    assert FindBracket(bp, 54.004, 0) == Some(1) by {
      assert FindBracket(bp, 54.004, 1) == Some(1);
    }
    assert FindBracket(bp, 54.0, 0) == Some(0);
    assert (5400.4).Floor == 5400;
  }

  /** City and state come from table entry `c`, coordinates within 0.1 degree of it. */
  ghost predicate NearCity(m: Measurement, c: City) {
    && m.city == Some(c.name) && m.state == Some(c.state)
    && c.lat - 0.1 <= m.latitude <= c.lat + 0.1
    && c.lon - 0.1 <= m.longitude <= c.lon + 0.1
  }

  lemma GenerateOneWellFormed(d: MockDraw)
    requires ValidDraw(d)
    ensures GenerateOne(d).Some? ==> WellFormedMock(GenerateOne(d).value)
  {
    if d.pollutant in PollutantRanges {
      var m := GenerateOne(d).value;
      GeneratedValueFromDraw(d);
      GeneratedPlaceFromDraw(d);
    }
  }

  /** The stored value, AQI and category of one generated item. */
  lemma GeneratedValueFromDraw(d: MockDraw)
    requires ValidDraw(d) && d.pollutant in PollutantRanges
    ensures var m := GenerateOne(d).value;
      && m.parameter == d.pollutant
      && m.unit == PollutantRanges[d.pollutant].unit
      && m.value == RoundHundredths(d.concentration)
      && m.aqi == Some(CalculateAqi(d.pollutant, d.concentration).0)
      && m.category == Some(CalculateAqi(d.pollutant, d.concentration).1)
      && PollutantRanges[d.pollutant].min <= m.value <= PollutantRanges[d.pollutant].max
  {
    var range := PollutantRanges[d.pollutant];
    RangesInHundredths();
    RoundHundredthsWithin(range.min, range.max, d.concentration);
  }

  /** The place, country and site id of one generated item. */
  lemma GeneratedPlaceFromDraw(d: MockDraw)
    requires ValidDraw(d) && d.pollutant in PollutantRanges
    ensures var m := GenerateOne(d).value;
      && NearCity(m, Cities[d.cityIndex])
      && m.country == "US"
      && StartsWith(m.siteId, SourceValue(m.source))
  {
    var m := GenerateOne(d).value;
    var prefix := SourceValue(d.source);
    assert m.siteId == prefix + ("_" + NatToString(d.siteNumber));
    assert m.siteId[..|prefix|] == prefix;
  }


  /** At most one measurement per draw, each drawn for a pollutant with a range,
      with that range's unit, the AQI of `_calculate_aqi`, a city and state from
      one table entry, coordinates within 0.1 degree of it, and a site id that
      starts with the source's value. */
  lemma {:induction false} GeneratedWellFormed(draws: seq<MockDraw>)
    requires ValidDraws(draws)
    ensures |Generated(draws)| <= |draws|
    ensures forall k | 0 <= k < |Generated(draws)| :: WellFormedMock(Generated(draws)[k])
  {
    if draws != [] {
      var init := draws[..|draws| - 1];
      var last := draws[|draws| - 1];
      GeneratedWellFormed(init);
      GenerateOneWellFormed(last);
      var out := Generated(draws);
      forall k | 0 <= k < |out| ensures WellFormedMock(out[k]) {
        if k < |Generated(init)| {
          assert out[k] == Generated(init)[k];
        }
      }
    }
  }

  /** A pollutant without a concentration range (HCHO) never produces a measurement. */
  lemma {:induction false} GeneratedSkipsUnrangedPollutants(draws: seq<MockDraw>)
    requires ValidDraws(draws)
    ensures forall k | 0 <= k < |Generated(draws)| :: Generated(draws)[k].parameter != HCHO
  {
    if draws != [] {
      GeneratedSkipsUnrangedPollutants(draws[..|draws| - 1]);
    }
  }

  // ---------------------------------------------------------------------------
  // save_mock_data

  /** `m.source == DataSource.OPENAQ`: the test of line 158. */
  function FromOpenAQ(): Measurement -> bool {
    (m: Measurement) => m.source == OpenAQ
  }

  /** The rest, which line 161 sends to the AirNow list. */
  function NotFromOpenAQ(): Measurement -> bool {
    (m: Measurement) => m.source != OpenAQ
  }

  function OpenAQPart(ms: seq<Measurement>): seq<Measurement> {
    Filter(ms, FromOpenAQ())
  }

  function AirNowPart(ms: seq<Measurement>): seq<Measurement> {
    Filter(ms, NotFromOpenAQ())
  }

  /** The two parts split the generated list: their sizes add up, the OpenAQ
      part holds only OpenAQ-tagged measurements, the other part none, and
      together they hold exactly the generated measurements. */
  lemma {:induction false} PartitionIsSplit(ms: seq<Measurement>)
    ensures |OpenAQPart(ms)| + |AirNowPart(ms)| == |ms|
    ensures forall k | 0 <= k < |OpenAQPart(ms)| :: OpenAQPart(ms)[k].source == OpenAQ
    ensures forall k | 0 <= k < |AirNowPart(ms)| :: AirNowPart(ms)[k].source != OpenAQ
    ensures multiset(OpenAQPart(ms)) + multiset(AirNowPart(ms)) == multiset(ms)
  {
    if ms != [] {
      var init := ms[..|ms| - 1];
      PartitionIsSplit(init);
      assert ms == init + [ms[|ms| - 1]];
    }
  }

  /** Lines 166-195: a part is written only when it is non-empty, OpenAQ first. */
  function MockFiles(openaq: seq<Measurement>, airnow: seq<Measurement>, timestamp: string): (r: seq<SnapshotFile>)
    ensures |r| == (if openaq != [] then 1 else 0) + (if airnow != [] then 1 else 0)
    ensures forall i, j | 0 <= i < j < |r| :: r[i].source != r[j].source
    ensures forall f | f in r :: f.count > 0 && f.fileName == SnapshotName(f.source, timestamp)
    ensures (exists f | f in r :: f.source == "openaq") <==> openaq != []
    ensures (exists f | f in r :: f.source == "airnow") <==> airnow != []
    ensures forall f | f in r :: (f.source == "openaq" && f.count == |openaq|) || (f.source == "airnow" && f.count == |airnow|)
  {
    (if openaq != [] then [SnapshotFile(SnapshotName("openaq", timestamp), "openaq", |openaq|)] else [])
    + (if airnow != [] then [SnapshotFile(SnapshotName("airnow", timestamp), "airnow", |airnow|)] else [])
  }

  /** The loop of lines 157-161: split the generated list by source. */
  method PartitionBySource(all: seq<Measurement>) returns (openaq: seq<Measurement>, airnow: seq<Measurement>)
    ensures openaq == OpenAQPart(all) && airnow == AirNowPart(all)
  {
    openaq, airnow := [], [];
    var i := 0;
    while i < |all|
      invariant 0 <= i <= |all|
      invariant openaq == OpenAQPart(all[..i]) && airnow == AirNowPart(all[..i])
    {
      assert all[..i + 1][..i] == all[..i];
      if all[i].source == OpenAQ {
        openaq := openaq + [all[i]];
      } else {
        airnow := airnow + [all[i]];
      }
      i := i + 1;
    }
    assert all[..|all|] == all;
  }

  /** `save_mock_data`: generate 200 measurements, split them by source, and
      plan one file per non-empty part. */
  method SaveMockData(draws: seq<MockDraw>, timestamp: string)
    returns (openaq: seq<Measurement>, airnow: seq<Measurement>, files: seq<SnapshotFile>)
    requires |draws| == 200 && ValidDraws(draws)
    ensures openaq == OpenAQPart(Generated(draws)) && airnow == AirNowPart(Generated(draws))
    ensures |openaq| + |airnow| == |Generated(draws)|
    ensures files == MockFiles(openaq, airnow, timestamp)
  {
    var all := GenerateMeasurements(200, draws);
    openaq, airnow := PartitionBySource(all);
    PartitionIsSplit(all);
    files := MockFiles(openaq, airnow, timestamp);
  }
}
