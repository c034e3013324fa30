/** The canonical measurement record shared by the extraction client and the
    mock generator. Its shape follows the keyword arguments with which both
    build an `AirQualityMeasurement` (air_quality_client.py:178-194 and
    418-430, mock_data_generator.py:123-140). */
module Measurements {
  import opened Wrappers

  datatype Pollutant = Ozone | NO2 | PM25 | PM10 | CO | SO2 | HCHO

  datatype AqiCategory =
    | Good
    | Moderate
    | UnhealthyForSensitiveGroups
    | Unhealthy
    | VeryUnhealthy
    | Hazardous

  /** The two real providers; a measurement is tagged with one of them. */
  datatype DataSource = AirNow | OpenAQ

  /** The value of a `DataSource` member, as it appears in site ids and file names. */
  function SourceValue(s: DataSource): string {
    match s
    case AirNow => "airnow"
    case OpenAQ => "openaq"
  }

  /** A point in time, in whole seconds since the Unix epoch, UTC: the
      scheduler's clock and file times. */
  type Timestamp = int

  /** A measurement's `last_updated` as `isoformat()` prints it: the
      wall-clock reading in microseconds, and the UTC offset in seconds of an
      aware `datetime` (one that `fromisoformat` read with an offset) or None
      for a naive one (`utcnow()`, `strptime`). Two measurements have the
      same `last_updated.isoformat()` exactly when these are equal, so two
      clock readings within one second differ, and one instant written with
      two offsets gives two different values. */
  datatype DateTime = DateTime(wallMicros: int, utcOffset: Option<int>)

  datatype Measurement = Measurement(
    parameter: Pollutant,
    value: real,
    unit: string,
    lastUpdated: DateTime,
    aqi: Option<int>,
    category: Option<AqiCategory>,
    latitude: real,
    longitude: real,
    locationName: string,
    city: Option<string>,
    state: Option<string>,
    country: string,
    source: DataSource,
    siteId: string)

  /** A JSON snapshot written for one source: its file name, the `source`
      field and the `count` field. */
  datatype SnapshotFile = SnapshotFile(fileName: string, source: string, count: nat)

  /** `air_quality_{source}_{timestamp}.json`, the name both writers use. */
  function SnapshotName(source: string, timestamp: string): string {
    "air_quality_" + source + "_" + timestamp + ".json"
  }
}
