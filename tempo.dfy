/** The TEMPO satellite data helper (src/tempo.py): the product check and the
    daytime granule filter of `search_data`, the index selection of
    `download_data`, the title field of `plot_no2` and the grid flattening
    of `export_to_csv`. The Earthdata search answer, the downloaded files and
    the netCDF arrays are inputs. */
module Tempo {
  import opened Wrappers
  import opened Text
  import opened Sequences

  // ---------------------------------------------------------------------------
  // search_data

  /** `self.products` (lines 75-80); every product has version "V03" (lines 82-87). */
  const Products: map<string, string> := map[
    "O3" := "TEMPO_O3TOT_L3",
    "NO2" := "TEMPO_NO2_L3",
    "SO2" := "TEMPO_SO2_L3",
    "HCHO" := "TEMPO_HCHO_L3"]

  const ProductVersion := "V03"

  /** The arguments of the `earthaccess.search_data` call (lines 110-123). */
  datatype SearchQuery = SearchQuery(shortName: string, version: string, temporalStart: string, temporalEnd: string,
                                     pointLon: real, pointLat: real)

  const UnknownProductMessage := "Product must be one of: ['O3', 'NO2', 'SO2', 'HCHO']"

  /** The product check of lines 104-105 and the query built from a valid one. */
  function SearchQueryFor(product: string, date: string, lat: real, lon: real): (r: Result<SearchQuery, string>)
    ensures r.Err? <==> product !in {"O3", "NO2", "SO2", "HCHO"}
    ensures r.Err? ==> r.error == UnknownProductMessage
    ensures r.Ok? ==>
      && StartsWith(r.value.shortName, "TEMPO_") && r.value.version == ProductVersion
      && r.value.temporalStart == date + " 00:00:00" && r.value.temporalEnd == date + " 23:59:59"
      && r.value.pointLon == lon && r.value.pointLat == lat
  {
    if product !in Products then Err(UnknownProductMessage)
    else Ok(SearchQuery(Products[product], ProductVersion, date + " 00:00:00", date + " 23:59:59", lon, lat))
  }

  /** A search result: its data links. */
  datatype Granule = Granule(dataLinks: seq<string>)

  /** Which 'T' of the file name starts the time text: line 131 takes the
      text after the first one; the corrected reading takes the text after
      the last one. */
  datatype TimeField = AfterFirstT | AfterLastT

  /** `filename.split('T')[1]`, or the last field for `AfterLastT`; `None`
      when the name has no 'T' (an IndexError). */
  function TimeText(filename: string, field: TimeField): Option<string> {
    var parts := Split(filename, 'T');
    if |parts| < 2 then None
    else match field
      case AfterFirstT => Some(parts[1])
      case AfterLastT => Some(parts[|parts| - 1])
  }

  /** `int(time_str.split('Z')[0][:2])`; `None` when the file has no link or
      any step raises. */
  function GranuleHour(g: Granule, field: TimeField): Option<int> {
    if g.dataLinks == [] then None
    else
      var filename := LastField(g.dataLinks[0], '/');
      match TimeText(filename, field)
      case None => None
      case Some(t) => ParseInt(Take(Split(t, 'Z')[0], 2))
  }

  /** A granule is kept when its hour is in 12..22 UTC, or when the hour
      cannot be read (the bare `except` of lines 136-137). */
  predicate IsDaytime(g: Granule, field: TimeField) {
    var hour := GranuleHour(g, field);
    hour.None? || 12 <= hour.value <= 22
  }

  function Daytime(results: seq<Granule>, field: TimeField): seq<Granule> {
    Filter(results, g => IsDaytime(g, field))
  }

  /** The filter loop of lines 127-138. */
  method FilterDaytime(results: seq<Granule>, field: TimeField) returns (daytime: seq<Granule>)
    ensures daytime == Daytime(results, field)
  {
    daytime := [];
    var i := 0;
    while i < |results|
      invariant 0 <= i <= |results|
      invariant daytime == Daytime(results[..i], field)
    {
      var r := results[i];
      assert Daytime(results[..i + 1], field)
          == Daytime(results[..i], field) + (if IsDaytime(r, field) then [r] else []) by {
        assert results[..i + 1][..i] == results[..i];
      }
      var hour := GranuleHour(r, field);
      if hour.None? {
        daytime := daytime + [r];
      } else if 12 <= hour.value <= 22 {
        daytime := daytime + [r];
      }
      i := i + 1;
    }
    assert results[..i] == results;
  }

  /** The daytime filter keeps exactly the daytime granules, in order. */
  lemma DaytimeProperties(results: seq<Granule>, field: TimeField)
    ensures forall g | g in Daytime(results, field) :: IsDaytime(g, field)
    ensures forall g | g in results && IsDaytime(g, field) :: g in Daytime(results, field)
    ensures IsSubsequence(Daytime(results, field), results)
  {
    FilterProperties(results, g => IsDaytime(g, field));
  }

  /** `search_data` (lines 89-161): a `ValueError` for an unknown product; an
      exception from the search itself gives []; with `daytime_only` and a
      non-empty answer the daytime filter applies. */
  method SearchData(product: string, date: string, lat: real, lon: real, daytimeOnly: bool,
                    answer: Result<seq<Granule>, string>, field: TimeField)
    returns (r: Result<seq<Granule>, string>)
    ensures r.Err? <==> SearchQueryFor(product, date, lat, lon).Err?
    ensures r.Ok? && answer.Err? ==> r.value == []
    ensures r.Ok? && answer.Ok? && daytimeOnly && answer.value != [] ==> r.value == Daytime(answer.value, field)
    ensures r.Ok? && answer.Ok? && !(daytimeOnly && answer.value != []) ==> r.value == answer.value
  {
    if product !in Products {
      return Err(UnknownProductMessage);
    }
    if answer.Err? {
      return Ok([]);
    }
    var results := answer.value;
    if daytimeOnly && results != [] {
      results := FilterDaytime(results, field);
    }
    r := Ok(results);
  }

  /** The file name of a data link is its last path component. */
  lemma LinkFileName(dir: string, name: string)
    requires '/' !in name
    ensures LastField(dir + "/" + name, '/') == name
  {
    assert dir + "/" + name == dir + ['/'] + name;
    SplitLastFieldAfter(dir, name, '/');
    SplitWithoutSeparator(name, '/');
  }

  /** As written, every TEMPO file name ("TEMPO_...") has "EMPO_..." after
      its first 'T', whose first two characters are not a number, so the
      granule is kept whatever its time of day. */
  lemma TempoGranuleKeptAsWritten(dir: string, rest: string)
    requires '/' !in rest
    ensures GranuleHour(Granule([dir + "/" + "TEMPO_" + rest]), AfterFirstT) == None
    ensures IsDaytime(Granule([dir + "/" + "TEMPO_" + rest]), AfterFirstT)
  {
    var name := "TEMPO_" + rest;
    var link := dir + "/" + "TEMPO_" + rest;
    assert link == dir + "/" + name;
    assert '/' !in "TEMPO_";
    LinkFileName(dir, name);
    var tail := "EMPO_" + rest;
    assert name == [] + ['T'] + tail;
    SplitAtSeparator([], tail, 'T');
    assert 'T' !in "EMPO_" && 'Z' !in "EMPO_";
    SplitPrefixJoinsFirstField("EMPO_", rest, 'T');
    var t := "EMPO_" + Split(rest, 'T')[0];
    assert TimeText(name, AfterFirstT) == Some(t);
    SplitPrefixJoinsFirstField("EMPO_", Split(rest, 'T')[0], 'Z');
    var h := Take(Split(t, 'Z')[0], 2);
    assert h == "EM";
    ParseIntRejects("EM");
    assert GranuleHour(Granule([link]), AfterFirstT) == ParseInt(h);
  }

  /** Reading the time after the last 'T' of a name
      `pre T hhmmss Z suffix` gives the hour `hh`. */
  lemma GranuleHourAfterLastT(dir: string, pre: string, time: string, suffix: string)
    requires '/' !in pre && '/' !in time && '/' !in suffix
    requires 'T' !in time && 'T' !in suffix && 'Z' !in time && |time| >= 2
    ensures GranuleHour(Granule([dir + "/" + pre + "T" + time + "Z" + suffix]), AfterLastT) == ParseInt(time[..2])
  {
    var after := time + "Z" + suffix;
    var name := pre + "T" + after;
    var link := dir + "/" + pre + "T" + time + "Z" + suffix;
    assert link == dir + "/" + name;
    assert '/' !in name && 'T' !in after by {
      assert '/' !in "T" && '/' !in "Z" && 'T' !in "Z";
    }
    LinkFileName(dir, name);
    assert name == pre + ['T'] + after;
    SplitLastFieldAfter(pre, after, 'T');
    SplitWithoutSeparator(after, 'T');
    assert TimeText(name, AfterLastT) == Some(after);
    assert after == time + ['Z'] + suffix;
    SplitAtSeparator(time, suffix, 'Z');
    assert Split(after, 'Z')[0] == time;
    assert Take(time, 2) == time[..2];
    assert GranuleHour(Granule([link]), AfterLastT) == ParseInt(Take(Split(after, 'Z')[0], 2));
  }

  /** For a TEMPO file name `TEMPO_ product T hhmmss Z suffix`, the hour is
      unreadable after the first 'T' and is `hh` after the last one. */
  lemma TempoGranuleHours(dir: string, product: string, time: string, suffix: string)
    requires '/' !in product && '/' !in time && '/' !in suffix
    requires 'T' !in time && 'T' !in suffix && 'Z' !in time && |time| >= 2
    ensures var link := dir + "/" + "TEMPO_" + (product + "T" + time + "Z" + suffix);
      && GranuleHour(Granule([link]), AfterFirstT) == None
      && GranuleHour(Granule([link]), AfterLastT) == ParseInt(time[..2])
  {
    var rest := product + "T" + time + "Z" + suffix;
    var pre := "TEMPO_" + product;
    assert '/' !in rest && '/' !in pre by {
      assert '/' !in "TEMPO_" && '/' !in "T" && '/' !in "Z";
    }
    TempoGranuleKeptAsWritten(dir, rest);
    GranuleHourAfterLastT(dir, pre, time, suffix);
    assert dir + "/" + "TEMPO_" + rest == dir + "/" + pre + "T" + time + "Z" + suffix;
  }

  /** Two digits read as an hour: `int("hh")`. */
  lemma TwoDigitHour(h: string)
    requires |h| == 2 && IsDigit(h[0]) && IsDigit(h[1])
    ensures ParseInt(h) == Some((h[0] as int - '0' as int) * 10 + (h[1] as int - '0' as int))
  {
    assert AllDigits(h);
    ParseIntDigits(h);
    var first := h[..1];
    assert h[..|h| - 1] == first;
    assert first[..0] == [];
    assert DigitsValue(first) == h[0] as int - '0' as int;
  }

  /** The hour field of the time "031500" reads as 3. */
  lemma HourOfNightTime()
    ensures ParseInt("031500"[..2]) == Some(3)
  {
    var h := "031500"[..2];
    assert h[0] == '0' && h[1] == '3' && |h| == 2;
    TwoDigitHour(h);
  }

  /** The parts of the night granule's name meet the requirements of
      `TempoGranuleHours`. */
  lemma NightNameParts()
    ensures '/' !in "NO2_L3_V03_20240801" && '/' !in "031500" && '/' !in "_S001.nc"
    ensures 'T' !in "031500" && 'Z' !in "031500" && 'T' !in "_S001.nc" && |"031500"| >= 2
  {
    assert forall c | c in "NO2_L3_V03_20240801" + "031500" + "_S001.nc" :: c != '/';
  }

  /** A TEMPO granule observed at 03:15 UTC, during the night over North
      America: as written it passes the daytime filter, read after the last
      'T' its hour is 3 and it is dropped. */
  lemma NightGranule()
    ensures var link := "tempo" + "/" + "TEMPO_" + ("NO2_L3_V03_20240801" + "T" + "031500" + "Z" + "_S001.nc");
      && IsDaytime(Granule([link]), AfterFirstT)
      && GranuleHour(Granule([link]), AfterLastT) == Some(3)
      && !IsDaytime(Granule([link]), AfterLastT)
  {
    NightNameParts();
    TempoGranuleHours("tempo", "NO2_L3_V03_20240801", "031500", "_S001.nc");
    HourOfNightTime();
  }

  // ---------------------------------------------------------------------------
  // download_data

  /** Python's `results[i]`: a negative index counts from the end. */
  function PyIndex(n: nat, i: int): nat
    requires -(n as int) <= i < n
  {
    if i >= 0 then i else n + i
  }

  /** The indices the comprehension of line 186 uses: those below `n`. */
  function Below(indices: seq<int>, n: nat): (r: seq<int>)
    ensures forall j | 0 <= j < |r| :: r[j] < n && r[j] in indices
  {
    if indices == [] then []
    else
      var last := indices[|indices| - 1];
      Below(indices[..|indices| - 1], n) + (if last < n then [last] else [])
  }

  /** `[results[i] for i in indices if i < len(results)]`; an index below
      `-len(results)` raises IndexError. */
  function SelectIndices<T>(results: seq<T>, indices: seq<int>): (r: Result<seq<T>, string>)
    ensures r.Err? <==> exists j | 0 <= j < |indices| :: indices[j] < -|results|
    ensures r.Ok? ==>
      var chosen := Below(indices, |results|);
      |r.value| == |chosen|
      && forall j | 0 <= j < |chosen| :: -|results| <= chosen[j] && r.value[j] == results[PyIndex(|results|, chosen[j])]
  {
    if indices == [] then Ok([])
    else
      var init := indices[..|indices| - 1];
      var i := indices[|indices| - 1];
      assert forall j | 0 <= j < |init| :: init[j] == indices[j];
      match SelectIndices(results, init)
      case Err(e) => Err(e)
      case Ok(chosen) =>
        if i >= |results| then Ok(chosen)
        else if i < -|results| then Err(IndexErrorMessage)
        else Ok(chosen + [results[PyIndex(|results|, i)]])
  }

  const IndexErrorMessage := "list index out of range"

  /** The files `download_data` asks for (lines 175-190): none for an empty
      result list, the selected ones for a non-empty `indices`, else all. */
  function DownloadSelection<T>(results: seq<T>, indices: Option<seq<int>>): (r: Result<seq<T>, string>)
    ensures results == [] ==> r == Ok([])
    ensures results != [] && (indices.None? || indices.value == []) ==> r == Ok(results)
    ensures results != [] && indices.Some? && indices.value != [] ==> r == SelectIndices(results, indices.value)
  {
    if results == [] then Ok([])
    else if indices.Some? && indices.value != [] then SelectIndices(results, indices.value)
    else Ok(results)
  }

  /** `list(range(n))`. */
  function AllIndices(n: nat): (r: seq<int>)
    ensures |r| == n && forall j | 0 <= j < n :: r[j] == j
  {
    if n == 0 then [] else AllIndices(n - 1) + [n - 1]
  }

  /** Selecting every index in order gives back the whole list. */
  lemma SelectAllIndices<T>(results: seq<T>)
    ensures SelectIndices(results, AllIndices(|results|)) == Ok(results)
  {
    var indices := AllIndices(|results|);
    var r := SelectIndices(results, indices);
    BelowAll(indices, |results|);
    assert forall j | 0 <= j < |indices| :: !(indices[j] < -|results|);
    assert r.Ok?;
    forall j | 0 <= j < |results|
      ensures r.value[j] == results[j]
    {
      assert PyIndex(|results|, indices[j]) == j;
    }
    assert r.value == results;
  }

  lemma {:induction false} BelowAll(indices: seq<int>, n: nat)
    requires forall j | 0 <= j < |indices| :: indices[j] < n
    ensures Below(indices, n) == indices
  {
    if indices != [] {
      var init := indices[..|indices| - 1];
      BelowAll(init, n);
      assert indices == init + [indices[|indices| - 1]];
    }
  }

  /** An index at or past the end is skipped, not an error. */
  lemma SelectSkipsLargeIndex<T>(results: seq<T>, indices: seq<int>, i: int)
    requires i >= |results|
    ensures SelectIndices(results, indices + [i]) == SelectIndices(results, indices)
  {
    assert (indices + [i])[..|indices|] == indices;
  }

  // ---------------------------------------------------------------------------
  // plot_no2 title

  /** `filename.split('_')[3] if len(filename.split('_')) > 3 else 'Unknown'`
      (lines 350-352), where the file name is the last path component. */
  function TitleTimestampAsWritten(filepath: string): (r: string)
    ensures |Split(LastField(filepath, '/'), '_')| <= 3 ==> r == "Unknown"
    ensures |Split(LastField(filepath, '/'), '_')| > 3 ==> r == Split(LastField(filepath, '/'), '_')[3] && '_' !in r
  {
    var fields := Split(LastField(filepath, '/'), '_');
    if |fields| > 3 then fields[3] else "Unknown"
  }

  /** The fifth field, which holds the date and time in a TEMPO name. */
  function TitleTimestamp(filepath: string): (r: string)
    ensures |Split(LastField(filepath, '/'), '_')| <= 4 ==> r == "Unknown"
    ensures |Split(LastField(filepath, '/'), '_')| > 4 ==> r == Split(LastField(filepath, '/'), '_')[4] && '_' !in r
  {
    var fields := Split(LastField(filepath, '/'), '_');
    if |fields| > 4 then fields[4] else "Unknown"
  }

  /** In a name `TEMPO_product_level_version_datetime_rest`, the field the
      title shows as written is the version; the fifth field is the date
      and time. */
  lemma TempoTitleFields(dir: string, product: string, level: string, version: string, datetime: string, rest: string)
    requires '_' !in product && '_' !in level && '_' !in version && '_' !in datetime
    requires '/' !in product && '/' !in level && '/' !in version && '/' !in datetime && '/' !in rest
    ensures var path := dir + "/" + ("TEMPO" + "_" + (product + "_" + (level + "_" + (version + "_" + (datetime + "_" + rest)))));
      TitleTimestampAsWritten(path) == version && TitleTimestamp(path) == datetime
  {
    var t4 := datetime + "_" + rest;
    var t3 := version + "_" + t4;
    var t2 := level + "_" + t3;
    var t1 := product + "_" + t2;
    var name := "TEMPO" + "_" + t1;
    assert '/' !in name by {
      assert '/' !in "TEMPO" && '/' !in "_";
    }
    LinkFileName(dir, name);
    assert '_' !in "TEMPO";
    SplitAtSeparator(datetime, rest, '_');
    SplitAtSeparator(version, t4, '_');
    SplitAtSeparator(level, t3, '_');
    SplitAtSeparator(product, t2, '_');
    SplitAtSeparator("TEMPO", t1, '_');
    var fields := Split(name, '_');
    assert fields == ["TEMPO", product, level, version, datetime] + Split(rest, '_');
    assert fields[3] == version && fields[4] == datetime;
  }

  /** The title of the 03:15 UTC NO2 granule reads "V03" as written. */
  lemma NightGranuleTitle()
    ensures var path := "tempo" + "/" + ("TEMPO" + "_" + ("NO2" + "_" + ("L3" + "_" + ("V03" + "_" + ("20240801T031500Z" + "_" + "S001.nc")))));
      TitleTimestampAsWritten(path) == "V03" && TitleTimestamp(path) == "20240801T031500Z"
  {
    assert '_' !in "NO2" && '_' !in "L3" && '_' !in "V03";
    assert '_' !in "20240801T031500Z" && '/' !in "20240801T031500Z" && '/' !in "S001.nc";
    TempoTitleFields("tempo", "NO2", "L3", "V03", "20240801T031500Z", "S001.nc");
  }

  // ---------------------------------------------------------------------------
  // export_to_csv

  /** `np.repeat(xs, times)`: each element `times` times in a row. */
  function Repeat(xs: seq<real>, times: nat): (r: seq<real>)
    ensures |r| == |xs| * times
  {
    if xs == [] then []
    else Repeat(xs[..|xs| - 1], times) + seq(times, _ => xs[|xs| - 1])
  }

  /** `np.tile(xs, times)`: the whole list `times` times over. */
  function Tile(xs: seq<real>, times: nat): (r: seq<real>)
    ensures |r| == |xs| * times
  {
    if times == 0 then [] else Tile(xs, times - 1) + xs
  }

  lemma BlockBelow(q: int, m: int, t: int, n: int)
    requires 0 <= q < n && 0 <= m < t
    ensures q * t + m < n * t
  {
    assert (q + 1) * t <= n * t;
  }

  /** Block `q` of a repeat holds copies of `xs[q]`. */
  lemma {:induction false} RepeatAt(xs: seq<real>, times: nat, q: nat, m: nat)
    requires q < |xs| && m < times
    ensures q * times + m < |Repeat(xs, times)| && Repeat(xs, times)[q * times + m] == xs[q]
  {
    var init := xs[..|xs| - 1];
    BlockBelow(q, m, times, |xs|);
    if q < |init| {
      RepeatAt(init, times, q, m);
      BlockBelow(q, m, times, |init|);
    }
  }

  /** Copy `q` of a tile holds `xs` again. */
  lemma {:induction false} TileAt(xs: seq<real>, times: nat, q: nat, m: nat)
    requires q < times && m < |xs|
    ensures q * |xs| + m < |Tile(xs, times)| && Tile(xs, times)[q * |xs| + m] == xs[m]
  {
    BlockBelow(q, m, |xs|, times);
    if q < times - 1 {
      TileAt(xs, times - 1, q, m);
      BlockBelow(q, m, |xs|, times - 1);
    }
  }

  lemma MulCancel(a: int, b: int, c: int)
    ensures a * c == b * c && c > 0 ==> a == b
  {
  }

  datatype CsvRow = CsvRow(latitude: real, longitude: real, troposphericNo2: real, stratosphericNo2: real,
                           qualityFlag: int, units: string)

  const LengthMismatchMessage := "All arrays must be of the same length"

  /** `export_to_csv` (lines 362-400) on the first time step of a
      `rows` x `cols` grid, flattened row by row. pandas refuses columns of
      different lengths; the exception is reported and nothing is written. */
  function ExportToCsv(lat: seq<real>, lon: seq<real>, rows: nat, cols: nat,
                       trop: seq<real>, strat: seq<real>, quality: seq<int>, units: string)
    : (r: Result<seq<CsvRow>, string>)
    requires |trop| == rows * cols && |strat| == rows * cols && |quality| == rows * cols
    ensures r.Ok? <==> (cols == 0 || |lat| == rows) && (rows == 0 || |lon| == cols)
    ensures r.Err? ==> r.error == LengthMismatchMessage
    ensures r.Ok? ==> |r.value| == rows * cols
    ensures r.Ok? ==> forall k | 0 <= k < |r.value| ::
      && r.value[k].troposphericNo2 == trop[k] && r.value[k].stratosphericNo2 == strat[k]
      && r.value[k].qualityFlag == quality[k] && r.value[k].units == units
  {
    var lats := Repeat(lat, cols);
    var lons := Tile(lon, rows);
    if |lats| != rows * cols || |lons| != rows * cols then
      assert cols > 0 && |lat| == rows ==> |lats| == rows * cols;
      assert rows > 0 && |lon| == cols ==> |lons| == rows * cols;
      Err(LengthMismatchMessage)
    else
      MulCancel(|lat|, rows, cols);
      MulCancel(|lon|, cols, rows);
      Ok(seq(rows * cols, k requires 0 <= k < rows * cols =>
        CsvRow(lats[k], lons[k], trop[k], strat[k], quality[k], units)))
  }

  /** The row of cell (`q`, `m`) of the grid carries that cell's latitude
      `lat[q]` and longitude `lon[m]`. */
  lemma ExportRowsAreCells(lat: seq<real>, lon: seq<real>, rows: nat, cols: nat,
                           trop: seq<real>, strat: seq<real>, quality: seq<int>, units: string, q: nat, m: nat)
    requires |trop| == rows * cols && |strat| == rows * cols && |quality| == rows * cols
    requires ExportToCsv(lat, lon, rows, cols, trop, strat, quality, units).Ok?
    requires q < rows && m < cols
    ensures q * cols + m < rows * cols && q < |lat| && m < |lon|
    ensures var row := ExportToCsv(lat, lon, rows, cols, trop, strat, quality, units).value[q * cols + m];
      row.latitude == lat[q] && row.longitude == lon[m]
  {
    BlockBelow(q, m, cols, rows);
    RepeatAt(lat, cols, q, m);
    TileAt(lon, rows, q, m);
  }
}
