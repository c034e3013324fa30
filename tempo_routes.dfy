/** The TEMPO heat-map endpoints (src/routes/tempo.py): each reads one JSON
    file of grid points, keeps the points inside a latitude/longitude box,
    and trims outliers by value using a count derived from the size of the
    whole file. The five handlers differ only in the file they read, so one
    handler is modelled, parameterised by the product. */
module TempoRoutes {
  import opened Wrappers
  import opened Sequences

  datatype GridPoint = GridPoint(lat: real, lon: real, value: real)

  datatype Box = Box(latMin: real, latMax: real, lonMin: real, lonMax: real)

  datatype HeatmapProduct = NO2 | SO2 | O3 | HCHO | AER

  /** The product part of each handler's file name. */
  function HeatmapPrefix(product: HeatmapProduct): string {
    match product
    case NO2 => "no2"
    case SO2 => "so2"
    case O3 => "o3"
    case HCHO => "hcho"
    case AER => "aer"
  }

  /** The file each handler reads (lines 11, 27, 44, 59, 74). */
  function HeatmapFile(product: HeatmapProduct): (name: string)
    ensures |name| > 13 && name[|name| - 13..] == "_heatmap.json"
  {
    var prefix := HeatmapPrefix(product);
    assert (prefix + "_heatmap.json")[|prefix|..] == "_heatmap.json";
    prefix + "_heatmap.json"
  }

  lemma HeatmapFilesDistinct(a: HeatmapProduct, b: HeatmapProduct)
    ensures a != b ==> HeatmapFile(a) != HeatmapFile(b)
  {
    var fa, fb := HeatmapFile(a), HeatmapFile(b);
    assert fa[..|fa| - 13] == HeatmapPrefix(a);
    assert fb[..|fb| - 13] == HeatmapPrefix(b);
  }

  // ---------------------------------------------------------------------------
  // The box step

  /** Both bounds are inclusive on both axes (line 16). */
  predicate InBox(p: GridPoint, box: Box) {
    box.latMin <= p.lat <= box.latMax && box.lonMin <= p.lon <= box.lonMax
  }

  function InBoxOf(box: Box): GridPoint -> bool {
    p => InBox(p, box)
  }

  /** The points inside the box, in file order. */
  function InBoxPoints(points: seq<GridPoint>, box: Box): seq<GridPoint> {
    Filter(points, InBoxOf(box))
  }

  /** The loop of lines 14-17. */
  method BoxFilter(points: seq<GridPoint>, box: Box) returns (inBox: seq<GridPoint>)
    ensures inBox == InBoxPoints(points, box)
  {
    inBox := [];
    var i := 0;
    while i < |points|
      invariant 0 <= i <= |points|
      invariant inBox == InBoxPoints(points[..i], box)
    {
      var p := points[i];
      assert points[..i + 1] == points[..i] + [p];
      if box.latMin <= p.lat <= box.latMax && box.lonMin <= p.lon <= box.lonMax {
        inBox := inBox + [p];
      }
      i := i + 1;
    }
    assert points[..i] == points;
  }

  /** The box step keeps exactly the points inside the box, in file order. */
  lemma InBoxPointsProperties(points: seq<GridPoint>, box: Box)
    ensures forall p | p in InBoxPoints(points, box) :: InBox(p, box)
    ensures forall p | p in points && InBox(p, box) :: p in InBoxPoints(points, box)
    ensures IsSubsequence(InBoxPoints(points, box), points)
  {
    FilterProperties(points, InBoxOf(box));
  }


  // ---------------------------------------------------------------------------
  // Sorting by value (Python's stable `sorted(..., key=lambda x: x['value'])`)

  predicate SortedByValue(s: seq<GridPoint>) {
    forall i, j | 0 <= i < j < |s| :: s[i].value <= s[j].value
  }

  /** Inserts `p` after every element whose value is at most its own, which
      keeps equal values in their original order. */
  function InsertByValue(p: GridPoint, s: seq<GridPoint>): (r: seq<GridPoint>)
    ensures |r| == |s| + 1
    ensures multiset(r) == multiset(s) + multiset{p}
  {
    if s == [] || s[|s| - 1].value <= p.value then s + [p]
    else
      var init := s[..|s| - 1];
      assert s == init + [s[|s| - 1]];
      InsertByValue(p, init) + [s[|s| - 1]]
  }

  lemma {:induction false} InsertByValueSorted(p: GridPoint, s: seq<GridPoint>)
    requires SortedByValue(s)
    ensures SortedByValue(InsertByValue(p, s))
    ensures InsertByValue(p, s) != [] && InsertByValue(p, s)[|s|].value >= p.value
  {
    if s == [] || s[|s| - 1].value <= p.value {
    } else {
      var init := s[..|s| - 1];
      var last := s[|s| - 1];
      InsertByValueSorted(p, init);
      var r := InsertByValue(p, init);
      var out := r + [last];
      assert InsertByValue(p, s) == out;
      forall i | 0 <= i < |r| ensures r[i].value <= last.value {
        assert r[i] in multiset(r);
        assert r[i] in multiset(init) + multiset{p};
        if r[i] != p {
          assert r[i] in multiset(init);
          var j :| 0 <= j < |init| && init[j] == r[i];
          assert s[j] == r[i];
        }
      }
      forall i, j | 0 <= i < j < |out| ensures out[i].value <= out[j].value {
        assert out[i] == r[i];
        if j < |r| {
          assert out[j] == r[j];
        } else {
          assert out[j] == last;
        }
      }
      assert out[|s|] == last;
    }
  }

  function SortByValue(s: seq<GridPoint>): (r: seq<GridPoint>)
    ensures |r| == |s|
    ensures multiset(r) == multiset(s)
  {
    if s == [] then []
    else
      var init := s[..|s| - 1];
      assert s == init + [s[|s| - 1]];
      InsertByValue(s[|s| - 1], SortByValue(init))
  }

  lemma {:induction false} SortByValueSorted(s: seq<GridPoint>)
    ensures SortedByValue(SortByValue(s))
  {
    if s != [] {
      SortByValueSorted(s[..|s| - 1]);
      InsertByValueSorted(s[|s| - 1], SortByValue(s[..|s| - 1]));
    }
  }

  /** The first sorted point has the smallest value and the last the largest. */
  lemma SortedEnds(s: seq<GridPoint>)
    requires s != []
    ensures forall p | p in s :: SortByValue(s)[0].value <= p.value <= SortByValue(s)[|s| - 1].value
  {
    var sorted := SortByValue(s);
    SortByValueSorted(s);
    forall p | p in s ensures sorted[0].value <= p.value <= sorted[|s| - 1].value {
      assert p in multiset(s);
      assert p in multiset(sorted);
      var j :| 0 <= j < |sorted| && sorted[j] == p;
    }
  }

  // ---------------------------------------------------------------------------
  // The trim

  /** `int(len(datos) * 0.05)`: the count is taken from the whole file. */
  function TrimCount(fileSize: nat): (k: nat)
    ensures k as real <= fileSize as real * 0.05 < k as real + 1.0
  {
    fileSize / 20
  }

  /** The points of `s` whose value lies in `[lo, hi]`, in order (line 21). */
  function ValueWithin(lo: real, hi: real): GridPoint -> bool {
    (p: GridPoint) => lo <= p.value <= hi
  }

  function WithinValues(s: seq<GridPoint>, lo: real, hi: real): seq<GridPoint> {
    Filter(s, ValueWithin(lo, hi))
  }


  lemma WithinValuesProperties(s: seq<GridPoint>, lo: real, hi: real)
    ensures forall p | p in WithinValues(s, lo, hi) :: lo <= p.value <= hi
    ensures forall p | p in s && lo <= p.value <= hi :: p in WithinValues(s, lo, hi)
    ensures IsSubsequence(WithinValues(s, lo, hi), s)
  {
    FilterProperties(s, ValueWithin(lo, hi));
  }


  /** When every point lies in `[lo, hi]`, nothing is removed. */
  lemma WithinValuesKeepsAll(s: seq<GridPoint>, lo: real, hi: real)
    requires forall p | p in s :: lo <= p.value <= hi
    ensures WithinValues(s, lo, hi) == s
  {
    FilterKeepsAll(s, ValueWithin(lo, hi));
  }


  /** Python's `sorted_inbox[-k]` for `1 <= k <= n`, and `sorted_inbox[0]`
      for `k = 0` (since `-0 == 0`). */
  function UpperIndexAsWritten(n: nat, k: nat): nat
    requires k < n
  {
    if k == 0 then 0 else n - k
  }

  const IndexErrorMessage := "list index out of range"

  /** Lines 18-21 as written: lower bound `sorted[k]`, upper bound `sorted[-k]`. */
  function TrimAsWritten(inBox: seq<GridPoint>, fileSize: nat): (r: Result<seq<GridPoint>, string>)
    ensures r.Err? <==> |inBox| <= TrimCount(fileSize)
    ensures r.Ok? ==>
      var sorted := SortByValue(inBox);
      var k := TrimCount(fileSize);
      r.value == WithinValues(inBox, sorted[k].value, sorted[UpperIndexAsWritten(|inBox|, k)].value)
  {
    var k := TrimCount(fileSize);
    if |inBox| <= k then Err(IndexErrorMessage)
    else
      var sorted := SortByValue(inBox);
      Ok(WithinValues(inBox, sorted[k].value, sorted[UpperIndexAsWritten(|inBox|, k)].value))
  }

  /** As written, a file of fewer than 20 points gives k = 0, both bounds are
      the minimum value, and only minimum-valued points survive. */
  lemma ZeroTrimKeepsOnlyMinimum(inBox: seq<GridPoint>, fileSize: nat)
    requires inBox != [] && TrimCount(fileSize) == 0
    ensures TrimAsWritten(inBox, fileSize).Ok?
    ensures forall p, q | p in TrimAsWritten(inBox, fileSize).value && q in inBox :: p.value <= q.value
  {
    var sorted := SortByValue(inBox);
    SortedEnds(inBox);
    WithinValuesProperties(inBox, sorted[0].value, sorted[0].value);
  }

  /** Two points in a two-point file: the larger one is dropped although
      nothing was meant to be trimmed. */
  lemma TrimAsWrittenDropsLargerOfTwo()
    ensures TrimAsWritten([GridPoint(0.0, 0.0, 1.0), GridPoint(0.0, 0.0, 2.0)], 2)
         == Ok([GridPoint(0.0, 0.0, 1.0)])
  {
    var a, b := GridPoint(0.0, 0.0, 1.0), GridPoint(0.0, 0.0, 2.0);
    var s := [a, b];
    assert s[..1] == [a] && s[..1][..0] == [];
    assert SortByValue([a]) == [a];
    assert InsertByValue(b, [a]) == s;
    assert SortByValue(s) == s;
    var within := ValueWithin(1.0, 1.0);
    assert TrimAsWritten(s, 2) == Ok(WithinValues(s, 1.0, 1.0));
    assert WithinValues(s, 1.0, 1.0) == Filter(s, within);
    assert Filter([a], within) == [a];
    assert Filter(s, within) == [a];
  }

  /** The k-th smallest value, counting from 0. */
  function LowBound(inBox: seq<GridPoint>, k: nat): real
    requires k < |inBox|
  {
    SortByValue(inBox)[k].value
  }

  /** The k-th largest value, counting from 0. */
  function HighBound(inBox: seq<GridPoint>, k: nat): real
    requires k < |inBox|
  {
    SortByValue(inBox)[|inBox| - 1 - k].value
  }

  /** The trim with symmetric bounds: the k-th smallest and the k-th largest
      value, counting from 0. */
  function Trim(inBox: seq<GridPoint>, fileSize: nat): (r: Result<seq<GridPoint>, string>)
    ensures r.Err? <==> |inBox| <= TrimCount(fileSize)
    ensures r.Ok? ==>
      r.value == WithinValues(inBox, LowBound(inBox, TrimCount(fileSize)), HighBound(inBox, TrimCount(fileSize)))
  {
    var k := TrimCount(fileSize);
    if |inBox| <= k then Err(IndexErrorMessage)
    else Ok(WithinValues(inBox, LowBound(inBox, k), HighBound(inBox, k)))
  }

  /** For k >= 1 the written upper bound `sorted[-k]` is the (k-1)-th largest
      value, so only k - 1 points are cut from the top. */
  lemma UpperBoundAsWrittenOneShort(inBox: seq<GridPoint>, k: nat)
    requires 1 <= k < |inBox|
    ensures SortByValue(inBox)[UpperIndexAsWritten(|inBox|, k)].value == HighBound(inBox, k - 1)
  {
  }

  /** With nothing to trim, the corrected trim keeps every in-box point. */
  lemma ZeroTrimKeepsEverything(inBox: seq<GridPoint>, fileSize: nat)
    requires inBox != [] && TrimCount(fileSize) == 0
    ensures Trim(inBox, fileSize) == Ok(inBox)
  {
    SortedEnds(inBox);
    WithinValuesKeepsAll(inBox, LowBound(inBox, 0), HighBound(inBox, 0));
  }

  /** What the trim returns: in-box points, in file order, each with a value
      between the two bounds, and every in-box point between them. */
  lemma TrimProperties(inBox: seq<GridPoint>, fileSize: nat)
    requires |inBox| > TrimCount(fileSize)
    ensures Trim(inBox, fileSize).Ok?
    ensures var k := TrimCount(fileSize);
      var out := Trim(inBox, fileSize).value;
      && IsSubsequence(out, inBox)
      && (forall p | p in out :: LowBound(inBox, k) <= p.value <= HighBound(inBox, k))
      && (forall p | p in inBox && LowBound(inBox, k) <= p.value <= HighBound(inBox, k) :: p in out)
  {
    var k := TrimCount(fileSize);
    WithinValuesProperties(inBox, LowBound(inBox, k), HighBound(inBox, k));
  }

  // ---------------------------------------------------------------------------
  // The handlers

  /** A `data_*` handler as written (lines 9-85): read the product's file
      (a missing file raises), keep the in-box points, trim as written. */
  method DataRouteAsWritten(product: HeatmapProduct, files: map<string, seq<GridPoint>>, box: Box)
    returns (r: Result<seq<GridPoint>, string>)
    ensures HeatmapFile(product) !in files ==> r.Err?
    ensures HeatmapFile(product) in files ==>
      r == TrimAsWritten(InBoxPoints(files[HeatmapFile(product)], box), |files[HeatmapFile(product)]|)
  {
    var name := HeatmapFile(product);
    if name !in files {
      return Err("No such file or directory: " + name);
    }
    var points := files[name];
    var inBox := BoxFilter(points, box);
    r := TrimAsWritten(inBox, |points|);
  }

  /** The handler with the symmetric trim. */
  method DataRoute(product: HeatmapProduct, files: map<string, seq<GridPoint>>, box: Box)
    returns (r: Result<seq<GridPoint>, string>)
    ensures HeatmapFile(product) !in files ==> r.Err?
    ensures HeatmapFile(product) in files ==>
      r == Trim(InBoxPoints(files[HeatmapFile(product)], box), |files[HeatmapFile(product)]|)
  {
    var name := HeatmapFile(product);
    if name !in files {
      return Err("No such file or directory: " + name);
    }
    var points := files[name];
    var inBox := BoxFilter(points, box);
    r := Trim(inBox, |points|);
  }

  /** Every point the handler returns lies inside the box and came from the file. */
  lemma DataRouteOutputInBox(points: seq<GridPoint>, box: Box)
    requires Trim(InBoxPoints(points, box), |points|).Ok?
    ensures forall p | p in Trim(InBoxPoints(points, box), |points|).value :: InBox(p, box) && p in points
  {
    var inBox := InBoxPoints(points, box);
    var out := Trim(inBox, |points|).value;
    InBoxPointsProperties(points, box);
    TrimProperties(inBox, |points|);
    SubsequenceElements(out, inBox);
    SubsequenceElements(inBox, points);
  }
}
