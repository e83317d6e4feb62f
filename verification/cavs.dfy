/**
  Elevation-area-volume curves (CAV, "cota-area-volume") of a reservoir.

  A tabulated curve is built from a table whose required columns are validated
  (present, without missing values, non-decreasing once sorted by elevation) and
  then stored sorted by elevation. Two variants exist:
  - `CavReservatorio`: elevation, area and volume all tabulated;
  - `CavReservatorioONS`: area from a cubic polynomial of the elevation, volume
    and elevation from a tabulated elevation-volume curve (`CurvaCotaVolumeONS`).
  Lookups interpolate with the program's clamped-search rule (see module Interpolation).
  The engine sees a curve only through a `Capability`: elevation for a volume and
  area for an elevation.
 */
module Cavs {
  import opened Outcomes
  import opened Interpolation
  import Sorting

  // ---------------------------------------------------------------------------
  // Validation of the table handed to a constructor

  /** A table as handed to a constructor: column names and rows that may hold missing values. */
  datatype CavFrame = CavFrame(columns: set<string>, rows: seq<map<string, Option<real>>>)

  /** Every row has exactly the frame's columns. */
  predicate WellFormedFrame(f: CavFrame) {
    forall i :: 0 <= i < |f.rows| ==> f.rows[i].Keys == f.columns
  }

  /** The columns the validator inspects, elevation first. An absent or empty
      area-column name (false in Python's truth test) leaves the area out. */
  function RequiredColumns(colElevation: string, colArea: Option<string>, colVolume: string): (cols: seq<string>)
    ensures |cols| == (if colArea.Some? && colArea.value != "" then 3 else 2)
    ensures cols[0] == colElevation && cols[|cols| - 1] == colVolume
  {
    if colArea.Some? && colArea.value != "" then [colElevation, colArea.value, colVolume]
    else [colElevation, colVolume]
  }

  predicate AllPresent(f: CavFrame, cols: seq<string>) {
    forall j :: 0 <= j < |cols| ==> cols[j] in f.columns
  }

  predicate HasNull(f: CavFrame, cols: seq<string>)
    requires WellFormedFrame(f) && AllPresent(f, cols)
  {
    exists i, j :: 0 <= i < |f.rows| && 0 <= j < |cols| && f.rows[i][cols[j]].None?
  }

  /** Every row has `width` entries. */
  predicate Rectangular(pts: seq<seq<real>>, width: nat) {
    forall i :: 0 <= i < |pts| ==> |pts[i]| == width
  }

  /** The required columns of every row, in the order of `cols`. */
  function Projection(f: CavFrame, cols: seq<string>): (pts: seq<seq<real>>)
    requires WellFormedFrame(f) && AllPresent(f, cols) && !HasNull(f, cols)
    ensures |pts| == |f.rows| && Rectangular(pts, |cols|)
    ensures forall i, j :: 0 <= i < |pts| && 0 <= j < |cols| ==> f.rows[i][cols[j]] == Some(pts[i][j])
  {
    seq(|f.rows|, i requires 0 <= i < |f.rows| => seq(|cols|, j requires 0 <= j < |cols| => f.rows[i][cols[j]].value))
  }

  /** No entry of the first `width` columns decreases from row `a` to row `b`. */
  predicate RowsInOrder(a: seq<real>, b: seq<real>, width: nat)
    requires |a| == width && |b| == width
  {
    forall j :: 0 <= j < width ==> a[j] <= b[j]
  }

  /** No column decreases from one row to the next (pandas' `diff() < 0` finds nothing). */
  predicate StepsNonDecreasing(pts: seq<seq<real>>, width: nat)
    requires Rectangular(pts, width)
  {
    forall i :: 1 <= i < |pts| ==> RowsInOrder(pts[i - 1], pts[i], width)
  }

  /** Sorting rows keeps their width. */
  lemma SortedRectangular(pts: seq<seq<real>>, width: nat)
    requires width >= 1 && Rectangular(pts, width)
    ensures Sorting.Keyed(pts) && Rectangular(Sorting.SortByKey(pts), width)
  {
    var sorted := Sorting.SortByKey(pts);
    forall i | 0 <= i < |sorted| ensures |sorted[i]| == width {
      assert sorted[i] in sorted;
    }
  }

  /** `__checa_validade_dataframe`: column names first, then missing values, then order after sorting by elevation. */
  function CheckCavFrame(f: CavFrame, colElevation: string, colArea: Option<string>, colVolume: string): (r: Result<()>)
    requires WellFormedFrame(f)
    ensures r.Err? ==> r.error.CavInvalid?
    ensures r.Ok? ==> AllPresent(f, RequiredColumns(colElevation, colArea, colVolume))
                      && !HasNull(f, RequiredColumns(colElevation, colArea, colVolume))
  {
    var cols := RequiredColumns(colElevation, colArea, colVolume);
    if !AllPresent(f, cols) then Err(CavInvalid(MissingColumns))
    else if HasNull(f, cols) then Err(CavInvalid(NullValues))
    else
      SortedRectangular(Projection(f, cols), |cols|);
      var sorted := Sorting.SortByKey(Projection(f, cols));
      if !StepsNonDecreasing(sorted, |cols|) then Err(CavInvalid(OutOfOrder))
      else Ok(())
  }

  /** A missing required column is refused before anything else is looked at. */
  lemma MissingColumnRejected(f: CavFrame, colElevation: string, colArea: Option<string>, colVolume: string, k: int)
    requires WellFormedFrame(f)
    requires 0 <= k < |RequiredColumns(colElevation, colArea, colVolume)|
    requires RequiredColumns(colElevation, colArea, colVolume)[k] !in f.columns
    ensures CheckCavFrame(f, colElevation, colArea, colVolume) == Err(CavInvalid(MissingColumns))
  {
  }

  /** The area column is required by the full curve's check and ignored by the elevation-volume curve's check. */
  lemma AreaRequiredOnlyForFullCav(f: CavFrame, colElevation: string, colArea: string, colVolume: string)
    requires WellFormedFrame(f)
    requires colArea != "" && colArea !in f.columns
    ensures CheckCavFrame(f, colElevation, Some(colArea), colVolume) == Err(CavInvalid(MissingColumns))
    ensures CheckCavFrame(f, colElevation, None, colVolume) == CheckCavFrame(f, colElevation, Some(""), colVolume)
  {
    assert RequiredColumns(colElevation, Some(colArea), colVolume)[1] == colArea;
  }

  /** A missing value in a required column is refused once the columns are present. */
  lemma NullRejected(f: CavFrame, colElevation: string, colArea: Option<string>, colVolume: string, i: int, k: int)
    requires WellFormedFrame(f)
    requires AllPresent(f, RequiredColumns(colElevation, colArea, colVolume))
    requires 0 <= i < |f.rows| && 0 <= k < |RequiredColumns(colElevation, colArea, colVolume)|
    requires f.rows[i][RequiredColumns(colElevation, colArea, colVolume)[k]].None?
    ensures CheckCavFrame(f, colElevation, colArea, colVolume) == Err(CavInvalid(NullValues))
  {
  }

  /** Rows that are equal in every required column are accepted: repeated references pass the check. */
  lemma EqualNeighboursAccepted(row: map<string, Option<real>>)
    requires row.Keys == {"cota", "area", "volume"}
    requires row["cota"].Some? && row["area"].Some? && row["volume"].Some?
    ensures CheckCavFrame(CavFrame({"cota", "area", "volume"}, [row, row]), "cota", Some("area"), "volume") == Ok(())
  {
    var f := CavFrame({"cota", "area", "volume"}, [row, row]);
    var cols := RequiredColumns("cota", Some("area"), "volume");
    var p := Projection(f, cols);
    assert p[0] == p[1];
    assert p == [p[0], p[0]];
    var sorted := Sorting.SortByKey(p);
    assert sorted[0] in sorted && sorted[1] in sorted;
    assert sorted[0] == p[0] && sorted[1] == p[0];
    assert RowsInOrder(sorted[0], sorted[1], |cols|);
  }

  /** The order is judged after sorting by elevation: rows listed top first pass the sort,
      and a volume that falls as the elevation rises is refused. */
  lemma VolumeFallingRejected(upper: map<string, Option<real>>, lower: map<string, Option<real>>)
    requires upper.Keys == {"cota", "volume"} && lower.Keys == {"cota", "volume"}
    requires upper["cota"].Some? && upper["volume"].Some? && lower["cota"].Some? && lower["volume"].Some?
    requires lower["cota"].value < upper["cota"].value && lower["volume"].value > upper["volume"].value
    ensures CheckCavFrame(CavFrame({"cota", "volume"}, [upper, lower]), "cota", None, "volume")
         == Err(CavInvalid(OutOfOrder))
  {
    var f := CavFrame({"cota", "volume"}, [upper, lower]);
    var cols := RequiredColumns("cota", None, "volume");
    assert cols == ["cota", "volume"];
    assert !HasNull(f, cols);
    var p := Projection(f, cols);
    assert p[0] == [upper["cota"].value, upper["volume"].value];
    assert p[1] == [lower["cota"].value, lower["volume"].value];
    var sorted := Sorting.SortByKey(p);
    assert sorted[0] in p && sorted[1] in p && p[0] in sorted && p[1] in sorted;
    assert sorted[0] == p[1] && sorted[1] == p[0];
    assert !RowsInOrder(sorted[0], sorted[1], |cols|);
  }

  // ---------------------------------------------------------------------------
  // Stored tables

  /** A validated table sorted by elevation. `area` is absent for an elevation-volume curve
      and for a full curve built with an empty area-column name. */
  datatype Table = Table(elevation: seq<real>, area: Option<seq<real>>, volume: seq<real>)

  /** All stored columns have the same length. */
  predicate Consistent(t: Table) {
    |t.volume| == |t.elevation| && (t.area.Some? ==> |t.area.value| == |t.elevation|)
  }

  function Column(pts: seq<seq<real>>, width: nat, j: nat): (col: seq<real>)
    requires Rectangular(pts, width) && j < width
    ensures |col| == |pts| && forall i :: 0 <= i < |pts| ==> col[i] == pts[i][j]
  {
    seq(|pts|, i requires 0 <= i < |pts| => pts[i][j])
  }

  /** The rows of a stored table, as (elevation, [area,] volume) points. */
  function Points(t: Table): seq<seq<real>>
    requires Consistent(t)
  {
    seq(|t.elevation|, i requires 0 <= i < |t.elevation| =>
      if t.area.Some? then [t.elevation[i], t.area.value[i], t.volume[i]] else [t.elevation[i], t.volume[i]])
  }

  /** Consecutive steps that never decrease make the whole column non-decreasing. */
  lemma {:induction false} StepsMakeNonDecreasing(pts: seq<seq<real>>, width: nat, j: nat)
    requires Rectangular(pts, width) && j < width
    requires StepsNonDecreasing(pts, width)
    ensures NonDecreasing(Column(pts, width, j))
    decreases |pts|
  {
    if |pts| > 1 {
      var init := pts[..|pts| - 1];
      StepsMakeNonDecreasing(init, width, j);
      var c, ci := Column(pts, width, j), Column(init, width, j);
      forall a, b | 0 <= a <= b < |c|
        ensures c[a] <= c[b]
      {
        if b < |c| - 1 {
          assert c[a] == ci[a] && c[b] == ci[b];
        } else if a < b {
          assert ci[a] <= ci[b - 1];
          assert RowsInOrder(pts[b - 1], pts[b], width);
        }
      }
    }
  }

  /** Every column of `pts` is non-decreasing from top to bottom. */
  predicate ColumnsNonDecreasing(pts: seq<seq<real>>, width: nat)
    requires Rectangular(pts, width)
  {
    forall a, b, j :: 0 <= a <= b < |pts| && 0 <= j < width ==> pts[a][j] <= pts[b][j]
  }

  /** A valid table is accepted: the check passes exactly when the required columns are
      present, hold no missing value, and are all non-decreasing once the rows are sorted
      by elevation. */
  lemma CheckCavFrameAccepts(f: CavFrame, colElevation: string, colArea: Option<string>, colVolume: string)
    requires WellFormedFrame(f)
    ensures var cols := RequiredColumns(colElevation, colArea, colVolume);
            CheckCavFrame(f, colElevation, colArea, colVolume).Ok? <==>
              && AllPresent(f, cols) && !HasNull(f, cols)
              && Sorting.Keyed(Projection(f, cols))
              && Rectangular(Sorting.SortByKey(Projection(f, cols)), |cols|)
              && ColumnsNonDecreasing(Sorting.SortByKey(Projection(f, cols)), |cols|)
  {
    var cols := RequiredColumns(colElevation, colArea, colVolume);
    if AllPresent(f, cols) && !HasNull(f, cols) {
      var w := |cols|;
      SortedRectangular(Projection(f, cols), w);
      var sorted := Sorting.SortByKey(Projection(f, cols));
      if StepsNonDecreasing(sorted, w) {
        forall a, b, j | 0 <= a <= b < |sorted| && 0 <= j < w
          ensures sorted[a][j] <= sorted[b][j]
        {
          StepsMakeNonDecreasing(sorted, w, j);
          assert Column(sorted, w, j)[a] <= Column(sorted, w, j)[b];
        }
      }
      if ColumnsNonDecreasing(sorted, w) {
        forall i | 1 <= i < |sorted| ensures RowsInOrder(sorted[i - 1], sorted[i], w) {
        }
      }
    }
  }

  /** Rows of a table ordered by elevation: a higher elevation never has a smaller entry in
      any column, and rows of equal elevation are equal. */
  predicate Comonotone(pts: seq<seq<real>>, width: nat)
    requires Rectangular(pts, width) && width >= 1
  {
    forall a, b :: 0 <= a < |pts| && 0 <= b < |pts| ==>
      && (pts[a][0] < pts[b][0] ==> RowsInOrder(pts[a], pts[b], width))
      && (pts[a][0] == pts[b][0] ==> pts[a] == pts[b])
  }

  /** A table whose rows, in whatever order they are listed, rise together in every column
      is accepted; no particular order of the rows, nor of the sort, matters. */
  lemma ComonotoneTableAccepted(f: CavFrame, colElevation: string, colArea: Option<string>, colVolume: string)
    requires WellFormedFrame(f)
    requires AllPresent(f, RequiredColumns(colElevation, colArea, colVolume))
    requires !HasNull(f, RequiredColumns(colElevation, colArea, colVolume))
    requires Comonotone(Projection(f, RequiredColumns(colElevation, colArea, colVolume)),
                        |RequiredColumns(colElevation, colArea, colVolume)|)
    ensures CheckCavFrame(f, colElevation, colArea, colVolume) == Ok(())
  {
    var cols := RequiredColumns(colElevation, colArea, colVolume);
    var w := |cols|;
    var p := Projection(f, cols);
    SortedRectangular(p, w);
    var sorted := Sorting.SortByKey(p);
    forall i | 1 <= i < |sorted| ensures RowsInOrder(sorted[i - 1], sorted[i], w) {
      assert sorted[i - 1] in sorted && sorted[i] in sorted;
      var a :| 0 <= a < |p| && p[a] == sorted[i - 1];
      var b :| 0 <= b < |p| && p[b] == sorted[i];
      assert sorted[i - 1][0] <= sorted[i][0];
    }
  }

  /** An accepted table has no pair of rows where the higher elevation carries a smaller
      entry in some column, whatever order the rows were listed in. */
  lemma AcceptedTableRisesWithElevation(f: CavFrame, colElevation: string, colArea: Option<string>, colVolume: string,
                                        a: int, b: int)
    requires WellFormedFrame(f)
    requires CheckCavFrame(f, colElevation, colArea, colVolume).Ok?
    requires 0 <= a < |f.rows| && 0 <= b < |f.rows|
    requires f.rows[a][colElevation].value < f.rows[b][colElevation].value
    ensures var cols := RequiredColumns(colElevation, colArea, colVolume);
            forall j :: 0 <= j < |cols| ==> f.rows[a][cols[j]].value <= f.rows[b][cols[j]].value
  {
    var cols := RequiredColumns(colElevation, colArea, colVolume);
    var w := |cols|;
    var p := Projection(f, cols);
    CheckCavFrameAccepts(f, colElevation, colArea, colVolume);
    var sorted := Sorting.SortByKey(p);
    assert p[a] in p && p[b] in p;
    var x :| 0 <= x < |sorted| && sorted[x] == p[a];
    var y :| 0 <= y < |sorted| && sorted[y] == p[b];
    assert p[a][0] < p[b][0];
    assert x < y by {
      if y <= x {
        assert false;
      }
    }
    forall j | 0 <= j < w ensures f.rows[a][cols[j]].value <= f.rows[b][cols[j]].value {
      assert sorted[x][j] <= sorted[y][j];
    }
  }

  /** The columns of a table of two or three columns, the middle one as the area. */
  function TableOfColumns(pts: seq<seq<real>>, w: nat): (t: Table)
    requires Rectangular(pts, w) && (w == 2 || w == 3)
    ensures Consistent(t) && Points(t) == pts
    ensures t.area.Some? <==> w == 3
    ensures t.elevation == Column(pts, w, 0) && t.volume == Column(pts, w, w - 1)
    ensures w == 3 ==> t.area.value == Column(pts, w, 1)
  {
    var t := Table(Column(pts, w, 0), if w == 3 then Some(Column(pts, w, 1)) else None, Column(pts, w, w - 1));
    assert Points(t) == pts by {
      forall i | 0 <= i < |pts| ensures Points(t)[i] == pts[i] {
        if w == 3 {
          assert pts[i] == [pts[i][0], pts[i][1], pts[i][2]];
        } else {
          assert pts[i] == [pts[i][0], pts[i][1]];
        }
      }
    }
    t
  }

  /** Validates the frame and stores its required columns sorted by elevation. */
  function BuildTable(f: CavFrame, colElevation: string, colArea: Option<string>, colVolume: string): (r: Result<Table>)
    requires WellFormedFrame(f)
    ensures r.Ok? <==> CheckCavFrame(f, colElevation, colArea, colVolume).Ok?
    ensures r.Err? ==> r.error == CheckCavFrame(f, colElevation, colArea, colVolume).error
    ensures r.Ok? ==> Consistent(r.value) && |r.value.elevation| == |f.rows|
    ensures r.Ok? ==> (r.value.area.Some? <==> colArea.Some? && colArea.value != "")
    ensures r.Ok? ==> NonDecreasing(r.value.elevation) && NonDecreasing(r.value.volume)
    ensures r.Ok? && r.value.area.Some? ==> NonDecreasing(r.value.area.value)
    ensures r.Ok? ==> multiset(Points(r.value)) == multiset(Projection(f, RequiredColumns(colElevation, colArea, colVolume)))
  {
    var check := CheckCavFrame(f, colElevation, colArea, colVolume);
    if check.Err? then Err(check.error)
    else
      var cols := RequiredColumns(colElevation, colArea, colVolume);
      var w := |cols|;
      SortedRectangular(Projection(f, cols), w);
      var pts := Sorting.SortByKey(Projection(f, cols));
      var t := TableOfColumns(pts, w);
      StepsMakeNonDecreasing(pts, w, 0);
      StepsMakeNonDecreasing(pts, w, w - 1);
      StepsMakeNonDecreasing(pts, w, if w == 3 then 1 else 0);
      Ok(t)
  }

  /** `CavReservatorio(cav, col_cota, col_area, col_vol)`: the full curve. */
  function NewCavReservatorio(f: CavFrame, colElevation: string, colArea: string, colVolume: string): (r: Result<Table>)
    requires WellFormedFrame(f)
    ensures r.Ok? <==> CheckCavFrame(f, colElevation, Some(colArea), colVolume).Ok?
    ensures r.Ok? ==> Consistent(r.value) && NonDecreasing(r.value.elevation) && NonDecreasing(r.value.volume)
    ensures r.Ok? ==> (r.value.area.Some? <==> colArea != "")
    ensures r.Ok? && r.value.area.Some? ==> NonDecreasing(r.value.area.value)
    ensures r.Ok? ==> multiset(Points(r.value)) == multiset(Projection(f, RequiredColumns(colElevation, Some(colArea), colVolume)))
  {
    BuildTable(f, colElevation, Some(colArea), colVolume)
  }

  /** `CurvaCotaVolumeONS(curva, coluna_cota, coluna_volume)`: the elevation-volume curve. */
  function NewCotaVolumeCurve(f: CavFrame, colElevation: string, colVolume: string): (r: Result<Table>)
    requires WellFormedFrame(f)
    ensures r.Ok? <==> CheckCavFrame(f, colElevation, None, colVolume).Ok?
    ensures r.Ok? ==> Consistent(r.value) && r.value.area.None?
    ensures r.Ok? ==> NonDecreasing(r.value.elevation) && NonDecreasing(r.value.volume)
    ensures r.Ok? ==> multiset(Points(r.value)) == multiset(Projection(f, [colElevation, colVolume]))
  {
    BuildTable(f, colElevation, None, colVolume)
  }

  // ---------------------------------------------------------------------------
  // Lookups of a tabulated curve: each scalar lookup is element 0 of its vector form

  function AreasByElevations(t: Table, hs: seq<real>): (r: Result<seq<Float>>)
    requires Consistent(t)
    ensures t.area.None? ==> r == Err(MissingColumn(""))
    ensures t.area.Some? && |t.elevation| >= 2 ==>
              && r.Ok? && |r.value| == |hs|
              && forall i :: 0 <= i < |hs| ==> Interpolate(ClampedSearch, t.elevation, t.area.value, hs[i]) == Ok(r.value[i])
  {
    if t.area.None? then Err(MissingColumn(""))
    else InterpolateMany(ClampedSearch, t.elevation, t.area.value, hs)
  }

  function AreaByElevation(t: Table, h: real): (r: Result<Float>)
    requires Consistent(t)
    ensures t.area.None? ==> r == Err(MissingColumn(""))
    ensures t.area.Some? ==> r == Interpolate(ClampedSearch, t.elevation, t.area.value, h)
  {
    var many := AreasByElevations(t, [h]);
    if t.area.None? then Err(many.error)
    else
      ScalarIsFirstOfVector(ClampedSearch, t.elevation, t.area.value, h);
      if many.Err? then Err(many.error) else Ok(many.value[0])
  }

  function VolumesByElevations(t: Table, hs: seq<real>): (r: Result<seq<Float>>)
    requires Consistent(t)
    ensures |t.elevation| >= 2 ==>
              && r.Ok? && |r.value| == |hs|
              && forall i :: 0 <= i < |hs| ==> Interpolate(ClampedSearch, t.elevation, t.volume, hs[i]) == Ok(r.value[i])
  {
    InterpolateMany(ClampedSearch, t.elevation, t.volume, hs)
  }

  function VolumeByElevation(t: Table, h: real): (r: Result<Float>)
    requires Consistent(t)
    ensures r == Interpolate(ClampedSearch, t.elevation, t.volume, h)
  {
    ScalarIsFirstOfVector(ClampedSearch, t.elevation, t.volume, h);
    var many := VolumesByElevations(t, [h]);
    if many.Err? then Err(many.error) else Ok(many.value[0])
  }

  function ElevationsByVolumes(t: Table, vs: seq<real>): (r: Result<seq<Float>>)
    requires Consistent(t)
    ensures |t.volume| >= 2 ==>
              && r.Ok? && |r.value| == |vs|
              && forall i :: 0 <= i < |vs| ==> Interpolate(ClampedSearch, t.volume, t.elevation, vs[i]) == Ok(r.value[i])
  {
    InterpolateMany(ClampedSearch, t.volume, t.elevation, vs)
  }

  function ElevationByVolume(t: Table, v: real): (r: Result<Float>)
    requires Consistent(t)
    ensures r == Interpolate(ClampedSearch, t.volume, t.elevation, v)
  {
    ScalarIsFirstOfVector(ClampedSearch, t.volume, t.elevation, v);
    var many := ElevationsByVolumes(t, [v]);
    if many.Err? then Err(many.error) else Ok(many.value[0])
  }

  /** At a tabulated row of a curve with distinct elevations and volumes, every lookup
      returns the tabulated value, and elevation and volume lookups invert each other there. */
  lemma LookupsAtRow(t: Table, k: int)
    requires Consistent(t) && |t.elevation| >= 2
    requires StrictlyIncreasing(t.elevation) && StrictlyIncreasing(t.volume)
    requires 0 <= k < |t.elevation|
    ensures VolumeByElevation(t, t.elevation[k]) == Ok(Finite(t.volume[k]))
    ensures ElevationByVolume(t, t.volume[k]) == Ok(Finite(t.elevation[k]))
    ensures t.area.Some? ==> AreaByElevation(t, t.elevation[k]) == Ok(Finite(t.area.value[k]))
  {
    ClampedAtKnot(t.elevation, t.volume, k);
    ClampedAtKnot(t.volume, t.elevation, k);
    if t.area.Some? {
      ClampedAtKnot(t.elevation, t.area.value, k);
    }
  }

  /** `CurvaCotaVolumeONS.calcula_cotas_por` as written: it looks the volumes up in the
      elevation column, so it returns the volume-by-elevation interpolation of the volumes. */
  function CurveElevationsByVolumesAsWritten(t: Table, vs: seq<real>): (r: Result<seq<Float>>)
    requires Consistent(t)
    ensures r == VolumesByElevations(t, vs)
  {
    InterpolateMany(ClampedSearch, t.elevation, t.volume, vs)
  }

  /** The discrepancy on a concrete curve: elevations 0..10 against volumes 0..100;
      the volume 50 yields 500 instead of the elevation 5. */
  lemma CurveElevationsCounterexample()
    ensures CurveElevationsByVolumesAsWritten(Table([0.0, 10.0], None, [0.0, 100.0]), [50.0]) == Ok([Finite(500.0)])
    ensures ElevationsByVolumes(Table([0.0, 10.0], None, [0.0, 100.0]), [50.0]) == Ok([Finite(5.0)])
  {
    var t := Table([0.0, 10.0], None, [0.0, 100.0]);
    ScalarIsFirstOfVector(ClampedSearch, t.elevation, t.volume, 50.0);
    ScalarIsFirstOfVector(ClampedSearch, t.volume, t.elevation, 50.0);
    assert Interpolate(ClampedSearch, t.elevation, t.volume, 50.0) == Ok(Finite(500.0)) by {
      assert FirstAtLeast(t.elevation, 50.0) == 2 by {
        assert FirstAtLeast(t.elevation[1..], 50.0) == 1;
      }
    }
    assert Interpolate(ClampedSearch, t.volume, t.elevation, 50.0) == Ok(Finite(5.0)) by {
      assert FirstAtLeast(t.volume, 50.0) == 1 by {
        assert FirstAtLeast(t.volume[1..], 50.0) == 0;
      }
    }
  }

  /** The vector elevation lookup agrees element by element with the scalar one. */
  lemma ElevationsByVolumesElementwise(t: Table, vs: seq<real>)
    requires Consistent(t) && |t.elevation| >= 2
    ensures ElevationsByVolumes(t, vs).Ok?
    ensures forall i :: 0 <= i < |vs| ==> ElevationByVolume(t, vs[i]) == Ok(ElevationsByVolumes(t, vs).value[i])
  {
  }

  // ---------------------------------------------------------------------------
  // The hybrid curve of `CavReservatorioONS`

  /** `ParametrosPolinomiosONS`: coefficients of the area polynomial; `e` is never used. */
  datatype PolynomialCoefficients = PolynomialCoefficients(a: real, b: real, c: real, d: real, e: real)

  datatype HybridCav = HybridCav(area: PolynomialCoefficients, curve: Table)

  /** numpy's polynomial evaluation (Horner's scheme) of coefficients in ascending degree. */
  function EvaluatePolynomial(coefficients: seq<real>, x: real): real {
    if |coefficients| == 0 then 0.0 else coefficients[0] + x * EvaluatePolynomial(coefficients[1..], x)
  }

  /** `__retorna_polinomial`: the polynomial built from a, b, c and d only. */
  function AreaPolynomial(p: PolynomialCoefficients): seq<real> {
    [p.a, p.b, p.c, p.d]
  }

  function HybridAreaByElevation(cav: HybridCav, h: real): (x: real)
    ensures x == cav.area.a + cav.area.b * h + cav.area.c * h * h + cav.area.d * h * h * h
  {
    var p := cav.area;
    var cs := AreaPolynomial(p);
    assert cs[1..][1..][1..][1..] == [];
    assert EvaluatePolynomial(cs[1..][1..][1..], h) == p.d;
    assert EvaluatePolynomial(cs[1..][1..], h) == p.c + h * p.d;
    assert EvaluatePolynomial(cs[1..], h) == p.b + h * (p.c + h * p.d);
    assert p.a + h * (p.b + h * (p.c + h * p.d)) == p.a + p.b * h + p.c * h * h + p.d * h * h * h;
    EvaluatePolynomial(cs, h)
  }

  function HybridAreasByElevations(cav: HybridCav, hs: seq<real>): (r: seq<real>)
    ensures |r| == |hs| && forall i :: 0 <= i < |hs| ==> r[i] == HybridAreaByElevation(cav, hs[i])
  {
    seq(|hs|, i requires 0 <= i < |hs| => EvaluatePolynomial(AreaPolynomial(cav.area), hs[i]))
  }

  /** The fifth coefficient has no influence on the area. */
  lemma HybridAreaIgnoresE(cav: HybridCav, e: real, h: real)
    ensures HybridAreaByElevation(cav.(area := cav.area.(e := e)), h) == HybridAreaByElevation(cav, h)
  {
  }

  /** `CavReservatorioONS.calcula_volume_por`: delegated to the elevation-volume curve. */
  function HybridVolumeByElevation(cav: HybridCav, h: real): (r: Result<Float>)
    requires Consistent(cav.curve)
    ensures |cav.curve.elevation| >= 2 ==> r.Ok?
    ensures r == Interpolate(ClampedSearch, cav.curve.elevation, cav.curve.volume, h)
  {
    VolumeByElevation(cav.curve, h)
  }

  function HybridVolumesByElevations(cav: HybridCav, hs: seq<real>): (r: Result<seq<Float>>)
    requires Consistent(cav.curve)
    ensures |cav.curve.elevation| >= 2 ==>
              && r.Ok? && |r.value| == |hs|
              && forall i :: 0 <= i < |hs| ==> HybridVolumeByElevation(cav, hs[i]) == Ok(r.value[i])
  {
    VolumesByElevations(cav.curve, hs)
  }

  /** `CavReservatorioONS.calcula_cota_por`: delegated to the elevation-volume curve. */
  function HybridElevationByVolume(cav: HybridCav, v: real): (r: Result<Float>)
    requires Consistent(cav.curve)
    ensures |cav.curve.elevation| >= 2 ==> r.Ok?
    ensures r == Interpolate(ClampedSearch, cav.curve.volume, cav.curve.elevation, v)
  {
    ElevationByVolume(cav.curve, v)
  }

  /** The hybrid curve's volume and elevation lookups are the tabulated curve's: at a row of
      a curve with distinct entries they return that row's values. */
  lemma HybridLookupsFollowCurve(cav: HybridCav, k: int)
    requires Consistent(cav.curve) && |cav.curve.elevation| >= 2
    requires StrictlyIncreasing(cav.curve.elevation) && StrictlyIncreasing(cav.curve.volume)
    requires 0 <= k < |cav.curve.elevation|
    ensures HybridVolumeByElevation(cav, cav.curve.elevation[k]) == Ok(Finite(cav.curve.volume[k]))
    ensures HybridElevationByVolume(cav, cav.curve.volume[k]) == Ok(Finite(cav.curve.elevation[k]))
  {
    LookupsAtRow(cav.curve, k);
  }

  // ---------------------------------------------------------------------------
  // The capability the engine uses

  /** The curve a reservoir carries: either variant satisfies the `CAV` protocol. */
  datatype CavVariant = FullCav(table: Table) | OnsCav(hybrid: HybridCav)

  /** `calcula_cota_por(volume=v)` of either variant. */
  function ElevationOf(cav: CavVariant, v: real): (r: Result<Float>)
    requires Consistent(if cav.FullCav? then cav.table else cav.hybrid.curve)
    ensures var t := if cav.FullCav? then cav.table else cav.hybrid.curve;
            r == Interpolate(ClampedSearch, t.volume, t.elevation, v)
  {
    match cav
    case FullCav(t) => ElevationByVolume(t, v)
    case OnsCav(hybrid) => HybridElevationByVolume(hybrid, v)
  }

  /** `calcula_area_por(cota=h)` of either variant. */
  function AreaOf(cav: CavVariant, h: real): (r: Result<Float>)
    requires Consistent(if cav.FullCav? then cav.table else cav.hybrid.curve)
    ensures cav.FullCav? && cav.table.area.None? ==> r.Err?
    ensures cav.FullCav? && cav.table.area.Some? ==> r == Interpolate(ClampedSearch, cav.table.elevation, cav.table.area.value, h)
    ensures cav.OnsCav? ==> r.Ok? && r.value.Finite?
  {
    match cav
    case FullCav(t) => AreaByElevation(t, h)
    case OnsCav(hybrid) => Ok(Finite(HybridAreaByElevation(hybrid, h)))
  }

  /** The two lookups the engine needs, as total functions. */
  datatype Capability = Capability(elevationForVolume: real -> real, areaForElevation: real -> real)

  /** A curve whose lookups always yield numbers: at least two rows, strictly increasing
      reference columns, and an area column when the area is tabulated. */
  predicate Supported(cav: CavVariant) {
    match cav
    case FullCav(t) =>
      Consistent(t) && |t.elevation| >= 2 && t.area.Some?
      && StrictlyIncreasing(t.elevation) && StrictlyIncreasing(t.volume)
    case OnsCav(hybrid) =>
      Consistent(hybrid.curve) && |hybrid.curve.elevation| >= 2 && StrictlyIncreasing(hybrid.curve.volume)
  }

  function CapabilityOf(cav: CavVariant): (cap: Capability)
    requires Supported(cav)
    ensures forall v :: ElevationOf(cav, v) == Ok(Finite(cap.elevationForVolume(v)))
    ensures forall h :: AreaOf(cav, h) == Ok(Finite(cap.areaForElevation(h)))
  {
    match cav
    case FullCav(t) =>
      var cap := Capability(v => LookupValue(t.volume, t.elevation, v), h => LookupValue(t.elevation, t.area.value, h));
      assert forall v :: ElevationOf(cav, v) == Ok(Finite(cap.elevationForVolume(v))) by {
        forall v ensures ElevationOf(cav, v) == Ok(Finite(cap.elevationForVolume(v))) {
          assert ElevationOf(cav, v) == ElevationByVolume(t, v);
        }
      }
      assert forall h :: AreaOf(cav, h) == Ok(Finite(cap.areaForElevation(h))) by {
        forall h ensures AreaOf(cav, h) == Ok(Finite(cap.areaForElevation(h))) {
          assert AreaOf(cav, h) == AreaByElevation(t, h);
        }
      }
      cap
    case OnsCav(hybrid) =>
      var c := hybrid.curve;
      var cap := Capability(v => LookupValue(c.volume, c.elevation, v), h => HybridAreaByElevation(hybrid, h));
      assert forall v :: ElevationOf(cav, v) == Ok(Finite(cap.elevationForVolume(v))) by {
        forall v ensures ElevationOf(cav, v) == Ok(Finite(cap.elevationForVolume(v))) {
          assert ElevationOf(cav, v) == ElevationByVolume(c, v);
        }
      }
      cap
  }
}
