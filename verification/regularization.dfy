/**
  The regularised flow of a reservoir: the water balance of its series run
  monthly, with the turbined flow of every period replaced by the long-term mean
  inflow, starting half full and serving the turbined flow first.
 */
module Regularization {
  import opened Outcomes
  import opened Calendar
  import Series
  import Cavs
  import Reservoirs
  import Balance
  import Utilities

  /** The initial storage, as a percentage of the band between minimum and maximum volume. */
  const InitialPercentage: int := 50

  /** The priority the regularised flow is computed with. */
  const Priority: string := "Vazão Turbinada"

  /** The mean of a column over all rows of a series that has rows. */
  function MeanOf(f: Series.Frame, col: string): real
    requires Series.WellFormed(f) && col in f.columns && |f.rows| > 0
  {
    Utilities.Sum(Utilities.ColumnValues(f, col)) / |f.rows| as real
  }

  /** The series the balance runs on: a copy whose turbined column holds the mean inflow in
      every row (the column is added when absent), declared monthly. A series without rows
      keeps no values to overwrite. */
  function RegularizedSeries(s: Series.TimeSeries): (r: Result<Series.TimeSeries>)
    requires Series.WellFormed(s.frame)
    ensures r.Err? <==> s.names.inflow !in s.frame.columns
    ensures r.Err? ==> r.error == MissingColumn(s.names.inflow)
    ensures r.Ok? ==> && r.value.names == s.names && r.value.freq == Monthly
                      && r.value.frame.kind == s.frame.kind && r.value.frame.index == s.frame.index
                      && Series.WellFormed(r.value.frame)
                      && r.value.frame.columns == s.frame.columns + {s.names.turbined}
    ensures r.Ok? ==> forall i, c :: 0 <= i < |s.frame.rows| && c in s.frame.columns && c != s.names.turbined ==>
              r.value.frame.rows[i][c] == s.frame.rows[i][c]
    ensures r.Ok? && |s.frame.rows| > 0 ==> forall i :: 0 <= i < |s.frame.rows| ==>
              r.value.frame.rows[i][s.names.turbined] == MeanOf(s.frame, s.names.inflow)
  {
    var f := s.frame;
    if s.names.inflow !in f.columns then Err(MissingColumn(s.names.inflow))
    else
      var rows :=
        if |f.rows| == 0 then f.rows
        else
          var mean := MeanOf(f, s.names.inflow);
          seq(|f.rows|, i requires 0 <= i < |f.rows| => f.rows[i][s.names.turbined := mean]);
      Ok(Series.TimeSeries(Series.Frame(f.kind, f.index, f.columns + {s.names.turbined}, rows), s.names, Monthly))
  }

  /** Over the whole record the regularised turbined flow releases exactly the inflow: the
      replaced column sums to the inflow column. */
  lemma RegularizedTotalMatchesInflow(s: Series.TimeSeries)
    requires Series.WellFormed(s.frame) && s.names.inflow in s.frame.columns
    ensures var t := RegularizedSeries(s).value;
            Utilities.Sum(Utilities.ColumnValues(t.frame, s.names.turbined))
            == Utilities.Sum(Utilities.ColumnValues(s.frame, s.names.inflow))
  {
    var t := RegularizedSeries(s).value;
    var n := |s.frame.rows|;
    if n > 0 {
      var mean := MeanOf(s.frame, s.names.inflow);
      assert Utilities.ColumnValues(t.frame, s.names.turbined) == seq(n, _ => mean);
      Utilities.SumConstant(mean, n);
      assert n as real * (Utilities.Sum(Utilities.ColumnValues(s.frame, s.names.inflow)) / n as real)
             == Utilities.Sum(Utilities.ColumnValues(s.frame, s.names.inflow));
    } else {
      assert Utilities.ColumnValues(t.frame, s.names.turbined) == [];
      assert Utilities.ColumnValues(s.frame, s.names.inflow) == [];
    }
  }

  /** `calcula_vazao_regularizada`: the water balance of the regularised series, half full at
      the start and serving the turbined flow first. */
  function RegularizedFlow(reservoir: Reservoirs.Reservoir, s: Series.TimeSeries, maxIterations: nat)
    : (r: Result<seq<Balance.PeriodResult>>)
    requires Cavs.Supported(reservoir.cav) && Series.WellFormed(s.frame)
    ensures s.names.inflow !in s.frame.columns ==> r == Err(MissingColumn(s.names.inflow))
    ensures s.names.inflow in s.frame.columns && s.frame.kind != Series.PeriodIndex ==> r == Err(InvalidSeriesIndex)
    ensures r.Ok? ==> && s.names.inflow in s.frame.columns
                      && |r.value| == |s.frame.rows|
                      && (forall i :: 0 <= i < |r.value| ==> r.value[i].period == s.frame.index[i])
  {
    var t :- RegularizedSeries(s);
    Balance.WaterBalance(reservoir, Some(t), InitialPercentage, Priority, maxIterations)
  }

  /** A successful regularised flow is the balance of the regularised series. */
  lemma RegularizedFlowIsBalance(reservoir: Reservoirs.Reservoir, s: Series.TimeSeries, maxIterations: nat,
                                 rs: seq<Balance.PeriodResult>)
    requires Cavs.Supported(reservoir.cav) && Series.WellFormed(s.frame)
    requires RegularizedFlow(reservoir, s, maxIterations) == Ok(rs)
    ensures RegularizedSeries(s).Ok?
    ensures Balance.WaterBalance(reservoir, Some(RegularizedSeries(s).value), InitialPercentage, Priority, maxIterations) == Ok(rs)
  {
  }

  /** The regularised run starts half way between the minimum and maximum volume, and every
      period starts where the previous one ended. */
  lemma RegularizedFlowStartsHalfFull(reservoir: Reservoirs.Reservoir, s: Series.TimeSeries, maxIterations: nat,
                                      rs: seq<Balance.PeriodResult>)
    requires Cavs.Supported(reservoir.cav) && Series.WellFormed(s.frame)
    requires RegularizedFlow(reservoir, s, maxIterations) == Ok(rs)
    ensures |rs| > 0 ==> rs[0].initialVolume == (reservoir.volume.minimum + reservoir.volume.maximum) / 2.0
    ensures forall i :: 1 <= i < |rs| ==> rs[i].initialVolume == rs[i - 1].finalVolume
  {
    RegularizedFlowIsBalance(reservoir, s, maxIterations, rs);
  }

  /** No period of the regularised run turbines more than the long-term mean inflow. */
  lemma RegularizedFlowReleasesAtMostMean(reservoir: Reservoirs.Reservoir, s: Series.TimeSeries, maxIterations: nat,
                                          rs: seq<Balance.PeriodResult>)
    requires Cavs.Supported(reservoir.cav) && Series.WellFormed(s.frame)
    requires RegularizedFlow(reservoir, s, maxIterations) == Ok(rs)
    ensures s.names.inflow in s.frame.columns
    ensures |rs| > 0 ==> forall i :: 0 <= i < |rs| ==> rs[i].turbinedRate <= MeanOf(s.frame, s.names.inflow)
  {
    RegularizedFlowIsBalance(reservoir, s, maxIterations, rs);
    var t := RegularizedSeries(s).value;
    assert |rs| == |t.frame.rows|;
  }
}
