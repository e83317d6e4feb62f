/**
  Monthly helpers built on a time series: the ratio of the mean turbined flow to
  the mean inflow in each calendar month, a turbined column rebuilt from such
  monthly ratios, and a per-row series spread from a twelve-month vector.

  pandas' group means are modelled as sums over the rows of a calendar month
  divided by their count; a division by zero (an empty month never arises, a
  month of zero inflow does) is the non-finite value.
 */
module Utilities {
  import opened Outcomes
  import opened Calendar
  import Series
  import Interpolation

  type Float = Interpolation.Float

  // ---------------------------------------------------------------------------
  // Sums over the rows of a month

  function Sum(xs: seq<real>): real {
    if |xs| == 0 then 0.0 else xs[0] + Sum(xs[1..])
  }

  /** The values of a column, row by row. */
  function ColumnValues(f: Series.Frame, col: string): (xs: seq<real>)
    requires Series.WellFormed(f) && col in f.columns
    ensures |xs| == |f.rows|
  {
    seq(|f.rows|, i requires 0 <= i < |f.rows| => f.rows[i][col])
  }

  /** The calendar month of every index entry. */
  function MonthsOf(f: Series.Frame): (ms: seq<int>)
    ensures |ms| == |f.index|
  {
    seq(|f.index|, i requires 0 <= i < |f.index| => f.index[i].month)
  }

  /** The months the index holds: the groups of `groupby(index.month)`. */
  function MonthsPresent(f: Series.Frame): set<int> {
    set i | 0 <= i < |f.index| :: f.index[i].month
  }

  /** How many entries of `months` are `m`. */
  function Occurrences(months: seq<int>, m: int): (n: nat)
    ensures n == 0 <==> m !in months
  {
    if |months| == 0 then 0
    else
      assert m in months <==> months[0] == m || m in months[1..];
      (if months[0] == m then 1 else 0) + Occurrences(months[1..], m)
  }

  lemma PresentMonthValid(f: Series.Frame, m: int)
    requires Series.WellFormed(f) && m in MonthsPresent(f)
    ensures ValidMonth(m)
  {
    var i :| 0 <= i < |f.index| && f.index[i].month == m;
  }

  /** The entries of `values` whose month is `m`, in row order. */
  function InMonth(months: seq<int>, values: seq<real>, m: int): (r: seq<real>)
    requires |months| == |values|
    ensures |r| == Occurrences(months, m) <= |values|
  {
    if |months| == 0 then []
    else
      (if months[0] == m then [values[0]] else []) + InMonth(months[1..], values[1..], m)
  }

  /** The total of a column over the rows of month `m`. */
  function MonthTotal(f: Series.Frame, col: string, m: int): real
    requires Series.WellFormed(f) && col in f.columns
  {
    Sum(InMonth(MonthsOf(f), ColumnValues(f, col), m))
  }

  lemma SumCons(x: real, xs: seq<real>)
    ensures Sum([x] + xs) == x + Sum(xs)
  {
    assert ([x] + xs)[1..] == xs;
  }

  lemma {:induction false} SumAppend(xs: seq<real>, ys: seq<real>)
    ensures Sum(xs + ys) == Sum(xs) + Sum(ys)
    decreases |xs|
  {
    if |xs| == 0 {
      assert xs + ys == ys;
    } else {
      assert (xs + ys)[0] == xs[0];
      assert (xs + ys)[1..] == xs[1..] + ys;
      SumAppend(xs[1..], ys);
    }
  }

  /** Every value times the factor of its row's month. */
  function ScaleByMonth(months: seq<int>, values: seq<real>, factor: map<int, real>): (r: seq<real>)
    requires |months| == |values| && forall i :: 0 <= i < |months| ==> months[i] in factor
    ensures |r| == |values|
  {
    if |months| == 0 then []
    else [values[0] * factor[months[0]]] + ScaleByMonth(months[1..], values[1..], factor)
  }

  lemma {:induction false} ScaleByMonthAt(months: seq<int>, values: seq<real>, factor: map<int, real>)
    requires |months| == |values| && forall i :: 0 <= i < |months| ==> months[i] in factor
    ensures forall i :: 0 <= i < |months| ==> ScaleByMonth(months, values, factor)[i] == values[i] * factor[months[i]]
    decreases |months|
  {
    if |months| > 0 {
      ScaleByMonthAt(months[1..], values[1..], factor);
      var r := ScaleByMonth(months, values, factor);
      assert r[1..] == ScaleByMonth(months[1..], values[1..], factor);
      forall i | 1 <= i < |months|
        ensures r[i] == values[i] * factor[months[i]]
      {
        assert r[i] == r[1..][i - 1];
      }
    }
  }

  lemma Cancel(x: real, y: real, t: real)
    requires t != 0.0 && x * t == y * t
    ensures x == y
  {
    assert (x - y) * t == 0.0;
  }

  /** A rate that fits totals related by a known factor is that factor. */
  lemma RecoverRate(q: Float, turbinedTotal: real, inflowTotal: real, inflowBefore: real, rate: real)
    requires RateFits(q, turbinedTotal, inflowTotal)
    requires inflowTotal == inflowBefore && turbinedTotal == rate * inflowBefore
    ensures q.Finite? <==> inflowBefore != 0.0
    ensures inflowBefore != 0.0 ==> q == Interpolation.Finite(rate)
  {
    if inflowTotal != 0.0 {
      Cancel(q.value, rate, inflowTotal);
    }
  }

  lemma Distribute(a: real, b: real, c: real)
    ensures a * c + c * b == c * (a + b)
  {
  }

  /** Scaling every row by its month's factor scales the month's total by that month's factor. */
  lemma {:induction false} InMonthScaled(months: seq<int>, values: seq<real>, factor: map<int, real>, m: int)
    requires |months| == |values| && forall i :: 0 <= i < |months| ==> months[i] in factor
    requires m in factor
    ensures Sum(InMonth(months, ScaleByMonth(months, values, factor), m)) == factor[m] * Sum(InMonth(months, values, m))
    decreases |months|
  {
    if |months| > 0 {
      var scaled := ScaleByMonth(months, values, factor);
      var tail := ScaleByMonth(months[1..], values[1..], factor);
      assert scaled[0] == values[0] * factor[months[0]] && scaled[1..] == tail;
      InMonthScaled(months[1..], values[1..], factor, m);
      var rest := InMonth(months[1..], values[1..], m);
      var scaledRest := InMonth(months[1..], tail, m);
      if months[0] == m {
        SumCons(values[0], rest);
        SumCons(scaled[0], scaledRest);
        Distribute(values[0], Sum(rest), factor[m]);
      } else {
        assert InMonth(months, values, m) == [] + rest == rest;
        assert InMonth(months, scaled, m) == [] + scaledRest == scaledRest;
      }
    }
  }

  /** Selecting a month commutes with keeping a column unchanged. */
  lemma SameValuesSameSelection(f: Series.Frame, g: Series.Frame, colF: string, colG: string, m: int)
    requires Series.WellFormed(f) && Series.WellFormed(g) && colF in f.columns && colG in g.columns
    requires g.index == f.index
    requires forall i :: 0 <= i < |f.rows| ==> g.rows[i][colG] == f.rows[i][colF]
    ensures MonthTotal(g, colG, m) == MonthTotal(f, colF, m)
  {
    assert MonthsOf(g) == MonthsOf(f);
    assert ColumnValues(g, colG) == ColumnValues(f, colF);
  }

  // ---------------------------------------------------------------------------
  // gera_taxa_mensal_de_qturbinada_em_funcao_da_qafluente

  /** The quotient of two group means over the same rows; pandas yields inf or NaN, here
      the non-finite value, when the divisor is zero. */
  function MeanRatio(numerator: seq<real>, denominator: seq<real>): (r: Float)
    requires |numerator| == |denominator|
    ensures r.Finite? <==> Sum(denominator) != 0.0
    ensures r.Finite? ==> r.value * Sum(denominator) == Sum(numerator)
  {
    if Sum(denominator) == 0.0 then Interpolation.NonFinite
    else
      var n := |denominator| as real;
      assert n > 0.0;
      var q := (Sum(numerator) / n) / (Sum(denominator) / n);
      assert q * (Sum(denominator) / n) == Sum(numerator) / n;
      assert q * Sum(denominator) == n * (q * (Sum(denominator) / n));
      Interpolation.Finite(q)
  }

  /** `rate` is the factor that turns a month's inflow total into its turbined total: finite
      exactly when the inflow total is not zero. */
  predicate RateFits(rate: Float, turbinedTotal: real, inflowTotal: real) {
    && (rate.Finite? <==> inflowTotal != 0.0)
    && (rate.Finite? ==> rate.value * inflowTotal == turbinedTotal)
  }

  /** The rate of one month: mean turbined flow over mean inflow in its rows. */
  function RateOfMonth(f: Series.Frame, colTurbined: string, colInflow: string, m: int): (q: Float)
    requires Series.WellFormed(f) && colInflow in f.columns && colTurbined in f.columns
    ensures RateFits(q, MonthTotal(f, colTurbined, m), MonthTotal(f, colInflow, m))
  {
    var months := MonthsOf(f);
    var turbined := InMonth(months, ColumnValues(f, colTurbined), m);
    var inflow := InMonth(months, ColumnValues(f, colInflow), m);
    assert Sum(turbined) == MonthTotal(f, colTurbined, m) && Sum(inflow) == MonthTotal(f, colInflow, m);
    MeanRatio(turbined, inflow)
  }

  /** The rate of every month the index holds, on a series holding both columns. */
  function RatesOf(f: Series.Frame, colTurbined: string, colInflow: string): (rates: map<int, Float>)
    requires Series.WellFormed(f) && colInflow in f.columns && colTurbined in f.columns
    ensures rates.Keys == MonthsPresent(f)
    ensures forall m :: m in rates ==> RateFits(rates[m], MonthTotal(f, colTurbined, m), MonthTotal(f, colInflow, m))
  {
    map m | m in MonthsPresent(f) :: RateOfMonth(f, colTurbined, colInflow, m)
  }

  /** `gera_taxa_mensal_de_qturbinada_em_funcao_da_qafluente`: the series checks, then per
      calendar month present the mean turbined flow divided by the mean inflow. Its final
      twelve-month guard compares two `None`s and never fires, so months absent from the index
      are simply absent from the map. */
  function MonthlyRates(f: Series.Frame, colTurbined: string, colInflow: string, freq: Frequency): (r: Result<map<int, Float>>)
    requires Series.WellFormed(f)
    ensures r.Err? <==> Series.CheckSeries(f, freq, [colInflow, colTurbined]).Err?
    ensures r.Err? ==> Series.CheckSeries(f, freq, [colInflow, colTurbined]) == Err(r.error)
    ensures r.Ok? ==> colInflow in f.columns && colTurbined in f.columns && r.value.Keys == MonthsPresent(f)
    ensures r.Ok? ==> forall m :: m in r.value ==>
              RateFits(r.value[m], MonthTotal(f, colTurbined, m), MonthTotal(f, colInflow, m))
  {
    var check := Series.CheckSeries(f, freq, [colInflow, colTurbined]);
    if check.Err? then Err(check.error)
    else
      assert [colInflow, colTurbined][0] == colInflow && [colInflow, colTurbined][1] == colTurbined;
      Ok(RatesOf(f, colTurbined, colInflow))
  }

  // ---------------------------------------------------------------------------
  // insere_qturbinada_na_serie_temporal_com_taxa_mensal

  /** The first month from `from` to 12 that has no entry, if any. */
  function FirstMissingMonth<T>(vector: map<int, T>, from: int): (r: Option<int>)
    requires 1 <= from <= 13
    ensures r.None? <==> forall k :: from <= k <= 12 ==> k in vector
    ensures r.Some? ==> from <= r.value <= 12 && r.value !in vector
                        && forall k :: from <= k < r.value ==> k in vector
    decreases 13 - from
  {
    if from == 13 then None
    else if from !in vector then Some(from)
    else FirstMissingMonth(vector, from + 1)
  }

  /** The series with every row's turbined flow set to its inflow times its month's rate,
      the column being added when absent. */
  function InsertedFrame(f: Series.Frame, rates: map<int, real>, colTurbined: string, colInflow: string)
    : (g: Series.Frame)
    requires Series.WellFormed(f) && colInflow in f.columns
    requires forall k :: 1 <= k <= 12 ==> k in rates
    ensures Series.WellFormed(g) && g.kind == f.kind && g.index == f.index
    ensures g.columns == f.columns + {colTurbined}
    ensures ColumnValues(g, colTurbined) == ScaleByMonth(MonthsOf(f), ColumnValues(f, colInflow), rates)
    ensures forall i, c :: 0 <= i < |f.rows| && c in f.columns && c != colTurbined ==> g.rows[i][c] == f.rows[i][c]
  {
    var turbined := ScaleByMonth(MonthsOf(f), ColumnValues(f, colInflow), rates);
    var rows := seq(|f.rows|, i requires 0 <= i < |f.rows| => f.rows[i][colTurbined := turbined[i]]);
    Series.Frame(f.kind, f.index, f.columns + {colTurbined}, rows)
  }

  /** `insere_qturbinada_na_serie_temporal_com_taxa_mensal`. The month loop reads the inflow
      column before the rate, so a missing inflow column is reported before a missing month,
      and a missing month is reported even when no row falls in it. */
  function InsertTurbined(f: Series.Frame, rates: map<int, real>, colTurbined: string, colInflow: string)
    : (r: Result<Series.Frame>)
    requires Series.WellFormed(f)
    ensures colInflow !in f.columns ==> r == Err(MissingColumn(colInflow))
    ensures colInflow in f.columns ==> (r.Err? <==> exists m :: 1 <= m <= 12 && m !in rates)
    ensures colInflow in f.columns && r.Err? ==>
              exists m :: 1 <= m <= 12 && m !in rates && r.error == MissingMonth(m)
                          && forall k :: 1 <= k < m ==> k in rates
    ensures r.Ok? ==> colInflow in f.columns && (forall k :: 1 <= k <= 12 ==> k in rates)
                      && r.value == InsertedFrame(f, rates, colTurbined, colInflow)
  {
    if colInflow !in f.columns then Err(MissingColumn(colInflow))
    else
      var missing := FirstMissingMonth(rates, 1);
      if missing.Some? then Err(MissingMonth(missing.value))
      else Ok(InsertedFrame(f, rates, colTurbined, colInflow))
  }

  /** Each row's new turbined flow is its inflow times the rate of its month. */
  lemma InsertedRowIsScaledInflow(f: Series.Frame, rates: map<int, real>, colTurbined: string, colInflow: string, i: int)
    requires Series.WellFormed(f)
    requires InsertTurbined(f, rates, colTurbined, colInflow).Ok?
    requires 0 <= i < |f.rows|
    ensures InsertTurbined(f, rates, colTurbined, colInflow).value.rows[i][colTurbined]
            == f.rows[i][colInflow] * rates[f.index[i].month]
  {
    var g := InsertTurbined(f, rates, colTurbined, colInflow).value;
    ScaleByMonthAt(MonthsOf(f), ColumnValues(f, colInflow), rates);
    assert g.rows[i][colTurbined] == ColumnValues(g, colTurbined)[i];
  }

  /** After the insertion a month's turbined total is its inflow total times its rate, and
      the inflow column is untouched when it is a different column. */
  lemma InsertedMonthTotals(f: Series.Frame, rates: map<int, real>, colTurbined: string, colInflow: string, m: int)
    requires Series.WellFormed(f) && colInflow in f.columns
    requires InsertTurbined(f, rates, colTurbined, colInflow).Ok?
    requires m in rates
    ensures var g := InsertTurbined(f, rates, colTurbined, colInflow).value;
            MonthTotal(g, colTurbined, m) == rates[m] * MonthTotal(f, colInflow, m)
    ensures var g := InsertTurbined(f, rates, colTurbined, colInflow).value;
            colTurbined != colInflow ==> MonthTotal(g, colInflow, m) == MonthTotal(f, colInflow, m)
  {
    var g := InsertTurbined(f, rates, colTurbined, colInflow).value;
    assert g == InsertedFrame(f, rates, colTurbined, colInflow);
    InsertedFrameTurbinedTotal(f, rates, colTurbined, colInflow, m);
    if colTurbined != colInflow {
      SameValuesSameSelection(f, g, colInflow, colInflow, m);
    }
  }

  lemma InsertedFrameTurbinedTotal(f: Series.Frame, rates: map<int, real>, colTurbined: string, colInflow: string, m: int)
    requires Series.WellFormed(f) && colInflow in f.columns
    requires forall k :: 1 <= k <= 12 ==> k in rates
    requires m in rates
    ensures MonthTotal(InsertedFrame(f, rates, colTurbined, colInflow), colTurbined, m) == rates[m] * MonthTotal(f, colInflow, m)
  {
    var g := InsertedFrame(f, rates, colTurbined, colInflow);
    var months := MonthsOf(f);
    assert MonthsOf(g) == months;
    assert forall i :: 0 <= i < |months| ==> 1 <= months[i] <= 12;
    var inflow := ColumnValues(f, colInflow);
    var scaled := ScaleByMonth(months, inflow, rates);
    assert ColumnValues(g, colTurbined) == scaled;
    calc {
      MonthTotal(g, colTurbined, m);
      Sum(InMonth(months, scaled, m));
      { InMonthScaled(months, inflow, rates, m); }
      rates[m] * Sum(InMonth(months, inflow, m));
      rates[m] * MonthTotal(f, colInflow, m);
    }
  }

  /** The insertion changes no column the checks look at except the turbined one. */
  lemma InsertedPassesChecks(f: Series.Frame, rates: map<int, real>, colTurbined: string, colInflow: string,
                             freq: Frequency)
    requires Series.WellFormed(f) && colInflow in f.columns
    requires InsertTurbined(f, rates, colTurbined, colInflow).Ok?
    requires Series.CheckIndexKind(f, freq).Ok? && Series.CheckGaps(f, freq).Ok?
    ensures MonthlyRates(InsertTurbined(f, rates, colTurbined, colInflow).value, colTurbined, colInflow, freq).Ok?
  {
    var g := InsertTurbined(f, rates, colTurbined, colInflow).value;
    assert Series.Ordinals(g, freq) == Series.Ordinals(f, freq);
    assert Series.CheckGaps(g, freq) == Series.CheckGaps(f, freq);
    assert Series.CheckColumnNames(g, [colInflow, colTurbined]).Ok?;
  }

  lemma SamePresentMonths(f: Series.Frame, g: Series.Frame)
    requires g.index == f.index
    ensures MonthsPresent(g) == MonthsPresent(f)
  {
  }

  /** Rates inserted into a series are the rates read back from it, in every month of
      non-zero inflow; a month of zero inflow reads back as non-finite. */
  lemma RatesRecoverInserted(f: Series.Frame, rates: map<int, real>, colTurbined: string, colInflow: string,
                             freq: Frequency, g: Series.Frame, read: map<int, Float>, m: int)
    requires Series.WellFormed(f) && colInflow in f.columns && colTurbined != colInflow
    requires InsertTurbined(f, rates, colTurbined, colInflow) == Ok(g)
    requires MonthlyRates(g, colTurbined, colInflow, freq) == Ok(read)
    requires m in MonthsPresent(f)
    ensures m in read && m in rates
    ensures read[m].Finite? <==> MonthTotal(f, colInflow, m) != 0.0
    ensures MonthTotal(f, colInflow, m) != 0.0 ==> read[m] == Interpolation.Finite(rates[m])
  {
    SamePresentMonths(f, g);
    MonthlyRatesAt(g, colTurbined, colInflow, freq, read, m);
    InsertedRateOfMonth(f, rates, colTurbined, colInflow, g, m);
  }

  /** A month's rate in the map is that month's rate. */
  lemma MonthlyRatesAt(g: Series.Frame, colTurbined: string, colInflow: string, freq: Frequency,
                       read: map<int, Float>, m: int)
    requires Series.WellFormed(g) && MonthlyRates(g, colTurbined, colInflow, freq) == Ok(read)
    requires m in MonthsPresent(g)
    ensures colTurbined in g.columns && colInflow in g.columns && m in read
    ensures read[m] == RateOfMonth(g, colTurbined, colInflow, m)
  {
  }

  /** The rate of a month after the insertion is the inserted rate, when the month's inflow
      is not zero. */
  lemma InsertedRateOfMonth(f: Series.Frame, rates: map<int, real>, colTurbined: string, colInflow: string,
                     g: Series.Frame, m: int)
    requires Series.WellFormed(f) && colInflow in f.columns && colTurbined != colInflow
    requires InsertTurbined(f, rates, colTurbined, colInflow) == Ok(g)
    requires m in MonthsPresent(f)
    ensures m in rates
    ensures RateOfMonth(g, colTurbined, colInflow, m).Finite? <==> MonthTotal(f, colInflow, m) != 0.0
    ensures MonthTotal(f, colInflow, m) != 0.0 ==> RateOfMonth(g, colTurbined, colInflow, m) == Interpolation.Finite(rates[m])
  {
    PresentMonthValid(f, m);
    assert m in rates;
    InsertedMonthTotals(f, rates, colTurbined, colInflow, m);
    assert colTurbined in g.columns && colInflow in g.columns;
    var q := RateOfMonth(g, colTurbined, colInflow, m);
    var before := MonthTotal(f, colInflow, m);
    RecoverRate(q, MonthTotal(g, colTurbined, m), MonthTotal(g, colInflow, m), before, rates[m]);
  }

  /** The finite rates of a map, as plain numbers. */
  function FiniteRates(rates: map<int, Float>): (r: map<int, real>)
    ensures forall k :: k in r <==> k in rates && rates[k].Finite?
  {
    map k | k in rates && rates[k].Finite? :: rates[k].value
  }

  /** Rates read from a series and inserted back into it keep every month's total turbined
      flow, when all twelve months are present and none has zero inflow. */
  lemma InsertedRatesKeepMonthlyTotals(f: Series.Frame, colTurbined: string, colInflow: string, freq: Frequency,
                                       read: map<int, Float>, m: int)
    requires Series.WellFormed(f) && colTurbined != colInflow
    requires MonthlyRates(f, colTurbined, colInflow, freq) == Ok(read)
    requires forall k :: 1 <= k <= 12 ==> k in MonthsPresent(f) && MonthTotal(f, colInflow, k) != 0.0
    ensures InsertTurbined(f, FiniteRates(read), colTurbined, colInflow).Ok?
    ensures MonthTotal(InsertTurbined(f, FiniteRates(read), colTurbined, colInflow).value, colTurbined, m)
            == MonthTotal(f, colTurbined, m)
  {
    var rates := FiniteRates(read);
    AllRatesFinite(f, colTurbined, colInflow, freq, read);
    if m in MonthsPresent(f) {
      PresentMonthValid(f, m);
      ReinsertedMonthTotal(f, rates, colTurbined, colInflow, m);
    } else {
      AbsentMonthTotals(f, rates, colTurbined, colInflow, m);
    }
  }

  /** With every month present and of non-zero inflow, every month's rate is finite. */
  lemma AllRatesFinite(f: Series.Frame, colTurbined: string, colInflow: string, freq: Frequency, read: map<int, Float>)
    requires Series.WellFormed(f)
    requires MonthlyRates(f, colTurbined, colInflow, freq) == Ok(read)
    requires forall k :: 1 <= k <= 12 ==> k in MonthsPresent(f) && MonthTotal(f, colInflow, k) != 0.0
    ensures colTurbined in f.columns && colInflow in f.columns
    ensures forall k :: 1 <= k <= 12 ==>
              k in FiniteRates(read) && FiniteRates(read)[k] == RateOfMonth(f, colTurbined, colInflow, k).value
  {
    forall k | 1 <= k <= 12
      ensures k in FiniteRates(read) && FiniteRates(read)[k] == RateOfMonth(f, colTurbined, colInflow, k).value
    {
      MonthlyRatesAt(f, colTurbined, colInflow, freq, read, k);
    }
  }

  /** A month with no rows has a zero total in every column, before and after the insertion. */
  lemma AbsentMonthTotals(f: Series.Frame, rates: map<int, real>, colTurbined: string, colInflow: string, m: int)
    requires Series.WellFormed(f) && colTurbined in f.columns
    requires InsertTurbined(f, rates, colTurbined, colInflow).Ok?
    requires m !in MonthsPresent(f)
    ensures MonthTotal(InsertTurbined(f, rates, colTurbined, colInflow).value, colTurbined, m) == MonthTotal(f, colTurbined, m)
  {
    var g := InsertTurbined(f, rates, colTurbined, colInflow).value;
    var months := MonthsOf(f);
    assert m !in months;
    assert MonthsOf(g) == months;
    assert InMonth(months, ColumnValues(g, colTurbined), m) == [];
    assert InMonth(months, ColumnValues(f, colTurbined), m) == [];
  }

  /** One month of the re-insertion: the month's own rate gives back its turbined total. */
  lemma ReinsertedMonthTotal(f: Series.Frame, rates: map<int, real>, colTurbined: string, colInflow: string, m: int)
    requires Series.WellFormed(f) && colTurbined in f.columns && colInflow in f.columns
    requires InsertTurbined(f, rates, colTurbined, colInflow).Ok?
    requires m in rates && MonthTotal(f, colInflow, m) != 0.0
    requires rates[m] == RateOfMonth(f, colTurbined, colInflow, m).value
    ensures MonthTotal(InsertTurbined(f, rates, colTurbined, colInflow).value, colTurbined, m) == MonthTotal(f, colTurbined, m)
  {
    var g := InsertTurbined(f, rates, colTurbined, colInflow).value;
    var q := RateOfMonth(f, colTurbined, colInflow, m);
    calc {
      MonthTotal(g, colTurbined, m);
      { InsertedMonthTotals(f, rates, colTurbined, colInflow, m); }
      rates[m] * MonthTotal(f, colInflow, m);
      q.value * MonthTotal(f, colInflow, m);
      MonthTotal(f, colTurbined, m);
    }
  }

  // ---------------------------------------------------------------------------
  // gera_serie_pandas_a_partir_de_vetor_mensal

  /** `gera_serie_pandas_a_partir_de_vetor_mensal`: each row takes its month's value, divided
      by the length of that month in a daily series. Its twelve-month guard never fires; the
      month loop fails at the first month the vector lacks. */
  function MonthlyVectorToSeries(f: Series.Frame, vector: map<int, real>, freq: Frequency): (r: Result<seq<real>>)
    requires Series.WellFormed(f)
    ensures r.Err? <==> exists m :: 1 <= m <= 12 && m !in vector
    ensures r.Err? ==> exists m :: 1 <= m <= 12 && m !in vector && r.error == MissingMonth(m)
                                   && forall k :: 1 <= k < m ==> k in vector
    ensures r.Ok? ==> |r.value| == |f.index|
    ensures r.Ok? && freq == Monthly ==> forall i :: 0 <= i < |f.index| ==> r.value[i] == vector[f.index[i].month]
    ensures r.Ok? && freq == Daily ==> forall i :: 0 <= i < |f.index| ==>
              r.value[i] * DaysInMonth(f.index[i].year, f.index[i].month) as real == vector[f.index[i].month]
  {
    var missing := FirstMissingMonth(vector, 1);
    if missing.Some? then Err(MissingMonth(missing.value))
    else
      match freq
      case Monthly =>
        Ok(seq(|f.index|, i requires 0 <= i < |f.index| => vector[f.index[i].month]))
      case Daily =>
        Ok(seq(|f.index|, i requires 0 <= i < |f.index| =>
                 vector[f.index[i].month] / DaysInMonth(f.index[i].year, f.index[i].month) as real))
  }

  lemma {:induction false} SumConstant(c: real, k: nat)
    ensures Sum(seq(k, _ => c)) == k as real * c
  {
    if k > 0 {
      assert seq(k, _ => c)[1..] == seq(k - 1, _ => c);
      SumConstant(c, k - 1);
    }
  }

  /** The days of one whole month, in order. */
  predicate WholeMonth(index: seq<Calendar.Stamp>, year: int, month: int)
    requires ValidMonth(month)
  {
    && |index| == DaysInMonth(year, month)
    && forall i :: 0 <= i < |index| ==> index[i] == Stamp(year, month, i + 1)
  }

  /** Spread over a daily series holding one whole month, the month's value adds back up to
      itself: the daily values sum to the monthly one. */
  lemma WholeMonthSumsToVector(f: Series.Frame, vector: map<int, real>, year: int, month: int)
    requires Series.WellFormed(f) && ValidMonth(month) && WholeMonth(f.index, year, month)
    requires MonthlyVectorToSeries(f, vector, Daily).Ok?
    ensures Sum(MonthlyVectorToSeries(f, vector, Daily).value) == vector[month]
  {
    var r := MonthlyVectorToSeries(f, vector, Daily).value;
    var days := DaysInMonth(year, month);
    var share := vector[month] / days as real;
    assert r == seq(days, _ => share);
    SumConstant(share, days);
  }
}
