/**
  The period-by-period water balance of a reservoir (`calcula_balanco_hidrico`).

  The initial volume is seeded from a percentage of the band between the minimum
  and maximum volume. Each period converts its flow rates (m³/s) to volumes (hm³),
  estimates a naive final volume with the lake area at the initial volume, and
  falls into exactly one regime:
  - spill (naive volume above the maximum): the excess is spilled and the lake is
    taken at the maximum volume;
  - deficit (naive volume at or below the minimum): the reservoir ends at the
    minimum and the turbined and withdrawn flows are curtailed in priority order;
  - normal: evaporation and precipitation come from the lake fixed point.
  The final volume of a period is the initial volume of the next.

  Volumes are in hm³, areas in km², depths in mm, flows in m³/s.
 */
module Balance {
  import opened Outcomes
  import opened Calendar
  import Cavs
  import Series
  import Reservoirs
  import Evaporation

  // ---------------------------------------------------------------------------
  // Records

  /** One row of the series: its period, three flow rates and two depths. */
  datatype PeriodInput = PeriodInput(
    period: Stamp,
    inflow: real,
    turbined: real,
    withdrawal: real,
    evaporation: real,
    precipitation: real)

  /** `ResultadoBHNoPeriodo`. The turbined and demand rates are the possibly curtailed ones. */
  datatype PeriodResult = PeriodResult(
    period: Stamp,
    initialElevation: real,
    finalElevation: real,
    inflowRate: real,
    turbinedRate: real,
    demandRate: real,
    precipitation: real,
    evaporation: real,
    lakeArea: real,
    inflowVolume: real,
    turbinedVolume: real,
    initialVolume: real,
    finalVolume: real,
    spilledVolume: real,
    evaporatedVolume: real,
    precipitatedVolume: real)

  /** `PrioridadeDeAtendimento`. Any other label is accepted and curtails nothing. */
  datatype Priority = TurbinedFirst | DemandsFirst | Unrecognised

  function PriorityOf(text: string): (p: Priority)
    ensures p == TurbinedFirst <==> text == "Vazão Turbinada"
    ensures p == DemandsFirst <==> text == "Vazão das Demandas"
  {
    if text == "Vazão Turbinada" then TurbinedFirst
    else if text == "Vazão das Demandas" then DemandsFirst
    else Unrecognised
  }

  /** The volume band of the reservoir. */
  datatype Limits = Limits(minimum: real, maximum: real)

  // ---------------------------------------------------------------------------
  // Seed and unit conversion

  /** Percentage bounds of the initial volume. */
  predicate ValidPercentage(percentage: int) {
    0 <= percentage <= 100
  }

  /** The initial volume: `percentage` per cent of the way from the minimum to the maximum. */
  function Seed(minimum: real, maximum: real, percentage: int): (v: real)
    ensures minimum <= maximum && ValidPercentage(percentage) ==> minimum <= v <= maximum
    ensures percentage == 0 ==> v == minimum
    ensures percentage == 100 ==> v == maximum
    ensures percentage == 50 ==> v == (minimum + maximum) / 2.0
  {
    var p := percentage as real;
    if minimum <= maximum && ValidPercentage(percentage) then
      ProductNonNegative(maximum - minimum, p);
      ProductNonNegative(maximum - minimum, 100.0 - p);
      minimum + (maximum - minimum) * p / 100.0
    else
      minimum + (maximum - minimum) * p / 100.0
  }

  lemma ProductNonNegative(a: real, b: real)
    requires a >= 0.0 && b >= 0.0
    ensures a * b >= 0.0
  {
  }

  /** hm³ carried by 1 m³/s in one day. */
  const DailyFactor: real := 0.0864

  /** The rate-to-volume factor of a period: one day, or every day of the period's month. */
  function Factor(freq: Frequency, period: Stamp): (f: real)
    requires ValidMonth(period.month)
    ensures f > 0.0
    ensures freq == Daily ==> f == DailyFactor
    ensures freq == Monthly ==> f == DailyFactor * DaysInMonth(period.year, period.month) as real
    ensures freq == Monthly ==> 28.0 * DailyFactor <= f <= 31.0 * DailyFactor
  {
    match freq
    case Daily => DailyFactor
    case Monthly => DailyFactor * DaysInMonth(period.year, period.month) as real
  }

  // ---------------------------------------------------------------------------
  // Regimes

  datatype Regime = Spill | Deficit | Normal

  /** The tests in the order the engine makes them: above the maximum, else at or below the
      minimum, else (and then necessarily) strictly inside the band. */
  function Classify(naive: real, limits: Limits): (g: Regime)
    ensures g == Spill <==> naive > limits.maximum
    ensures g == Deficit <==> naive <= limits.maximum && naive <= limits.minimum
    ensures g == Normal <==> limits.minimum < naive <= limits.maximum
  {
    if naive > limits.maximum then Spill
    else if naive <= limits.minimum then Deficit
    else Normal
  }

  /** The volumes of a period converted from its rates. */
  datatype Volumes = Volumes(inflow: real, turbined: real, withdrawal: real)

  function VolumesOf(input: PeriodInput, factor: real): Volumes {
    Volumes(input.inflow * factor, input.turbined * factor, input.withdrawal * factor)
  }

  /** The final volume the balance gives with the lake area taken as `area`. */
  function Balanced(initialVolume: real, v: Volumes, area: real, input: PeriodInput): real {
    initialVolume + v.inflow - v.turbined - v.withdrawal + area * (input.precipitation - input.evaporation) / 1000.0
  }

  /** The first estimate, with the lake area at the initial volume. */
  function NaiveFinal(cap: Cavs.Capability, input: PeriodInput, factor: real, initialVolume: real): (naive: real)
    ensures naive - (initialVolume + (input.inflow - input.turbined - input.withdrawal) * factor)
         == Evaporation.AreaAtVolume(cap, initialVolume) * (input.precipitation - input.evaporation) / 1000.0
  {
    Balanced(initialVolume, VolumesOf(input, factor), Evaporation.AreaAtVolume(cap, initialVolume), input)
  }

  /** The spill regime. */
  function SpillPeriod(cap: Cavs.Capability, limits: Limits, input: PeriodInput, factor: real, initialVolume: real): (r: PeriodResult)
    requires NaiveFinal(cap, input, factor, initialVolume) > limits.maximum
    ensures r.spilledVolume == NaiveFinal(cap, input, factor, initialVolume) - limits.maximum > 0.0
    ensures r.finalVolume <= limits.maximum
    ensures r.finalVolume == limits.maximum || r.finalVolume == Balanced(initialVolume, VolumesOf(input, factor), r.lakeArea, input)
    ensures r.finalVolume <= Balanced(initialVolume, VolumesOf(input, factor), r.lakeArea, input)
    ensures r.turbinedRate == input.turbined && r.demandRate == input.withdrawal
    ensures r.lakeArea == Evaporation.AreaAtVolume(cap, limits.maximum)
    ensures r.finalElevation == cap.elevationForVolume(limits.maximum)
    ensures r.evaporatedVolume == r.lakeArea * input.evaporation / 1000.0
    ensures r.precipitatedVolume == r.lakeArea * input.precipitation / 1000.0
  {
    var v := VolumesOf(input, factor);
    var elevationAtMaximum := cap.elevationForVolume(limits.maximum);
    var areaAtMaximum := cap.areaForElevation(elevationAtMaximum);
    var recomputed := Balanced(initialVolume, v, areaAtMaximum, input);
    PeriodResult(
      input.period, cap.elevationForVolume(initialVolume), elevationAtMaximum,
      input.inflow, input.turbined, input.withdrawal, input.precipitation, input.evaporation,
      areaAtMaximum, v.inflow, v.turbined, initialVolume,
      if recomputed < limits.maximum then recomputed else limits.maximum,
      NaiveFinal(cap, input, factor, initialVolume) - limits.maximum,
      areaAtMaximum * input.evaporation / 1000.0, areaAtMaximum * input.precipitation / 1000.0)
  }

  /** Python's `max(0, x)`. */
  function NonNegative(x: real): (r: real)
    ensures r >= 0.0 && r >= x && (r == 0.0 || r == x)
  {
    if x < 0.0 then 0.0 else x
  }

  /** `q` is the rate `request` cut to what `available` hm³ can supply: it never draws more
      than that, and it is either the request itself or exactly the available volume. */
  predicate CutTo(q: real, request: real, available: real, factor: real) {
    q * factor <= available && (q == request || q * factor == available)
  }

  /** A requested rate reduced to what `available` hm³ can supply over the period. */
  function Curtail(requested: real, available: real, factor: real): (q: real)
    requires available >= 0.0 && factor > 0.0
    ensures q <= requested
    ensures requested >= 0.0 ==> q >= 0.0
    ensures CutTo(q, requested, available, factor)
  {
    if requested <= available / factor then requested else available / factor
  }

  /** The storage above the minimum that a deficit period serves its first flow from. */
  function DeficitStored(limits: Limits, initialVolume: real, r: PeriodResult): real {
    initialVolume - limits.minimum - r.evaporatedVolume + r.precipitatedVolume
  }

  /** The turbined and demand rates of a deficit period whose storage above the minimum is `stored`. */
  datatype Rates = Rates(turbined: real, demand: real)

  function DeficitRates(priority: Priority, input: PeriodInput, stored: real, factor: real): (rates: Rates)
    requires factor > 0.0
    ensures rates.turbined <= input.turbined && rates.demand <= input.withdrawal
    ensures input.turbined >= 0.0 ==> rates.turbined >= 0.0
    ensures input.withdrawal >= 0.0 ==> rates.demand >= 0.0
    ensures priority == Unrecognised ==> rates == Rates(input.turbined, input.withdrawal)
  {
    match priority
    case DemandsFirst =>
      var demand := Curtail(input.withdrawal, NonNegative(stored), factor);
      Rates(Curtail(input.turbined, NonNegative(stored + input.inflow * factor - demand * factor), factor), demand)
    case TurbinedFirst =>
      var turbined := Curtail(input.turbined, NonNegative(stored), factor);
      Rates(turbined, Curtail(input.withdrawal, NonNegative(stored + input.inflow * factor - turbined * factor), factor))
    case Unrecognised =>
      Rates(input.turbined, input.withdrawal)
  }

  /** Turbined flow first (balanco_hidrico.py:140-146): the turbined rate is cut to the storage
      above the minimum, the demand to what is left once the inflow is added and the turbined
      volume drawn. */
  lemma TurbinedServedFirst(input: PeriodInput, stored: real, factor: real)
    requires factor > 0.0
    ensures var rates := DeficitRates(TurbinedFirst, input, stored, factor);
            && CutTo(rates.turbined, input.turbined, NonNegative(stored), factor)
            && CutTo(rates.demand, input.withdrawal,
                     NonNegative(stored + input.inflow * factor - rates.turbined * factor), factor)
  {
    var turbined := Curtail(input.turbined, NonNegative(stored), factor);
    assert DeficitRates(TurbinedFirst, input, stored, factor).turbined == turbined;
  }

  /** Demands first (balanco_hidrico.py:132-138): the mirror image, with the demand served from
      the storage above the minimum and the turbined flow from what remains. */
  lemma DemandsServedFirst(input: PeriodInput, stored: real, factor: real)
    requires factor > 0.0
    ensures var rates := DeficitRates(DemandsFirst, input, stored, factor);
            && CutTo(rates.demand, input.withdrawal, NonNegative(stored), factor)
            && CutTo(rates.turbined, input.turbined,
                     NonNegative(stored + input.inflow * factor - rates.demand * factor), factor)
  {
    var demand := Curtail(input.withdrawal, NonNegative(stored), factor);
    assert DeficitRates(DemandsFirst, input, stored, factor).demand == demand;
  }

  /** The deficit regime: the reservoir ends at the minimum; the flow served first is limited
      by the storage above the minimum (inflow excluded), the other by what remains once the
      inflow and the first flow are counted. */
  function DeficitPeriod(cap: Cavs.Capability, limits: Limits, priority: Priority, input: PeriodInput,
                         factor: real, initialVolume: real): (r: PeriodResult)
    requires factor > 0.0
    ensures r.finalVolume == limits.minimum && r.spilledVolume == 0.0
    ensures r.turbinedRate <= input.turbined && r.demandRate <= input.withdrawal
    ensures input.turbined >= 0.0 ==> r.turbinedRate >= 0.0
    ensures input.withdrawal >= 0.0 ==> r.demandRate >= 0.0
    ensures r.turbinedVolume == r.turbinedRate * factor
    ensures priority == Unrecognised ==> r.turbinedRate == input.turbined && r.demandRate == input.withdrawal
    ensures Rates(r.turbinedRate, r.demandRate) == DeficitRates(priority, input, DeficitStored(limits, initialVolume, r), factor)
    ensures r.lakeArea == Evaporation.AreaAtVolume(cap, limits.minimum)
    ensures r.finalElevation == cap.elevationForVolume(limits.minimum)
    ensures r.evaporatedVolume == r.lakeArea * input.evaporation / 1000.0
    ensures r.precipitatedVolume == r.lakeArea * input.precipitation / 1000.0
  {
    var inflowVolume := input.inflow * factor;
    var finalElevation := cap.elevationForVolume(limits.minimum);
    var area := cap.areaForElevation(finalElevation);
    var evaporated := area * input.evaporation / 1000.0;
    var precipitated := area * input.precipitation / 1000.0;
    var stored := initialVolume - limits.minimum - evaporated + precipitated;
    var rates := DeficitRates(priority, input, stored, factor);
    var turbinedRate, demandRate := rates.turbined, rates.demand;
    PeriodResult(
      input.period, cap.elevationForVolume(initialVolume), finalElevation,
      input.inflow, turbinedRate, demandRate, input.precipitation, input.evaporation,
      area, inflowVolume, turbinedRate * factor, initialVolume, limits.minimum, 0.0,
      evaporated, precipitated)
  }

  /** A deficit period serving the turbined flow first: the turbined rate is limited by the
      storage above the minimum net of the lake's evaporation and precipitation, the demand by
      that storage plus the inflow less the turbined volume. */
  lemma DeficitServesTurbinedFirst(cap: Cavs.Capability, limits: Limits, input: PeriodInput,
                                   factor: real, initialVolume: real)
    requires factor > 0.0
    ensures var r := DeficitPeriod(cap, limits, TurbinedFirst, input, factor, initialVolume);
            var stored := DeficitStored(limits, initialVolume, r);
            && CutTo(r.turbinedRate, input.turbined, NonNegative(stored), factor)
            && CutTo(r.demandRate, input.withdrawal,
                     NonNegative(stored + input.inflow * factor - r.turbinedRate * factor), factor)
  {
    var r := DeficitPeriod(cap, limits, TurbinedFirst, input, factor, initialVolume);
    TurbinedServedFirst(input, DeficitStored(limits, initialVolume, r), factor);
  }

  /** The mirror image when the demands are served first. */
  lemma DeficitServesDemandsFirst(cap: Cavs.Capability, limits: Limits, input: PeriodInput,
                                  factor: real, initialVolume: real)
    requires factor > 0.0
    ensures var r := DeficitPeriod(cap, limits, DemandsFirst, input, factor, initialVolume);
            var stored := DeficitStored(limits, initialVolume, r);
            && CutTo(r.demandRate, input.withdrawal, NonNegative(stored), factor)
            && CutTo(r.turbinedRate, input.turbined,
                     NonNegative(stored + input.inflow * factor - r.demandRate * factor), factor)
  {
    var r := DeficitPeriod(cap, limits, DemandsFirst, input, factor, initialVolume);
    DemandsServedFirst(input, DeficitStored(limits, initialVolume, r), factor);
  }

  /** The normal regime: the lake fixed point supplies the elevation, area, evaporation and
      precipitation, and the final volume closes the balance with them. */
  function NormalPeriod(cap: Cavs.Capability, input: PeriodInput, factor: real, initialVolume: real,
                        maxIterations: nat): (r: Result<PeriodResult>)
    ensures r.Err? <==> Evaporation.Solve(cap, initialVolume, input.inflow * factor, input.withdrawal * factor,
                                          input.turbined * factor, input.evaporation, input.precipitation, maxIterations).Err?
    ensures r.Err? ==> r.error == NotConverged
    ensures r.Ok? ==> r.value.spilledVolume == 0.0
    ensures r.Ok? ==> r.value.turbinedRate == input.turbined && r.value.demandRate == input.withdrawal
    ensures r.Ok? ==>
      var s := Evaporation.Solve(cap, initialVolume, input.inflow * factor, input.withdrawal * factor,
                                 input.turbined * factor, input.evaporation, input.precipitation, maxIterations).value;
      && r.value.finalElevation == s.finalElevation && r.value.lakeArea == s.lakeArea
      && r.value.evaporatedVolume == s.evaporated && r.value.precipitatedVolume == s.precipitated
      && r.value.finalVolume == initialVolume + input.inflow * factor - s.evaporated + s.precipitated
                                - input.withdrawal * factor - input.turbined * factor
  {
    var inflowVolume, withdrawalVolume, turbinedVolume := input.inflow * factor, input.withdrawal * factor, input.turbined * factor;
    var solved := Evaporation.Solve(cap, initialVolume, inflowVolume, withdrawalVolume, turbinedVolume,
                                    input.evaporation, input.precipitation, maxIterations);
    if solved.Err? then Err(solved.error)
    else
      var s := solved.value;
      Ok(PeriodResult(
        input.period, cap.elevationForVolume(initialVolume), s.finalElevation,
        input.inflow, input.turbined, input.withdrawal, input.precipitation, input.evaporation,
        s.lakeArea, inflowVolume, turbinedVolume, initialVolume,
        initialVolume + inflowVolume - s.evaporated + s.precipitated - withdrawalVolume - turbinedVolume,
        0.0, s.evaporated, s.precipitated))
  }

  /** One period from its initial volume. */
  function Step(cap: Cavs.Capability, limits: Limits, priority: Priority, freq: Frequency,
                input: PeriodInput, initialVolume: real, maxIterations: nat): (r: Result<PeriodResult>)
    requires ValidMonth(input.period.month)
    ensures r.Err? ==> r.error == NotConverged
    ensures r.Ok? ==> r.value.period == input.period && r.value.initialVolume == initialVolume
    ensures r.Ok? ==> r.value.inflowRate == input.inflow
    ensures r.Ok? ==> r.value.initialElevation == cap.elevationForVolume(initialVolume)
    ensures r.Ok? ==> r.value.turbinedRate <= input.turbined && r.value.demandRate <= input.withdrawal
    ensures r.Ok? ==> r.value.spilledVolume >= 0.0
    ensures r.Ok? ==> (r.value.spilledVolume > 0.0 <==>
                       NaiveFinal(cap, input, Factor(freq, input.period), initialVolume) > limits.maximum)
    ensures NaiveFinal(cap, input, Factor(freq, input.period), initialVolume) > limits.maximum ==>
              r.Ok? && r.value.finalVolume <= limits.maximum
    ensures NaiveFinal(cap, input, Factor(freq, input.period), initialVolume) <= limits.maximum
            && NaiveFinal(cap, input, Factor(freq, input.period), initialVolume) <= limits.minimum ==>
              r.Ok? && r.value.finalVolume == limits.minimum
    ensures Classify(NaiveFinal(cap, input, Factor(freq, input.period), initialVolume), limits) == Normal ==>
              r == NormalPeriod(cap, input, Factor(freq, input.period), initialVolume, maxIterations)
    ensures Classify(NaiveFinal(cap, input, Factor(freq, input.period), initialVolume), limits) == Deficit ==>
              r == Ok(DeficitPeriod(cap, limits, priority, input, Factor(freq, input.period), initialVolume))
  {
    var factor := Factor(freq, input.period);
    var naive := NaiveFinal(cap, input, factor, initialVolume);
    match Classify(naive, limits)
    case Spill => Ok(SpillPeriod(cap, limits, input, factor, initialVolume))
    case Deficit => Ok(DeficitPeriod(cap, limits, priority, input, factor, initialVolume))
    case Normal => NormalPeriod(cap, input, factor, initialVolume, maxIterations)
  }

  // ---------------------------------------------------------------------------
  // The recurrence

  /** Every period of the inputs names a month. */
  predicate ValidPeriods(inputs: seq<PeriodInput>) {
    forall i :: 0 <= i < |inputs| ==> ValidMonth(inputs[i].period.month)
  }

  /** The loop over the rows: one record per row, in order, each starting from the previous
      record's final volume. */
  function Run(cap: Cavs.Capability, limits: Limits, priority: Priority, freq: Frequency,
               inputs: seq<PeriodInput>, initialVolume: real, maxIterations: nat): (r: Result<seq<PeriodResult>>)
    requires ValidPeriods(inputs)
    ensures r.Err? ==> r.error == NotConverged
    ensures r.Ok? ==> |r.value| == |inputs|
    ensures r.Ok? && |inputs| > 0 ==> r.value[0].initialVolume == initialVolume
    ensures r.Ok? ==> forall i :: 1 <= i < |inputs| ==> r.value[i].initialVolume == r.value[i - 1].finalVolume
    ensures r.Ok? ==> forall i :: 0 <= i < |inputs| ==>
              Step(cap, limits, priority, freq, inputs[i], r.value[i].initialVolume, maxIterations) == Ok(r.value[i])
    ensures r.Ok? ==> forall i :: 0 <= i < |inputs| ==> r.value[i].period == inputs[i].period
    ensures r.Ok? ==> forall i :: 0 <= i < |inputs| ==>
              r.value[i].turbinedRate <= inputs[i].turbined && r.value[i].demandRate <= inputs[i].withdrawal
    decreases |inputs|
  {
    if |inputs| == 0 then Ok([])
    else
      var first := Step(cap, limits, priority, freq, inputs[0], initialVolume, maxIterations);
      if first.Err? then Err(first.error)
      else
        var rest := Run(cap, limits, priority, freq, inputs[1..], first.value.finalVolume, maxIterations);
        if rest.Err? then Err(rest.error)
        else
          var all := [first.value] + rest.value;
          assert forall i :: 1 <= i < |inputs| ==> all[i] == rest.value[i - 1] && inputs[i] == inputs[1..][i - 1];
          Ok(all)
  }

  /** The rows of a checked series as period inputs. */
  function Inputs(f: Series.Frame, names: Series.ColumnNames): (inputs: seq<PeriodInput>)
    requires Series.WellFormed(f)
    requires names.inflow in f.columns && names.turbined in f.columns && names.withdrawal in f.columns
    requires names.evaporation in f.columns && names.precipitation in f.columns
    ensures |inputs| == |f.rows| && ValidPeriods(inputs)
    ensures forall i :: 0 <= i < |inputs| ==>
              && inputs[i].period == f.index[i]
              && inputs[i].inflow == f.rows[i][names.inflow]
              && inputs[i].turbined == f.rows[i][names.turbined]
              && inputs[i].withdrawal == f.rows[i][names.withdrawal]
              && inputs[i].evaporation == f.rows[i][names.evaporation]
              && inputs[i].precipitation == f.rows[i][names.precipitation]
  {
    seq(|f.rows|, i requires 0 <= i < |f.rows| =>
      PeriodInput(f.index[i], f.rows[i][names.inflow], f.rows[i][names.turbined], f.rows[i][names.withdrawal],
                  f.rows[i][names.evaporation], f.rows[i][names.precipitation]))
  }

  /** The series the engine runs on: the one given, or else the reservoir's own. */
  function ChosenSeries(reservoir: Reservoirs.Reservoir, series: Option<Series.TimeSeries>): (s: Series.TimeSeries)
    ensures series.Some? ==> s == series.value
    ensures series.None? ==> s == reservoir.series
  {
    if series.None? then reservoir.series else series.value
  }

  /** Records of a run over `s` from `seed`: one per row, in index order, the first starting
      at the seed and each later one where the previous ended. */
  predicate ChainedOver(records: seq<PeriodResult>, s: Series.TimeSeries, seed: real)
    requires Series.WellFormed(s.frame)
  {
    && |records| == |s.frame.rows|
    && (forall i :: 0 <= i < |records| ==> records[i].period == s.frame.index[i])
    && (|records| > 0 ==> records[0].initialVolume == seed)
    && (forall i :: 1 <= i < |records| ==> records[i].initialVolume == records[i - 1].finalVolume)
  }

  /** No record turbines or withdraws more than its row of `s` requests. */
  predicate WithinRequests(records: seq<PeriodResult>, s: Series.TimeSeries)
    requires Series.WellFormed(s.frame) && |records| == |s.frame.rows|
  {
    && s.names.turbined in s.frame.columns && s.names.withdrawal in s.frame.columns
    && forall i :: 0 <= i < |records| ==>
         && records[i].turbinedRate <= s.frame.rows[i][s.names.turbined]
         && records[i].demandRate <= s.frame.rows[i][s.names.withdrawal]
  }

  /** The five columns `s.names` names are all in the frame. */
  predicate NamesPresent(s: Series.TimeSeries) {
    && s.names.inflow in s.frame.columns && s.names.turbined in s.frame.columns
    && s.names.withdrawal in s.frame.columns && s.names.evaporation in s.frame.columns
    && s.names.precipitation in s.frame.columns
  }

  /** Each record is what `Step` yields for its row of `s`, on the reservoir's curve, volume
      limits and priority, from the record's own initial volume. */
  predicate StepsOver(records: seq<PeriodResult>, reservoir: Reservoirs.Reservoir, s: Series.TimeSeries,
                      priorityLabel: string, maxIterations: nat)
    requires Cavs.Supported(reservoir.cav) && Series.WellFormed(s.frame)
  {
    && NamesPresent(s) && |records| == |s.frame.rows|
    && forall i :: 0 <= i < |records| ==>
         Step(Cavs.CapabilityOf(reservoir.cav), Limits(reservoir.volume.minimum, reservoir.volume.maximum),
              PriorityOf(priorityLabel), s.freq, Inputs(s.frame, s.names)[i], records[i].initialVolume,
              maxIterations) == Ok(records[i])
  }

  /** The loop of `calcula_balanco_hidrico` on a series that passed its checks. */
  function RunChecked(reservoir: Reservoirs.Reservoir, s: Series.TimeSeries, percentage: int,
                      priorityLabel: string, maxIterations: nat): (r: Result<seq<PeriodResult>>)
    requires Cavs.Supported(reservoir.cav) && Series.WellFormed(s.frame)
    requires Series.CheckColumnNames(s.frame, Series.NameList(s.names)).Ok?
    ensures r.Err? ==> r.error == NotConverged
    ensures r.Ok? ==> && ChainedOver(r.value, s, Seed(reservoir.volume.minimum, reservoir.volume.maximum, percentage))
                      && WithinRequests(r.value, s)
                      && StepsOver(r.value, reservoir, s, priorityLabel, maxIterations)
  {
    var ns := Series.NameList(s.names);
    assert ns[0] in s.frame.columns && ns[1] in s.frame.columns && ns[2] in s.frame.columns;
    assert ns[3] in s.frame.columns && ns[4] in s.frame.columns;
    var inputs := Inputs(s.frame, s.names);
    Run(Cavs.CapabilityOf(reservoir.cav),
        Limits(reservoir.volume.minimum, reservoir.volume.maximum),
        PriorityOf(priorityLabel), s.freq, inputs,
        Seed(reservoir.volume.minimum, reservoir.volume.maximum, percentage), maxIterations)
  }

  /** `calcula_balanco_hidrico`. The curve enters through its capability; `maxIterations`
      bounds the lake fixed point of every normal period. */
  function WaterBalance(reservoir: Reservoirs.Reservoir, series: Option<Series.TimeSeries>, percentage: int,
                        priorityLabel: string, maxIterations: nat): (r: Result<seq<PeriodResult>>)
    requires Cavs.Supported(reservoir.cav)
    requires Series.WellFormed(ChosenSeries(reservoir, series).frame)
    ensures !ValidPercentage(percentage) ==> r == Err(InitialPercentageOutOfRange)
    ensures var s := ChosenSeries(reservoir, series);
            ValidPercentage(percentage) && Series.CheckSeries(s.frame, s.freq, Series.NameList(s.names)).Err? ==>
              r == Err(Series.CheckSeries(s.frame, s.freq, Series.NameList(s.names)).error)
    ensures r.Ok? ==> ValidPercentage(percentage)
    ensures r.Ok? ==> var s := ChosenSeries(reservoir, series);
              && Series.CheckSeries(s.frame, s.freq, Series.NameList(s.names)).Ok?
              && ChainedOver(r.value, s, Seed(reservoir.volume.minimum, reservoir.volume.maximum, percentage))
              && WithinRequests(r.value, s)
              && StepsOver(r.value, reservoir, s, priorityLabel, maxIterations)
  {
    if !ValidPercentage(percentage) then Err(InitialPercentageOutOfRange)
    else
      var s := ChosenSeries(reservoir, series);
      var check := Series.CheckSeries(s.frame, s.freq, Series.NameList(s.names));
      if check.Err? then Err(check.error)
      else RunChecked(reservoir, s, percentage, priorityLabel, maxIterations)
  }

  // ---------------------------------------------------------------------------
  // Consequences on concrete periods

  /** A spilling period can end below the minimum volume: the excess is judged with the lake
      area at the initial volume, the final volume with the area at the maximum. Here a small
      initial lake receives 100 hm³ and then loses 100 mm over 1000 km². */
  lemma SpillCanEndBelowMinimum()
    ensures var cap := Cavs.Capability(v => v, h => if h >= 100.0 then 1000.0 else 0.0);
            var input := PeriodInput(Stamp(2000, 1, 1), 100.0 / DailyFactor, 0.0, 0.0, 100.0, 0.0);
            var r := Step(cap, Limits(20.0, 100.0), TurbinedFirst, Daily, input, 10.0, 1);
            && r.Ok? && r.value.spilledVolume == 10.0 && r.value.finalVolume == 10.0
            && r.value.finalVolume < 20.0
  {
    var cap := Cavs.Capability(v => v, h => if h >= 100.0 then 1000.0 else 0.0);
    var input := PeriodInput(Stamp(2000, 1, 1), 100.0 / DailyFactor, 0.0, 0.0, 100.0, 0.0);
    assert Evaporation.AreaAtVolume(cap, 10.0) == 0.0;
    assert Evaporation.AreaAtVolume(cap, 100.0) == 1000.0;
    assert NaiveFinal(cap, input, DailyFactor, 10.0) == 110.0;
  }

  /** In a deficit period the flow the priority names is the one limited by the storage above
      the minimum alone, so with an empty band above the minimum it is cut to zero while the
      other flow is served from the inflow. */
  lemma PriorityFlowCutFirst()
    ensures var cap := Cavs.Capability(v => v, h => 0.0);
            var q := 1.0 / DailyFactor;
            var input := PeriodInput(Stamp(2000, 1, 1), q, q, q, 0.0, 0.0);
            var demands := Step(cap, Limits(10.0, 100.0), DemandsFirst, Daily, input, 10.0, 1);
            var turbined := Step(cap, Limits(10.0, 100.0), TurbinedFirst, Daily, input, 10.0, 1);
            && demands.Ok? && demands.value.demandRate == 0.0 && demands.value.turbinedRate == q
            && turbined.Ok? && turbined.value.turbinedRate == 0.0 && turbined.value.demandRate == q
  {
    var cap := Cavs.Capability(v => v, h => 0.0);
    var q := 1.0 / DailyFactor;
    var input := PeriodInput(Stamp(2000, 1, 1), q, q, q, 0.0, 0.0);
    assert Evaporation.AreaAtVolume(cap, 10.0) == 0.0;
    assert NaiveFinal(cap, input, DailyFactor, 10.0) == 9.0;
  }
}
