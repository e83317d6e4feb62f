# Reservoir water balance, modelled in Dafny

This project models the core of `balanco_hidrico_reservatorios`, a simulator of the
monthly or daily water balance of a reservoir, and proves properties of the model.

- **Curves.** A reservoir carries an elevation-area-volume curve (CAV). It is either
  fully tabulated (`CavReservatorio`), or a hybrid (`CavReservatorioONS`): a cubic area
  polynomial plus a tabulated elevation-volume curve (`CurvaCotaVolumeONS`).
  - Tables are validated: the required columns must be present, hold no missing value,
    and be non-decreasing once sorted by elevation. They are then stored sorted.
  - Lookups are piecewise-linear interpolations between two control points, chosen by
    the program's clamped search (`_calcula_interpolacao_por_variaveis`), as written.
- **Time series.** A series holds inflow, turbined flow, withdrawal, evaporation and
  precipitation, indexed by days or by months. Every consumer runs three checks on it:
  the index kind, gaps in the index, and the column names.
- **Engine.** The engine seeds the initial volume from a percentage of the band between
  the minimum and the maximum volume. It then walks the periods. Each period falls into
  one regime:
  - spill: the naive final volume is above the maximum;
  - deficit: the naive final volume is at or below the minimum, and the turbined flow and
    the demands are curtailed in priority order;
  - normal: the lake's evaporation comes from a fixed-point iteration on the lake area.
- **Utilities.** Monthly turbined/inflow rates derived from a series, re-inserted into
  it, or spread from a monthly vector onto a series.
- **Regularisation.** The regularised flow runs the balance with the turbined flow set
  to the long-term mean inflow, starting half full, serving the turbined flow first.

Modules, one per file:

| file | module | covers |
|---|---|---|
| outcomes.dfy | Outcomes | the exceptions the program raises, as `Error`; `Result`, `Option` |
| calendar.dfy | Calendar | leap years, month lengths, day and month ordinals |
| interpolation.dfy | Interpolation | `searchsorted`, both interpolation routines, and the containing-segment rule that the findings compare them with |
| sorting.dfy | Sorting | sorting table rows by elevation |
| cavs.dfy | Cavs | table validation, the three curve classes, the capability the engine uses |
| series.dfy | Series | index-kind, gap and column checks |
| reservoirs.dfy | Reservoirs | volume and elevation bounds, reservoir construction |
| evaporation.dfy | Evaporation | the lake-evaporation fixed point |
| balance.dfy | Balance | the period step and the balance over a series |
| utilities.dfy | Utilities | monthly rates, their insertion, monthly vectors |
| regularization.dfy | Regularization | the regularised flow |

Conventions of the model:

- Floats are `real`.
- numpy's infinities and NaNs from a division by zero are `Interpolation.NonFinite`.
- Each Python exception is an `Outcomes.Error` constructor inside `Result.Err`.
- A pandas table is an index of `Calendar.Stamp`s, a set of column names, and one map
  per row.
- The engine sees a curve only through `Cavs.Capability`: the elevation for a volume and
  the area for an elevation, as total functions. `Cavs.CapabilityOf` builds it from a
  curve whose lookups always yield finite numbers (`Cavs.Supported`).
- The lake fixed point has no bound in the program. Here an iteration budget
  `maxIterations` bounds it; exhausting the budget gives `NotConverged`.
  `Evaporation.SolveFuelIrrelevant` shows that a larger budget never changes a result
  that converged.

Source paths below are relative to the repository root. The package directory is
`balanco_hidrico_reservatorios/`, and some modules sit one level deeper, in
`balanco_hidrico_reservatorios/balanco_hidrico_reservatorios/`.

## Model

| member | source | states |
|---|---|---|
| Calendar.DaysInMonth | balanco_hidrico_reservatorios/balanco_hidrico.py:82 | month length as `monthrange` gives it: 28 to 31 days, February has 29 exactly in Gregorian leap years, and the 31-day months are exactly 1, 3, 5, 7, 8, 10 and 12, and months 4, 6, 9 and 11 have 30 days |
| Calendar.DayNumber | balanco_hidrico_reservatorios/serie_temporal.py:42-43 | the proleptic Gregorian day number of `date.toordinal`: January 1 of year 1 is day 1 |
| Calendar.DaysInYear | balanco_hidrico_reservatorios/balanco_hidrico.py:82 | the twelve month lengths add up to 366 days in a leap year and 365 otherwise |
| Calendar.DayNumberSuccessor | balanco_hidrico_reservatorios/serie_temporal.py:43 | the next calendar day, across month and year ends, has the next day number, so a daily range steps by one ordinal |
| Interpolation.FirstAtLeast | balanco_hidrico_reservatorios/balanco_hidrico_reservatorios/conversor.py:49 | numpy `searchsorted` (left): every entry before the index is below the query, and the entry at the index, if any, is not |
| Interpolation.SearchSorted | balanco_hidrico_reservatorios/balanco_hidrico_reservatorios/conversor.py:16 | the binary search over a sorted array returns exactly the left insertion point |
| Interpolation.FirstAtLeastIs | balanco_hidrico_reservatorios/balanco_hidrico_reservatorios/conversor.py:49 | the insertion point is unique: any index with its defining property is it |
| Interpolation.Bracket | balanco_hidrico_reservatorios/balanco_hidrico_reservatorios/conversor.py:49-52 | with two or more references every rule picks valid (possibly negative) Python indices; the clamped and containing rules pick two consecutive non-negative indices within the table |
| Interpolation.Interpolate | balanco_hidrico_reservatorios/balanco_hidrico_reservatorios/conversor.py:54-60 | an empty table raises an index error; a table of two or more rows always yields a value |
| Interpolation.InterpolateMany | balanco_hidrico_reservatorios/balanco_hidrico_reservatorios/conversor.py:39-62 | the vectorised lookup has one result per query, each equal to that query's scalar lookup, and fails exactly when some query fails |
| Interpolation.ScalarIsFirstOfVector | balanco_hidrico_reservatorios/balanco_hidrico_reservatorios/cavs.py:74-80 | a scalar lookup (`array([x])[0]`) is element 0 of the vector lookup, and they fail together |
| Interpolation.LineThroughEndpoints | balanco_hidrico_reservatorios/balanco_hidrico_reservatorios/conversor.py:59-60 | the interpolation formula passes through both control points |
| Interpolation.LineBetweenEndpoints | balanco_hidrico_reservatorios/balanco_hidrico_reservatorios/conversor.py:33-34 | between its control points the formula stays between their targets, when the targets do not decrease |
| Interpolation.ClampedBelowRange | balanco_hidrico_reservatorios/balanco_hidrico_reservatorios/conversor.py:49-52 | a query at or below the first reference is evaluated on the first segment's line, unclamped |
| Interpolation.ClampedAboveRange | balanco_hidrico_reservatorios/balanco_hidrico_reservatorios/conversor.py:49-52 | when the last two references differ, a query at or above the last one extrapolates the last segment's line |
| Interpolation.ClampedAtKnot | balanco_hidrico_reservatorios/balanco_hidrico_reservatorios/conversor.py:49-60 | with distinct references, looking up a reference yields its own target |
| Interpolation.ClampedInteriorUsesNextSegment | balanco_hidrico_reservatorios/balanco_hidrico_reservatorios/conversor.py:49-52 | a query strictly inside segment k-1..k, not the last segment, is evaluated on segment k..k+1 |
| Interpolation.ClampedInteriorCounterexample | balanco_hidrico_reservatorios/balanco_hidrico_reservatorios/conversor.py:49-60 | on the table (0,0) (1,1) (2,3), the query 0.5 yields 0, where the containing segment yields 0.5 |
| Interpolation.ConverteParaBelowRange | balanco_hidrico_reservatorios/balanco_hidrico_reservatorios/conversor.py:18-20 | at or below the first reference `converte_para` uses the first segment |
| Interpolation.ConverteParaAboveRange | balanco_hidrico_reservatorios/balanco_hidrico_reservatorios/conversor.py:21-23 | above the last reference it uses the last segment |
| Interpolation.ConverteParaAtLastReference | balanco_hidrico_reservatorios/balanco_hidrico_reservatorios/conversor.py:16-23 | a query equal to the last of three or more distinct references takes the bracket (n-3, n-2), the second-to-last segment |
| Interpolation.ConverteParaInterior | balanco_hidrico_reservatorios/balanco_hidrico_reservatorios/conversor.py:24-34 | strictly inside the table it uses the segment containing the query, and the result lies between that segment's targets |
| Interpolation.ConverteParaAtLastCounterexample | balanco_hidrico_reservatorios/balanco_hidrico_reservatorios/conversor.py:18-34 | on the table (0,0) (1,1) (2,3), the top reference 2 yields 2, where the containing segment yields 3 |
| Interpolation.ContainingSegmentContains | balanco_hidrico_reservatorios/balanco_hidrico_reservatorios/conversor.py:24-26 | inside the table's range the corrected bracket is a segment containing the query |
| Interpolation.ContainingSegmentBetweenTargets | balanco_hidrico_reservatorios/balanco_hidrico_reservatorios/conversor.py:49-60 | inside the range, with distinct references and non-decreasing targets, the corrected lookup lies between its segment's targets and within the table's targets |
| Interpolation.ContainingSegmentAtKnot | balanco_hidrico_reservatorios/balanco_hidrico_reservatorios/conversor.py:18-34 | with distinct references, the corrected lookup of any reference, the last one included, yields its own target |
| Interpolation.ContainingSegmentIsFinite | balanco_hidrico_reservatorios/balanco_hidrico_reservatorios/conversor.py:59-60 | with at least two distinct references the corrected lookup never divides by zero |
| Interpolation.ClampedIsFinite | balanco_hidrico_reservatorios/balanco_hidrico_reservatorios/conversor.py:49-60 | with two or more strictly increasing references the program's lookup always succeeds with a finite number |
| Interpolation.LookupValue | balanco_hidrico_reservatorios/balanco_hidrico_reservatorios/conversor.py:39-62 | the number returned is the program's lookup of the query |
| Sorting.Insert | balanco_hidrico_reservatorios/balanco_hidrico_reservatorios/cavs.py:72 | inserting into a sorted table keeps it sorted by elevation, and the result holds exactly the old rows and the new one |
| Sorting.InsertPermutes | balanco_hidrico_reservatorios/balanco_hidrico_reservatorios/cavs.py:72 | inserting adds exactly one occurrence of the new row and loses none |
| Sorting.SortByKey | balanco_hidrico_reservatorios/balanco_hidrico_reservatorios/cavs.py:72 | `sort_values` by elevation: the result is sorted, has the same length and is a permutation of the input |
| Cavs.RequiredColumns | balanco_hidrico_reservatorios/balanco_hidrico_reservatorios/cavs.py:15 | the area column is inspected exactly when its name is given and non-empty; elevation comes first, volume last |
| Cavs.CheckCavFrame | balanco_hidrico_reservatorios/balanco_hidrico_reservatorios/cavs.py:14-25 | every refusal is a `DataFrameCavInvalidoErro`; an accepted table has all required columns and no missing value in them |
| Cavs.CheckCavFrameAccepts | balanco_hidrico_reservatorios/balanco_hidrico_reservatorios/cavs.py:14-25 | the check passes exactly when the required columns are present, hold no missing value, and every one of them is non-decreasing once the rows are sorted by elevation |
| Cavs.ComonotoneTableAccepted | balanco_hidrico_reservatorios/balanco_hidrico_reservatorios/cavs.py:14-25 | a complete table whose rows, listed in any order, rise together in every column is accepted |
| Cavs.AcceptedTableRisesWithElevation | balanco_hidrico_reservatorios/balanco_hidrico_reservatorios/cavs.py:21-25 | in an accepted table, a row with a higher elevation has no smaller entry in any required column |
| Cavs.MissingColumnRejected | balanco_hidrico_reservatorios/balanco_hidrico_reservatorios/cavs.py:15-18 | any absent required column is refused as invalid column names, before the values are looked at |
| Cavs.AreaRequiredOnlyForFullCav | balanco_hidrico_reservatorios/balanco_hidrico_reservatorios/cavs.py:27-32 | the full curve's check requires the area column; the elevation-volume check ignores it, like an empty area name |
| Cavs.NullRejected | balanco_hidrico_reservatorios/balanco_hidrico_reservatorios/cavs.py:19-20 | once the columns are present, any missing value in a required column is refused |
| Cavs.EqualNeighboursAccepted | balanco_hidrico_reservatorios/balanco_hidrico_reservatorios/cavs.py:21-25 | two rows equal in every column pass: the order check allows repeated references |
| Cavs.VolumeFallingRejected | balanco_hidrico_reservatorios/balanco_hidrico_reservatorios/cavs.py:21-25 | order is judged after sorting by elevation: rows listed top first are accepted by the sort, and a volume that falls as the elevation rises is refused |
| Cavs.StepsMakeNonDecreasing | balanco_hidrico_reservatorios/balanco_hidrico_reservatorios/cavs.py:21 | no negative `diff` between neighbouring rows makes every checked column non-decreasing over the whole table |
| Cavs.BuildTable | balanco_hidrico_reservatorios/balanco_hidrico_reservatorios/cavs.py:67-72 | a table is stored exactly when the check passes, with the check's error otherwise; the stored columns are non-decreasing and, as rows, a permutation of the validated columns |
| Cavs.NewCavReservatorio | balanco_hidrico_reservatorios/balanco_hidrico_reservatorios/cavs.py:67-72 | the full curve: the same guarantees with the area column, stored exactly when its name is non-empty |
| Cavs.NewCotaVolumeCurve | balanco_hidrico_reservatorios/balanco_hidrico_reservatorios/cavs.py:129-133 | the elevation-volume curve: stored without an area, non-decreasing, a permutation of the two validated columns |
| Cavs.AreasByElevations | balanco_hidrico_reservatorios/balanco_hidrico_reservatorios/cavs.py:82-88 | without an area column the lookup fails on the column; with one and two rows or more, each area is the program's clamped lookup of its elevation |
| Cavs.AreaByElevation | balanco_hidrico_reservatorios/balanco_hidrico_reservatorios/cavs.py:74-80 | the scalar area is the program's clamped lookup of the elevation in the area column |
| Cavs.VolumesByElevations | balanco_hidrico_reservatorios/balanco_hidrico_reservatorios/cavs.py:99-106 | with two rows or more, one volume per elevation, each the program's clamped lookup in the volume column |
| Cavs.VolumeByElevation | balanco_hidrico_reservatorios/balanco_hidrico_reservatorios/cavs.py:90-97 | the scalar volume is the program's clamped lookup of the elevation in the volume column |
| Cavs.ElevationByVolume | balanco_hidrico_reservatorios/balanco_hidrico_reservatorios/cavs.py:108-115 | the scalar elevation is the program's clamped lookup of the volume in the elevation column |
| Cavs.ElevationsByVolumes | balanco_hidrico_reservatorios/balanco_hidrico_reservatorios/cavs.py:117-124 | with two rows or more, one elevation per volume, each the program's clamped lookup in the elevation column |
| Cavs.LookupsAtRow | balanco_hidrico_reservatorios/balanco_hidrico_reservatorios/cavs.py:90-115 | at a tabulated row with distinct elevations and volumes, every lookup returns the row's value, so elevation and volume lookups invert each other there |
| Cavs.CurveElevationsByVolumesAsWritten | balanco_hidrico_reservatorios/balanco_hidrico_reservatorios/cavs.py:159-165 | `CurvaCotaVolumeONS.calcula_cotas_por` as written returns the volume-by-elevation lookup of its volumes, the columns swapped relative to `calcula_cota_por` |
| Cavs.CurveElevationsCounterexample | balanco_hidrico_reservatorios/balanco_hidrico_reservatorios/cavs.py:159-165 | on a curve from (0 m, 0 hm³) to (10 m, 100 hm³), the volume 50 yields 500 as written and the elevation 5 when corrected |
| Cavs.ElevationsByVolumesElementwise | balanco_hidrico_reservatorios/balanco_hidrico_reservatorios/cavs.py:117-124 | the vector elevation lookup that the swapped columns were meant to give succeeds, and element i is the scalar elevation of volume i |
| Cavs.HybridAreaByElevation | balanco_hidrico_reservatorios/balanco_hidrico_reservatorios/cavs.py:181-186 | the hybrid area is a + b·h + c·h² + d·h³ |
| Cavs.HybridAreasByElevations | balanco_hidrico_reservatorios/balanco_hidrico_reservatorios/cavs.py:188-189 | the vector form has one area per elevation, each the scalar polynomial |
| Cavs.HybridAreaIgnoresE | balanco_hidrico_reservatorios/balanco_hidrico_reservatorios/cavs.py:181-183 | the coefficient `e` has no influence on the area |
| Cavs.HybridVolumeByElevation | balanco_hidrico_reservatorios/balanco_hidrico_reservatorios/cavs.py:191-192 | the hybrid volume is the elevation-volume curve's clamped lookup of the elevation, and exists with two rows or more |
| Cavs.HybridVolumesByElevations | balanco_hidrico_reservatorios/balanco_hidrico_reservatorios/cavs.py:194-195 | with two rows or more, one volume per elevation, each the hybrid's scalar volume |
| Cavs.HybridElevationByVolume | balanco_hidrico_reservatorios/balanco_hidrico_reservatorios/cavs.py:197-198 | the hybrid elevation is the elevation-volume curve's clamped lookup of the volume, and exists with two rows or more |
| Cavs.HybridLookupsFollowCurve | balanco_hidrico_reservatorios/balanco_hidrico_reservatorios/cavs.py:191-198 | the hybrid's volume and elevation lookups are its elevation-volume curve's, returning a row's values at that row |
| Cavs.ElevationOf | balanco_hidrico_reservatorios/balanco_hidrico_reservatorios/cavs.py:57-58 | `calcula_cota_por` of either curve class is the clamped lookup of the volume in that class's tabulated elevation-volume columns |
| Cavs.AreaOf | balanco_hidrico_reservatorios/balanco_hidrico_reservatorios/cavs.py:45-46 | `calcula_area_por`: a full curve without an area column fails, one with it gives the clamped lookup; the hybrid always gives a finite polynomial value |
| Cavs.CapabilityOf | balanco_hidrico_reservatorios/balanco_hidrico_reservatorios/cavs.py:43-61 | for a supported curve of either class, the engine's two functions agree at every argument with the program's `calcula_cota_por` and `calcula_area_por`, clamped search included |
| Reservoirs.NewPropsVolume | balanco_hidrico_reservatorios/balanco_hidrico_reservatorios/reservatorios.py:19-33 | refused exactly when the minimum exceeds the maximum; a missing total usable volume becomes maximum minus minimum, which is then non-negative |
| Reservoirs.EqualVolumeBoundsAccepted | balanco_hidrico_reservatorios/balanco_hidrico_reservatorios/reservatorios.py:31-33 | equal bounds pass and give a zero total usable volume |
| Reservoirs.CheckPropsCota | balanco_hidrico_reservatorios/balanco_hidrico_reservatorios/reservatorios.py:15-17 | the elevation bounds check passes exactly when the minimum is at most the maximum |
| Reservoirs.NewPropsCota | balanco_hidrico_reservatorios/balanco_hidrico_reservatorios/reservatorios.py:10-13 | `PropsCota` stores its two bounds as given, with no check |
| Reservoirs.InvertedElevationBoundsAccepted | balanco_hidrico_reservatorios/balanco_hidrico_reservatorios/reservatorios.py:10-17 | construction never runs that check: inverted elevation bounds are stored although the check refuses them |
| Reservoirs.NewReservoir | balanco_hidrico_reservatorios/balanco_hidrico_reservatorios/reservatorios.py:36-51 | only the abstract class is refused; any subclass is built with its fields unchanged |
| Series.CheckIndexKind | balanco_hidrico_reservatorios/serie_temporal.py:22-36 | passes exactly for a daily `DatetimeIndex` or a monthly `PeriodIndex` |
| Series.CheckGaps | balanco_hidrico_reservatorios/serie_temporal.py:39-52 | an empty index fails; otherwise the check passes exactly when consecutive entries are consecutive days or months, and every gap failure carries an empty list of missing dates, as the program builds it |
| Series.RangeIffContiguous | balanco_hidrico_reservatorios/serie_temporal.py:43-47 | a non-empty index equals the full range between its extremes exactly when it is contiguous |
| Series.OutOfStepFails | balanco_hidrico_reservatorios/serie_temporal.py:47-52 | two entries whose distance differs from their positions' distance (a gap, a repeat, a reversal) fail the check |
| Series.DuplicateFails | balanco_hidrico_reservatorios/serie_temporal.py:47-52 | a repeated day or month fails the check |
| Series.MissingAsWritten | balanco_hidrico_reservatorios/serie_temporal.py:48 | the list as written holds exactly the index entries outside the range between the smallest and largest entry |
| Series.MissingAsWrittenIsEmpty | balanco_hidrico_reservatorios/serie_temporal.py:48 | the list of missing dates as written is always empty, for dates without a time of day and a monthly period index |
| Series.MissingFromIndex | balanco_hidrico_reservatorios/serie_temporal.py:48 | the corrected list holds exactly the dates of the range that the index lacks |
| Series.GapListedAsMissing | balanco_hidrico_reservatorios/serie_temporal.py:47-52 | in an increasing index with a jump, the check fails; the corrected list holds the first date of the jump, and the report as written does not |
| Series.CheckColumnNames | balanco_hidrico_reservatorios/serie_temporal.py:55-63 | passes exactly when every name is a column; otherwise it names the first absent one in list order |
| Series.CheckSeries | balanco_hidrico_reservatorios/balanco_hidrico.py:57-59 | passes exactly when all three checks pass; reports the index-kind error first, then the gap error, and when both of those pass it gives the column check's result |
| Evaporation.RoundFrom | balanco_hidrico_reservatorios/evaporacao_do_lago.py:45-51 | one pass of the loop: the candidate nets the previous round's volumes out of the volume without evaporation; the area averages the initial and candidate areas; the residual compares the two rounds' net precipitation |
| Evaporation.Iterate | balanco_hidrico_reservatorios/evaporacao_do_lago.py:44-51 | a result comes after at least one round, within the budget; on exit the last round's residual is at most 0.1 and the area is the mean of the initial area and the candidate's area |
| Evaporation.Solve | balanco_hidrico_reservatorios/evaporacao_do_lago.py:17-58 | `calcula_volume_evaporado_do_lago`: the exit state of the loop, started from the volume without evaporation; a first-round exit keeps that volume as the candidate |
| Evaporation.EqualDepthsOneRound | balanco_hidrico_reservatorios/evaporacao_do_lago.py:44-49 | equal evaporation and precipitation depths stop the loop after one round |
| Evaporation.IterateFuelIrrelevant | balanco_hidrico_reservatorios/evaporacao_do_lago.py:44 | a run that converges within a budget gives the same result under any larger budget |
| Evaporation.SolveFuelIrrelevant | balanco_hidrico_reservatorios/evaporacao_do_lago.py:44 | the same for the whole solver: the budget never changes a converged answer |
| Evaporation.SolveByLoop | balanco_hidrico_reservatorios/evaporacao_do_lago.py:41-51 | the while loop, written as the program writes it, computes the recursive solver's result |
| Balance.PriorityOf | balanco_hidrico_reservatorios/balanco_hidrico.py:38 | each of the two priority labels selects its own order; any other text selects neither |
| Balance.ChosenSeries | balanco_hidrico_reservatorios/balanco_hidrico.py:51 | the series passed in is used when given, else the reservoir's own |
| Balance.Seed | balanco_hidrico_reservatorios/balanco_hidrico.py:63 | a valid percentage puts the initial volume within the bounds: 0 gives the minimum, 100 the maximum, 50 the midpoint |
| Balance.Factor | balanco_hidrico_reservatorios/balanco_hidrico.py:79-82 | the rate-to-volume factor is 0.0864 for a day, and 0.0864 times the month's length for a month, between 28 and 31 days' worth |
| Balance.Classify | balanco_hidrico_reservatorios/balanco_hidrico.py:93-167 | the three regimes partition the naive final volume: above the maximum, at or below the minimum, strictly between |
| Balance.NaiveFinal | balanco_hidrico_reservatorios/balanco_hidrico.py:88-91 | the naive final volume is the initial volume plus the net inflow, corrected by the initial lake area times the net precipitation depth |
| Balance.SpillPeriod | balanco_hidrico_reservatorios/balanco_hidrico.py:93-119 | the spilled volume is the positive excess of the naive volume; the final volume is at most the maximum and at most the balance recomputed with the lake at the maximum volume; flows are unchanged |
| Balance.Curtail | balanco_hidrico_reservatorios/balanco_hidrico.py:133 | a curtailed rate never exceeds the request nor the available storage, stays non-negative for a non-negative request, and is either the request or exactly what the storage allows |
| Balance.DeficitRates | balanco_hidrico_reservatorios/balanco_hidrico.py:130-146 | neither flow exceeds its request, both stay non-negative for non-negative requests, and an unknown priority curtails nothing |
| Balance.TurbinedServedFirst | balanco_hidrico_reservatorios/balanco_hidrico.py:140-146 | turbined first: the turbined rate is cut to the storage above the minimum, the demand to that storage plus the inflow less the turbined volume |
| Balance.DemandsServedFirst | balanco_hidrico_reservatorios/balanco_hidrico.py:132-138 | demands first: the demand is cut to the storage above the minimum, the turbined rate to that storage plus the inflow less the demand volume |
| Balance.DeficitPeriod | balanco_hidrico_reservatorios/balanco_hidrico.py:121-165 | the period ends at the minimum volume without spill, with the lake at the minimum volume; its rates are the deficit rates of the storage above the minimum net of the lake's evaporation and precipitation; both flows are at most the requested ones and non-negative when requested so; an unknown priority curtails nothing |
| Balance.DeficitServesTurbinedFirst | balanco_hidrico_reservatorios/balanco_hidrico.py:124-146 | turbined first: the turbined rate is limited by the storage above the minimum net of the lake, the demand by that plus the inflow less the turbined volume, and each is its request unless its limit binds |
| Balance.DeficitServesDemandsFirst | balanco_hidrico_reservatorios/balanco_hidrico.py:124-138 | demands first: the mirror image, with the demand limited by the storage above the minimum alone |
| Balance.NormalPeriod | balanco_hidrico_reservatorios/balanco_hidrico.py:167-201 | fails exactly when the lake iteration does not converge; otherwise no spill, flows unchanged, and the final volume closes the balance with the solver's evaporation and precipitation |
| Balance.Step | balanco_hidrico_reservatorios/balanco_hidrico.py:84-201 | one period: it spills exactly when the naive volume exceeds the maximum and then ends at most at the maximum; it ends at the minimum when the naive volume is at or below it; flows are never raised; a deficit is the deficit branch's result and a volume strictly inside the band is the normal branch's |
| Balance.SpillCanEndBelowMinimum | balanco_hidrico_reservatorios/balanco_hidrico.py:93-100 | a spilling period can end below the minimum volume: the excess is judged with the initial lake area, the final volume with the area at the maximum |
| Balance.PriorityFlowCutFirst | balanco_hidrico_reservatorios/balanco_hidrico.py:130-146 | on the same period, the flow served first is the one cut to zero: its limit excludes the inflow, the other's includes it |
| Balance.Run | balanco_hidrico_reservatorios/balanco_hidrico.py:66-205 | one record per row in order; the first starts from the seed; each later one starts from the previous final volume; each record is that row's step, with neither flow above the row's request. A first period that spills makes the program raise at line 205, where the model returns its records |
| Balance.Inputs | balanco_hidrico_reservatorios/balanco_hidrico.py:72-77 | each row's five quantities are read from the named columns |
| Balance.RunChecked | balanco_hidrico_reservatorios/balanco_hidrico.py:61-206 | on a checked series: record count and periods follow the index, the volumes chain from the seed, no record's flows exceed the series', and each record is the one-period step of its row from its own initial volume |
| Balance.WaterBalance | balanco_hidrico_reservatorios/balanco_hidrico.py:41-206 | an out-of-range percentage is refused first, then any failing series check with its own error; a result passed the series checks, and its records follow the index, chain from the seed, stay within the requested flows and are each the one-period step of their row |
| Utilities.ScaleByMonthAt | balanco_hidrico_reservatorios/balanco_hidrico_reservatorios/utilidades.py:51-53 | each scaled row is its value times its month's rate |
| Utilities.InMonthScaled | balanco_hidrico_reservatorios/balanco_hidrico_reservatorios/utilidades.py:50-53 | scaling rows by their month's rate scales each month's total by that rate |
| Utilities.MeanRatio | balanco_hidrico_reservatorios/balanco_hidrico_reservatorios/utilidades.py:27-28 | the ratio of two group means is finite exactly when the divisor's total is non-zero, and then times that total gives the dividend's total |
| Utilities.RateOfMonth | balanco_hidrico_reservatorios/balanco_hidrico_reservatorios/utilidades.py:26-28 | a month's rate turns its inflow total into its turbined total, and is non-finite exactly when the inflow total is zero |
| Utilities.RatesOf | balanco_hidrico_reservatorios/balanco_hidrico_reservatorios/utilidades.py:26-30 | the rates are keyed by exactly the months the index holds, each fitting its month's totals |
| Utilities.MonthlyRates | balanco_hidrico_reservatorios/balanco_hidrico_reservatorios/utilidades.py:13-38 | fails exactly when the series checks fail, with their error; otherwise both columns exist and the map holds one fitting rate per month present, and no entry for a month absent, since the twelve-month guard never fires |
| Utilities.FirstMissingMonth | balanco_hidrico_reservatorios/balanco_hidrico_reservatorios/utilidades.py:50-52 | finds the first month from a start that a monthly map lacks, or reports none missing exactly when all are present |
| Utilities.InsertedFrame | balanco_hidrico_reservatorios/balanco_hidrico_reservatorios/utilidades.py:48-55 | the copied series gains the turbined column, holds scaled inflow there and leaves every other column as it was |
| Utilities.InsertTurbined | balanco_hidrico_reservatorios/balanco_hidrico_reservatorios/utilidades.py:41-55 | a missing inflow column is reported first; otherwise it fails exactly when some month lacks a rate, naming the first such month |
| Utilities.InsertedRowIsScaledInflow | balanco_hidrico_reservatorios/balanco_hidrico_reservatorios/utilidades.py:51-53 | every row's new turbined flow is its inflow times its month's rate |
| Utilities.InsertedMonthTotals | balanco_hidrico_reservatorios/balanco_hidrico_reservatorios/utilidades.py:50-53 | after insertion a month's turbined total is its rate times its inflow total, and the inflow column is unchanged |
| Utilities.InsertedPassesChecks | balanco_hidrico_reservatorios/balanco_hidrico_reservatorios/utilidades.py:22-24 | the inserted series passes the checks that the rate computation runs, when the original passed them |
| Utilities.RatesRecoverInserted | balanco_hidrico_reservatorios/balanco_hidrico_reservatorios/utilidades.py:13-55 | rates inserted and read back are the same rates in every month of non-zero inflow; a month of zero inflow reads back non-finite |
| Utilities.InsertedRatesKeepMonthlyTotals | balanco_hidrico_reservatorios/balanco_hidrico_reservatorios/utilidades.py:13-55 | rates read from a series and inserted back keep every month's turbined total, when all twelve months are present with non-zero inflow |
| Utilities.MonthlyVectorToSeries | balanco_hidrico_reservatorios/balanco_hidrico_reservatorios/utilidades.py:58-85 | fails exactly when a month is missing, naming the first; otherwise one value per row, its month's value in a monthly series, spread over the month's days in a daily one |
| Utilities.WholeMonthSumsToVector | balanco_hidrico_reservatorios/balanco_hidrico_reservatorios/utilidades.py:74-79 | spread over the days of one whole month, the daily values add back up to the monthly value |
| Regularization.RegularizedSeries | balanco_hidrico_reservatorios/balanco_hidrico_reservatorios/regularizacao_de_vazoes.py:13-21 | a missing inflow column is a key error; otherwise a monthly copy where every row's turbined flow is the mean inflow and every other column is unchanged |
| Regularization.RegularizedTotalMatchesInflow | balanco_hidrico_reservatorios/balanco_hidrico_reservatorios/regularizacao_de_vazoes.py:16-17 | over the whole record the regularised turbined flow adds up to the total inflow |
| Regularization.RegularizedFlow | balanco_hidrico_reservatorios/balanco_hidrico_reservatorios/regularizacao_de_vazoes.py:8-30 | a missing inflow column fails first, then a series that is not period-indexed; a result has one record per row, in index order |
| Regularization.RegularizedFlowStartsHalfFull | balanco_hidrico_reservatorios/balanco_hidrico_reservatorios/regularizacao_de_vazoes.py:23-28 | the regularised run starts midway between the minimum and maximum volume, and each period starts where the previous ended |
| Regularization.RegularizedFlowReleasesAtMostMean | balanco_hidrico_reservatorios/balanco_hidrico_reservatorios/regularizacao_de_vazoes.py:16-28 | no period turbines more than the long-term mean inflow |

## Left out

- Floating point: all arithmetic is on reals, so rounding is not modelled. NaN values in
  a series are not modelled either; every cell is a number.
- Metadata of a reservoir (name, codes, coordinates, nominal area, capacity) plays no
  part in any computation and is not kept.
- `CavReservatorioONS.calcula_cotas_por` (cavs.py:200-201) calls itself with the same
  arguments. In Python that ends in a `RecursionError`, which has no counterpart here;
  the model offers the hybrid curve's scalar elevation lookup only.
- `converte_para` with a column selector other than `cota` or `volume` fails with an
  unbound local variable. The model takes the two columns directly. The engine imports
  `converte_para` but never calls it.
- Sorting.SortByKey: a stable insertion sort. pandas' default `sort_values` is not
  stable, so rows with equal elevations may come out in a different order.
- Cavs.CapabilityOf: defined only for curves with two rows or more and strictly
  increasing reference columns (`Cavs.Supported`). A flat segment makes the program
  divide by zero and carry an infinity or NaN through the balance, which the engine
  model does not follow.
- Balance.WaterBalance: requires a supported curve, for the reason above.
- Balance.WaterBalance: reads the column names from the series it runs on. The program
  reads them from the reservoir's own series (balanco_hidrico.py:72,
  evaporacao_do_lago.py:25), which differs when another series is passed in. The model
  assumes the two agree.
- Balance.Run: the program ends each period with `cota_inicial = cota_final`
  (balanco_hidrico.py:205), but only the deficit and normal branches bind `cota_final`
  (lines 124 and 176). When the first period spills, that line raises
  `UnboundLocalError` and the balance fails. The model returns the records instead. In
  every other case the carried elevation is recomputed from the volume at the start of
  the next period (line 88), so it is not kept. Balance.RunChecked, Balance.WaterBalance
  and Regularization.RegularizedFlow inherit this.
- Evaporation.Solve: the loop has no bound in the program. Here it runs for at most
  `maxIterations` rounds, and a run that needs more yields `NotConverged`.
- Regularization.RegularizedSeries: a series without rows has a NaN mean in pandas. The
  model writes no rows, so no value exists to compare.
- Regularization.RegularizedFlow: the wrapping of the records into a `DataFrame` is not
  modelled; the records themselves are the result.
- Utilities.MonthlyVectorToSeries: returns the new column only, not the copied table
  with its helper columns `vetor` and `num_dias_no_mes`.
- Series.Frame: an index entry is a calendar date (`Stamp`) and carries no time of day,
  and a `PeriodIndex` is taken to have monthly periods. With a time of day, or periods of
  another length, the program's gap check can report entries the model does not, and its
  list of missing dates need not be empty.
- Series.WellFormed: asks only that every entry names a month. A daily frame's entries
  are not required to be valid dates; the day ordinal is computed from the fields as
  given.
- pandas index alignment, duplicate column labels and `.loc` assignments to a new column
  through a list are taken to behave as plain column writes.

## Findings

| source | as written | input that shows it | evidently intended | confidence | as-written member | corrected member |
|---|---|---|---|---|---|---|
| balanco_hidrico_reservatorios/balanco_hidrico_reservatorios/conversor.py:49-52 | the clamped insertion index becomes the LEFT end of the bracket, so a query inside any segment but the last is evaluated on the next segment's line | table (0,0) (1,1) (2,3), query 0.5: yields 0 | the segment that contains the query: 0.5 | not executed | Interpolation.ClampedInteriorCounterexample | Interpolation.ContainingSegmentBetweenTargets |
| balanco_hidrico_reservatorios/balanco_hidrico_reservatorios/conversor.py:21-23 | a query equal to the last reference takes the bracket (n-3, n-2) | table (0,0) (1,1) (2,3), query 2: yields 2 | the last segment, giving the last target: 3 | not executed | Interpolation.ConverteParaAtLastCounterexample | Interpolation.ContainingSegmentAtKnot |
| balanco_hidrico_reservatorios/balanco_hidrico_reservatorios/cavs.py:159-165 | `CurvaCotaVolumeONS.calcula_cotas_por` swaps the columns and looks volumes up as elevations | curve (0 m, 0 hm³) to (10 m, 100 hm³), volume 50: yields 500 | the elevation at that volume: 5 | not executed | Cavs.CurveElevationsCounterexample | Cavs.ElevationsByVolumesElementwise |
| balanco_hidrico_reservatorios/serie_temporal.py:48 | the reported missing dates are the index entries absent from the full range, which is an empty list whenever the dates carry no time of day and the periods are months | monthly index January and March 2000: reports nothing | the dates of the range absent from the index: February 2000 | not executed | Series.CheckGaps | Series.GapListedAsMissing |

## Behaviour worth knowing

- A period's final volume is not always within the volume bounds.
  `Balance.SpillCanEndBelowMinimum` exhibits a spilling period that ends below the
  minimum.
- The lake iteration stops once the residual is at most 0.1, not strictly below it.
- The table validator accepts equal neighbouring references (`Cavs.EqualNeighboursAccepted`).
- The elevation-bounds check of `PropsCota` is never run (`Reservoirs.InvertedElevationBoundsAccepted`).
- The twelve-month guards of `utilidades.py` compare the results of two `list.sort()`
  calls, both `None`, so they never raise. A month missing from a rate map surfaces only
  when the map is indexed.
- In a deficit period, the limit on the flow served first excludes the period's inflow
  (`Balance.PriorityFlowCutFirst`).
