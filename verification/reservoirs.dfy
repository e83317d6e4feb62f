/**
  Reservoir records: volume and elevation bounds, the curve, and the reservoir's
  own time series. Only the volume bounds are validated; a reservoir of the
  abstract base class cannot be created.
 */
module Reservoirs {
  import opened Outcomes
  import Cavs
  import Series

  /** `PropsVolume`: total usable volume (derived when not given), maximum, minimum and usable volume. */
  datatype PropsVolume = PropsVolume(usableTotal: Option<real>, maximum: real, minimum: real, usable: Option<real>)

  /** Construction of `PropsVolume`: the bounds check, then the default total usable volume. */
  function NewPropsVolume(usableTotal: Option<real>, maximum: real, minimum: real, usable: Option<real>): (r: Result<PropsVolume>)
    ensures r.Err? <==> minimum > maximum
    ensures r.Err? ==> r.error == InvertedVolumeBounds
    ensures r.Ok? ==> r.value.maximum == maximum && r.value.minimum == minimum && r.value.usable == usable
    ensures r.Ok? && usableTotal.Some? ==> r.value.usableTotal == usableTotal
    ensures r.Ok? && usableTotal.None? ==> r.value.usableTotal == Some(maximum - minimum) && maximum - minimum >= 0.0
  {
    if minimum > maximum then Err(InvertedVolumeBounds)
    else
      var total := if usableTotal.None? then maximum - minimum else usableTotal.value;
      Ok(PropsVolume(Some(total), maximum, minimum, usable))
  }

  /** Equal bounds pass the check, since only a strictly larger minimum is refused, and yield
      a total usable volume of zero. */
  lemma EqualVolumeBoundsAccepted(bound: real, usable: Option<real>)
    ensures NewPropsVolume(None, bound, bound, usable) == Ok(PropsVolume(Some(0.0), bound, bound, usable))
  {
  }

  /** `PropsCota`: maximum and minimum elevation. */
  datatype PropsCota = PropsCota(maximum: real, minimum: real)

  /** The bounds check `PropsCota` defines (its message, copied from the volume check, speaks
      of volumes); nothing calls it. */
  function CheckPropsCota(p: PropsCota): (r: Result<()>)
    ensures r.Ok? <==> p.minimum <= p.maximum
  {
    if p.minimum > p.maximum then Err(InvertedVolumeBounds) else Ok(())
  }

  /** Construction of `PropsCota` runs no check: every pair of bounds is stored as given,
      including bounds its own check would refuse. */
  function NewPropsCota(maximum: real, minimum: real): (p: PropsCota)
    ensures p.maximum == maximum && p.minimum == minimum
  {
    PropsCota(maximum, minimum)
  }

  lemma InvertedElevationBoundsAccepted()
    ensures NewPropsCota(1.0, 2.0).minimum > NewPropsCota(1.0, 2.0).maximum
    ensures CheckPropsCota(NewPropsCota(1.0, 2.0)).Err?
  {
  }

  /** The class a reservoir was created as. */
  datatype ReservoirClass = AbstractReservoir | SarReservoir | OnsReservoir

  /** A reservoir: its bounds, its curve and its own time series. Metadata (names, codes,
      coordinates, nominal area) plays no part in the balance and is not kept. */
  datatype Reservoir = Reservoir(
    kind: ReservoirClass,
    volume: PropsVolume,
    elevation: PropsCota,
    cav: Cavs.CavVariant,
    series: Series.TimeSeries)

  /** `Reservatorio.__post_init__`: only the abstract base class is refused. */
  function NewReservoir(kind: ReservoirClass, volume: PropsVolume, elevation: PropsCota,
                        cav: Cavs.CavVariant, series: Series.TimeSeries): (r: Result<Reservoir>)
    ensures r.Err? <==> kind == AbstractReservoir
    ensures r.Err? ==> r.error == AbstractInstantiation
    ensures r.Ok? ==> r.value == Reservoir(kind, volume, elevation, cav, series)
  {
    if kind == AbstractReservoir then Err(AbstractInstantiation)
    else Ok(Reservoir(kind, volume, elevation, cav, series))
  }
}
