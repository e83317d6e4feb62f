/**
  The lake-evaporation fixed point used in a period of normal operation.

  Starting from no evaporation and no precipitation, each round builds a candidate
  final volume from the previous round's evaporated and precipitated volumes, reads
  the elevation and area of that candidate from the curve, averages that area with
  the area at the initial volume, and recomputes both volumes from the averaged
  area. The rounds stop after the first one whose residual — the change in the net
  precipitation volume — is at most 0.1.

  The original loop has no bound. Here an iteration budget `maxIterations` bounds
  it, and exhausting the budget yields `NotConverged`; a run that converges within
  the budget gives the same answer under any larger budget.
 */
module Evaporation {
  import opened Outcomes
  import Cavs

  /** The residual at or below which the rounds stop. */
  const Tolerance: real := 0.1

  /** The residual the loop starts from, chosen to force a first round. */
  const InitialResidual: real := 99999.0

  function Abs(x: real): (r: real)
    ensures r >= 0.0 && (r == x || r == -x)
  {
    if x < 0.0 then -x else x
  }

  /** Area of the lake (km²) when it holds `volume` (hm³). */
  function AreaAtVolume(cap: Cavs.Capability, volume: real): real {
    cap.areaForElevation(cap.elevationForVolume(volume))
  }

  /** `ResultadoEvaporacaoNoPeriodo`, plus the last candidate volume and the number of rounds. */
  datatype Solution = Solution(
    finalElevation: real,
    lakeArea: real,
    evaporated: real,
    precipitated: real,
    candidateVolume: real,
    iterations: nat)

  /** What holds when the loop exits: the elevation is the last candidate's, the area is the
      average of the initial area and the candidate's area, the two volumes are that area
      times the depths, and the candidate differs from the volume without evaporation by the
      previous round's net precipitation, which is within the tolerance of the new one. */
  predicate ExitState(cap: Cavs.Capability, initialArea: real, withoutEvaporation: real,
                      evaporation: real, precipitation: real, s: Solution)
  {
    && s.finalElevation == cap.elevationForVolume(s.candidateVolume)
    && s.lakeArea == (initialArea + cap.areaForElevation(s.finalElevation)) / 2.0
    && s.evaporated == s.lakeArea * evaporation / 1000.0
    && s.precipitated == s.lakeArea * precipitation / 1000.0
    && Abs((s.candidateVolume - withoutEvaporation) - s.lakeArea * (precipitation - evaporation) / 1000.0) <= Tolerance
  }

  /** One pass of the loop body. */
  datatype Round = Round(candidate: real, elevation: real, area: real, residual: real, evaporated: real, precipitated: real)

  /** The loop body from the previous round's evaporated and precipitated volumes. */
  function RoundFrom(cap: Cavs.Capability, initialArea: real, withoutEvaporation: real,
                     evaporation: real, precipitation: real, evaporated: real, precipitated: real): (rd: Round)
    ensures rd.candidate == withoutEvaporation - evaporated + precipitated
    ensures rd.elevation == cap.elevationForVolume(rd.candidate)
    ensures rd.area == (initialArea + cap.areaForElevation(rd.elevation)) / 2.0
    ensures rd.evaporated == rd.area * evaporation / 1000.0 && rd.precipitated == rd.area * precipitation / 1000.0
    ensures rd.residual == Abs((precipitated - evaporated) - rd.area * (precipitation - evaporation) / 1000.0)
  {
    var candidate := withoutEvaporation - evaporated + precipitated;
    var elevation := cap.elevationForVolume(candidate);
    var area := (initialArea + cap.areaForElevation(elevation)) / 2.0;
    Round(candidate, elevation, area,
          Abs((precipitated - evaporated) - area * (precipitation - evaporation) / 1000.0),
          area * evaporation / 1000.0, area * precipitation / 1000.0)
  }

  /** The rounds from the given previous volumes, `done` rounds already run, `fuel` rounds left. */
  function Iterate(cap: Cavs.Capability, initialArea: real, withoutEvaporation: real,
                   evaporation: real, precipitation: real,
                   evaporated: real, precipitated: real, done: nat, fuel: nat): (r: Result<Solution>)
    ensures fuel == 0 ==> r == Err(NotConverged)
    ensures r.Err? ==> r.error == NotConverged
    ensures r.Ok? ==> done < r.value.iterations <= done + fuel
    ensures r.Ok? ==> ExitState(cap, initialArea, withoutEvaporation, evaporation, precipitation, r.value)
    ensures r.Ok? && r.value.iterations == done + 1 ==>
              r.value.candidateVolume == withoutEvaporation - evaporated + precipitated
    decreases fuel
  {
    if fuel == 0 then Err(NotConverged)
    else
      var rd := RoundFrom(cap, initialArea, withoutEvaporation, evaporation, precipitation, evaporated, precipitated);
      if rd.residual > Tolerance then
        Iterate(cap, initialArea, withoutEvaporation, evaporation, precipitation,
                rd.evaporated, rd.precipitated, done + 1, fuel - 1)
      else
        Ok(Solution(rd.elevation, rd.area, rd.evaporated, rd.precipitated, rd.candidate, done + 1))
  }

  /** The volume the period would end with if nothing evaporated or fell on the lake. */
  function WithoutEvaporation(initialVolume: real, inflowVolume: real, withdrawalVolume: real, turbinedVolume: real): real {
    initialVolume + inflowVolume - withdrawalVolume - turbinedVolume
  }

  /** `calcula_volume_evaporado_do_lago` for one period; volumes in hm³, depths in mm. */
  function Solve(cap: Cavs.Capability, initialVolume: real, inflowVolume: real, withdrawalVolume: real,
                 turbinedVolume: real, evaporation: real, precipitation: real, maxIterations: nat): (r: Result<Solution>)
    ensures r.Err? ==> r.error == NotConverged
    ensures r.Ok? ==> 1 <= r.value.iterations <= maxIterations
    ensures r.Ok? ==> ExitState(cap, AreaAtVolume(cap, initialVolume),
                                WithoutEvaporation(initialVolume, inflowVolume, withdrawalVolume, turbinedVolume),
                                evaporation, precipitation, r.value)
    ensures r.Ok? && r.value.iterations == 1 ==>
              r.value.candidateVolume == WithoutEvaporation(initialVolume, inflowVolume, withdrawalVolume, turbinedVolume)
  {
    Iterate(cap, AreaAtVolume(cap, initialVolume),
            WithoutEvaporation(initialVolume, inflowVolume, withdrawalVolume, turbinedVolume),
            evaporation, precipitation, 0.0, 0.0, 0, maxIterations)
  }

  /** Equal evaporation and precipitation depths make the first residual zero: one round,
      whose candidate is the volume without evaporation. */
  lemma EqualDepthsOneRound(cap: Cavs.Capability, initialVolume: real, inflowVolume: real, withdrawalVolume: real,
                            turbinedVolume: real, depth: real, maxIterations: nat)
    requires maxIterations >= 1
    ensures Solve(cap, initialVolume, inflowVolume, withdrawalVolume, turbinedVolume, depth, depth, maxIterations).Ok?
    ensures Solve(cap, initialVolume, inflowVolume, withdrawalVolume, turbinedVolume, depth, depth, maxIterations).value.iterations == 1
  {
  }

  /** A run that converges within a budget gives the same solution under any larger budget. */
  lemma {:induction false} IterateFuelIrrelevant(cap: Cavs.Capability, initialArea: real, withoutEvaporation: real,
                                                 evaporation: real, precipitation: real,
                                                 evaporated: real, precipitated: real, done: nat, fuel: nat, more: nat)
    requires Iterate(cap, initialArea, withoutEvaporation, evaporation, precipitation, evaporated, precipitated, done, fuel).Ok?
    requires fuel <= more
    ensures Iterate(cap, initialArea, withoutEvaporation, evaporation, precipitation, evaporated, precipitated, done, more)
         == Iterate(cap, initialArea, withoutEvaporation, evaporation, precipitation, evaporated, precipitated, done, fuel)
    decreases fuel
  {
    var rd := RoundFrom(cap, initialArea, withoutEvaporation, evaporation, precipitation, evaporated, precipitated);
    if rd.residual > Tolerance {
      IterateFuelIrrelevant(cap, initialArea, withoutEvaporation, evaporation, precipitation,
                            rd.evaporated, rd.precipitated, done + 1, fuel - 1, more - 1);
    }
  }

  lemma SolveFuelIrrelevant(cap: Cavs.Capability, initialVolume: real, inflowVolume: real, withdrawalVolume: real,
                            turbinedVolume: real, evaporation: real, precipitation: real, budget: nat, larger: nat)
    requires Solve(cap, initialVolume, inflowVolume, withdrawalVolume, turbinedVolume, evaporation, precipitation, budget).Ok?
    requires budget <= larger
    ensures Solve(cap, initialVolume, inflowVolume, withdrawalVolume, turbinedVolume, evaporation, precipitation, larger)
         == Solve(cap, initialVolume, inflowVolume, withdrawalVolume, turbinedVolume, evaporation, precipitation, budget)
  {
    IterateFuelIrrelevant(cap, AreaAtVolume(cap, initialVolume),
                          WithoutEvaporation(initialVolume, inflowVolume, withdrawalVolume, turbinedVolume),
                          evaporation, precipitation, 0.0, 0.0, 0, budget, larger);
  }

  /** The loop as the original writes it, with the round count bounded by the budget. */
  method SolveByLoop(cap: Cavs.Capability, initialVolume: real, inflowVolume: real, withdrawalVolume: real,
                     turbinedVolume: real, evaporation: real, precipitation: real, maxIterations: nat)
    returns (r: Result<Solution>)
    ensures r == Solve(cap, initialVolume, inflowVolume, withdrawalVolume, turbinedVolume, evaporation, precipitation, maxIterations)
  {
    var initialArea := AreaAtVolume(cap, initialVolume);
    var withoutEvaporation := WithoutEvaporation(initialVolume, inflowVolume, withdrawalVolume, turbinedVolume);
    ghost var expected := Solve(cap, initialVolume, inflowVolume, withdrawalVolume, turbinedVolume, evaporation, precipitation, maxIterations);
    var evaporated, precipitated := 0.0, 0.0;
    var residual := InitialResidual;
    var rounds: nat := 0;
    var candidate, elevation, area := 0.0, 0.0, 0.0;
    while residual > Tolerance && rounds < maxIterations
      invariant rounds <= maxIterations
      invariant residual > Tolerance ==>
        Iterate(cap, initialArea, withoutEvaporation, evaporation, precipitation,
                evaporated, precipitated, rounds, maxIterations - rounds) == expected
      invariant residual <= Tolerance ==>
        expected == Ok(Solution(elevation, area, evaporated, precipitated, candidate, rounds))
      decreases maxIterations - rounds
    {
      var rd := RoundFrom(cap, initialArea, withoutEvaporation, evaporation, precipitation, evaporated, precipitated);
      candidate, elevation, area := rd.candidate, rd.elevation, rd.area;
      residual, evaporated, precipitated := rd.residual, rd.evaporated, rd.precipitated;
      rounds := rounds + 1;
    }
    if residual > Tolerance {
      r := Err(NotConverged);
    } else {
      r := Ok(Solution(elevation, area, evaporated, precipitated, candidate, rounds));
    }
  }
}
