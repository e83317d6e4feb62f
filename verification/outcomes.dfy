/**
  Failure-carrying values shared by every module of the water-balance model.

  The original program signals problems by raising Python exceptions; here each
  exception it raises becomes one constructor of `Error`, and every operation that
  can raise returns a `Result`.
 */
module Outcomes {

  /** Why an elevation-area-volume table was refused (all raise DataFrameCavInvalidoErro). */
  datatype CavProblem =
    | MissingColumns   // a required column name is not in the table
    | NullValues       // a required column holds a missing value
    | OutOfOrder       // after sorting by elevation some required column decreases

  datatype Error =
    | CavInvalid(problem: CavProblem)      // DataFrameCavInvalidoErro
    | InvertedVolumeBounds                 // ValueError: minimum volume above maximum volume
    | InitialPercentageOutOfRange          // ValueError: initial volume percentage outside [0, 100]
    | AbstractInstantiation                // TypeError: the abstract reservoir class was instantiated
    | InvalidSeriesIndex                   // SerieTemporalInvalida: index kind does not match the frequency
    | SeriesHasGaps(missing: seq<int>)     // SequenciaDaSerieTemporalComFalha, with the missing period ordinals
    | EmptySeriesIndex                     // ValueError: a date range cannot start or end at NaT
    | InvalidColumnName(name: string)      // NomeDaColunaInvalida, naming the first absent column
    | MissingColumn(column: string)        // KeyError on a column label
    | MissingMonth(month: int)             // KeyError on a month key of a monthly dictionary
    | IndexOutOfRange                      // IndexError from indexing an empty table
    | NotConverged                         // the evaporation iteration exceeded its iteration budget

  datatype Option<+T> = None | Some(value: T)

  datatype Result<+T> = Ok(value: T) | Err(error: Error) {

    predicate IsFailure() {
      Err?
    }

    function PropagateFailure<U>(): Result<U>
      requires Err?
    {
      Err(error)
    }

    function Extract(): T
      requires Ok?
    {
      value
    }
  }
}
