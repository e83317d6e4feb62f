/**
  Time series of a reservoir and the three checks every consumer runs on them:
  the index kind must match the frequency, the index must be a gapless run of
  days or months, and the named columns must exist.

  A table is abstracted to its index (one `Stamp` per row), the kind of pandas
  index holding it, its column names and one map per row. Entries of the index
  are compared through their ordinal (day number or month number).
 */
module Series {
  import opened Outcomes
  import opened Calendar

  /** The pandas index classes that matter: a daily series needs a `DatetimeIndex`,
      a monthly one a `PeriodIndex`. */
  datatype IndexKind = DatetimeIndex | PeriodIndex | OtherIndex

  datatype Frame = Frame(kind: IndexKind, index: seq<Stamp>, columns: set<string>, rows: seq<map<string, real>>)

  /** One row per index entry, each row holding exactly the frame's columns, and every
      entry naming a month. */
  predicate WellFormed(f: Frame) {
    && |f.rows| == |f.index|
    && (forall i :: 0 <= i < |f.rows| ==> f.rows[i].Keys == f.columns)
    && (forall i :: 0 <= i < |f.index| ==> ValidMonth(f.index[i].month))
  }

  /** `ColunasSerieTemporal`: which column holds which quantity. */
  datatype ColumnNames = ColumnNames(inflow: string, turbined: string, withdrawal: string, evaporation: string, precipitation: string)

  /** The names in the dictionary's order. */
  function NameList(n: ColumnNames): seq<string> {
    [n.inflow, n.turbined, n.withdrawal, n.evaporation, n.precipitation]
  }

  /** `SerieTemporal`: a table, its column names and its frequency. */
  datatype TimeSeries = TimeSeries(frame: Frame, names: ColumnNames, freq: Frequency)

  // ---------------------------------------------------------------------------
  // Index kind

  /** The index class a frequency demands. */
  function ExpectedKind(freq: Frequency): IndexKind {
    match freq
    case Daily => DatetimeIndex
    case Monthly => PeriodIndex
  }

  /** `_checa_indice_da_serie_temporal`. */
  function CheckIndexKind(f: Frame, freq: Frequency): (r: Result<()>)
    ensures r.Ok? <==> (freq == Daily && f.kind == DatetimeIndex) || (freq == Monthly && f.kind == PeriodIndex)
    ensures r.Err? ==> r.error == InvalidSeriesIndex
  {
    if f.kind != ExpectedKind(freq) then Err(InvalidSeriesIndex) else Ok(())
  }

  // ---------------------------------------------------------------------------
  // Contiguity

  function Ordinals(f: Frame, freq: Frequency): (os: seq<int>)
    requires WellFormed(f)
    ensures |os| == |f.index|
    ensures forall i :: 0 <= i < |os| ==> os[i] == Ordinal(freq, f.index[i])
  {
    seq(|f.index|, i requires 0 <= i < |f.index| => Ordinal(freq, f.index[i]))
  }

  function Min(os: seq<int>): (m: int)
    requires |os| > 0
    ensures m in os && forall i :: 0 <= i < |os| ==> m <= os[i]
  {
    if |os| == 1 then os[0]
    else
      var rest := Min(os[1..]);
      assert forall i :: 1 <= i < |os| ==> os[i] == os[1..][i - 1];
      if os[0] <= rest then os[0] else rest
  }

  function Max(os: seq<int>): (m: int)
    requires |os| > 0
    ensures m in os && forall i :: 0 <= i < |os| ==> os[i] <= m
  {
    if |os| == 1 then os[0]
    else
      var rest := Max(os[1..]);
      assert forall i :: 1 <= i < |os| ==> os[i] == os[1..][i - 1];
      if rest <= os[0] then os[0] else rest
  }

  /** `pd.date_range(lo, hi)` / `pd.period_range(lo, hi)` as ordinals: every value from lo to hi. */
  function Range(lo: int, hi: int): (r: seq<int>)
    ensures |r| == if lo <= hi then hi - lo + 1 else 0
    ensures forall k :: 0 <= k < |r| ==> r[k] == lo + k
  {
    seq(if lo <= hi then hi - lo + 1 else 0, k => lo + k)
  }

  lemma RangeContains(lo: int, hi: int)
    ensures forall k :: k in Range(lo, hi) <==> lo <= k <= hi
  {
    forall k | lo <= k <= hi ensures k in Range(lo, hi) {
      assert Range(lo, hi)[k - lo] == k;
    }
  }

  /** Each entry is the successor of the one before it. */
  predicate Contiguous(os: seq<int>) {
    forall i :: 1 <= i < |os| ==> os[i] == os[i - 1] + 1
  }

  /** The entries of `xs` that are not in `ys`, in order. */
  function Absent(xs: seq<int>, ys: seq<int>): (r: seq<int>)
    ensures forall k :: k in r <==> k in xs && k !in ys
    ensures |r| <= |xs|
    ensures (forall k :: k in xs ==> k in ys) ==> r == []
  {
    if |xs| == 0 then []
    else
      var rest := Absent(xs[1..], ys);
      assert forall k :: k in xs <==> k == xs[0] || k in xs[1..];
      if xs[0] in ys then rest else [xs[0]] + rest
  }

  /** The list the program reports: index entries that are outside the range. */
  function MissingAsWritten(os: seq<int>): (r: seq<int>)
    requires |os| > 0
    ensures forall k :: k in r <==> k in os && !(Min(os) <= k <= Max(os))
  {
    RangeContains(Min(os), Max(os));
    Absent(os, Range(Min(os), Max(os)))
  }

  /** The list evidently meant: dates of the range that the index lacks. */
  function MissingFromIndex(os: seq<int>): (r: seq<int>)
    requires |os| > 0
    ensures forall k :: k in r <==> Min(os) <= k <= Max(os) && k !in os
  {
    RangeContains(Min(os), Max(os));
    Absent(Range(Min(os), Max(os)), os)
  }

  /** `_checa_falhas_nas_datas_da_serie_temporal` (monthly unless told otherwise): the index
      must equal, entry by entry, the full range between its smallest and largest entry. The
      failure carries the list the program builds, which is always empty on calendar dates. */
  function CheckGaps(f: Frame, freq: Frequency := Monthly): (r: Result<()>)
    requires WellFormed(f)
    ensures |f.index| == 0 ==> r == Err(EmptySeriesIndex)
    ensures r.Ok? <==> |f.index| > 0 && Contiguous(Ordinals(f, freq))
    ensures r.Err? && |f.index| > 0 ==> r == Err(SeriesHasGaps([]))
  {
    var os := Ordinals(f, freq);
    if |os| == 0 then Err(EmptySeriesIndex)
    else
      RangeIffContiguous(os);
      MissingAsWrittenIsEmpty(os);
      if os == Range(Min(os), Max(os)) then Ok(()) else Err(SeriesHasGaps(MissingAsWritten(os)))
  }

  /** In a contiguous run, entry i is i steps after the first. */
  lemma {:induction false} ContiguousFromStart(os: seq<int>)
    requires Contiguous(os)
    ensures forall i :: 0 <= i < |os| ==> os[i] == os[0] + i
    decreases |os|
  {
    if |os| > 1 {
      var init := os[..|os| - 1];
      assert Contiguous(init) by {
        forall i | 1 <= i < |init| ensures init[i] == init[i - 1] + 1 {
          assert init[i] == os[i] && init[i - 1] == os[i - 1];
        }
      }
      ContiguousFromStart(init);
      forall i | 0 <= i < |os| ensures os[i] == os[0] + i {
        if i < |os| - 1 {
          assert os[i] == init[i];
        } else {
          assert os[i - 1] == init[i - 1];
        }
      }
    }
  }

  /** A non-empty index equals the range between its extremes exactly when it is contiguous. */
  lemma RangeIffContiguous(os: seq<int>)
    requires |os| > 0
    ensures os == Range(Min(os), Max(os)) <==> Contiguous(os)
  {
    var range := Range(Min(os), Max(os));
    if Contiguous(os) {
      ContiguousFromStart(os);
      var lo, hi := Min(os), Max(os);
      assert lo == os[0] by {
        var k :| 0 <= k < |os| && os[k] == lo;
        assert os[0] <= os[k];
      }
      assert hi == os[0] + |os| - 1 by {
        var k :| 0 <= k < |os| && os[k] == hi;
        assert os[|os| - 1] <= os[k];
      }
      assert |range| == |os|;
      forall i | 0 <= i < |os| ensures range[i] == os[i] {
      }
    }
    if os == range {
      forall i | 1 <= i < |os| ensures os[i] == os[i - 1] + 1 {
        assert os[i] == range[i] && os[i - 1] == range[i - 1];
      }
    }
  }

  /** Two entries that are not exactly as many ordinals apart as positions apart make the
      check fail: a gap, a repeated entry and an entry out of order are all instances. */
  lemma OutOfStepFails(f: Frame, freq: Frequency, i: int, j: int)
    requires WellFormed(f)
    requires 0 <= i < j < |f.index|
    requires Ordinal(freq, f.index[j]) != Ordinal(freq, f.index[i]) + (j - i)
    ensures CheckGaps(f, freq).Err?
  {
    var os := Ordinals(f, freq);
    if Contiguous(os) {
      ContiguousFromStart(os);
      assert false;
    }
  }

  /** A repeated day or month fails the check. */
  lemma DuplicateFails(f: Frame, freq: Frequency, i: int, j: int)
    requires WellFormed(f)
    requires 0 <= i < j < |f.index| && f.index[i] == f.index[j]
    ensures CheckGaps(f, freq).Err?
  {
    OutOfStepFails(f, freq, i, j);
  }

  /** The list the program attaches to the failure is always empty: every entry of an index
      lies between the index's smallest and largest entries. */
  lemma MissingAsWrittenIsEmpty(os: seq<int>)
    requires |os| > 0
    ensures MissingAsWritten(os) == []
  {
    RangeContains(Min(os), Max(os));
  }

  /** In an increasing sequence, the successor of an entry that is followed by a larger jump
      lies strictly between the extremes and is not an entry. */
  lemma GapValueAbsent(os: seq<int>, i: int)
    requires Increasing(os)
    requires 0 <= i < |os| - 1 && os[i + 1] > os[i] + 1
    ensures os[i] + 1 !in os && Min(os) <= os[i] + 1 <= Max(os)
  {
    forall k | 0 <= k < |os| ensures os[k] != os[i] + 1 {
      if k < i {
        assert os[k] < os[i];
      } else if k > i + 1 {
        assert os[i + 1] < os[k];
      }
    }
    assert Min(os) <= os[i] && os[i + 1] <= Max(os);
  }

  /** Each entry is larger than every entry before it. */
  predicate Increasing(os: seq<int>) {
    forall a, b :: 0 <= a < b < |os| ==> os[a] < os[b]
  }

  /** In an increasing sequence with a jump after entry i, the successor of entry i is listed
      as missing, and the sequence is not contiguous. */
  lemma GapInMissing(os: seq<int>, i: int)
    requires Increasing(os)
    requires 0 <= i < |os| - 1 && os[i + 1] > os[i] + 1
    ensures !Contiguous(os)
    ensures os[i] + 1 in MissingFromIndex(os)
  {
    assert os[i + 1] != os[i] + 1;
    GapValueAbsent(os, i);
  }

  /** A jump between two neighbouring entries of an increasing index fails the check, and the
      corrected list names the first date of the jump, which the list as written never does. */
  lemma GapListedAsMissing(f: Frame, freq: Frequency, i: int)
    requires WellFormed(f) && Increasing(Ordinals(f, freq))
    requires 0 <= i < |f.index| - 1
    requires Ordinal(freq, f.index[i + 1]) > Ordinal(freq, f.index[i]) + 1
    ensures CheckGaps(f, freq).Err?
    ensures Ordinal(freq, f.index[i]) + 1 in MissingFromIndex(Ordinals(f, freq))
    ensures Ordinal(freq, f.index[i]) + 1 !in CheckGaps(f, freq).error.missing
  {
    GapInMissing(Ordinals(f, freq), i);
  }

  // ---------------------------------------------------------------------------
  // Column names

  /** `_checa_nome_das_colunas`: the first name in list order that is not a column is reported. */
  function CheckColumnNames(f: Frame, names: seq<string>): (r: Result<()>)
    ensures r.Ok? <==> forall k :: 0 <= k < |names| ==> names[k] in f.columns
    ensures r.Err? ==> exists k :: 0 <= k < |names| && names[k] !in f.columns
                         && r.error == InvalidColumnName(names[k])
                         && forall j :: 0 <= j < k ==> names[j] in f.columns
  {
    if |names| == 0 then Ok(())
    else if names[0] !in f.columns then Err(InvalidColumnName(names[0]))
    else
      var rest := CheckColumnNames(f, names[1..]);
      if rest.Err? then
        var k :| 0 <= k < |names| - 1 && names[1..][k] !in f.columns
                   && rest.error == InvalidColumnName(names[1..][k])
                   && forall j :: 0 <= j < k ==> names[1..][j] in f.columns;
        assert names[k + 1] == names[1..][k];
        assert forall j :: 1 <= j < k + 1 ==> names[j] == names[1..][j - 1];
        rest
      else
        assert forall k :: 1 <= k < |names| ==> names[k] == names[1..][k - 1];
        rest
  }

  /** All three checks of a series, in the order the consumers run them. */
  function CheckSeries(f: Frame, freq: Frequency, names: seq<string>): (r: Result<()>)
    requires WellFormed(f)
    ensures r.Ok? <==> CheckIndexKind(f, freq).Ok? && CheckGaps(f, freq).Ok? && CheckColumnNames(f, names).Ok?
    ensures CheckIndexKind(f, freq).Err? ==> r == CheckIndexKind(f, freq)
    ensures CheckIndexKind(f, freq).Ok? && CheckGaps(f, freq).Err? ==> r == CheckGaps(f, freq)
    ensures CheckIndexKind(f, freq).Ok? && CheckGaps(f, freq).Ok? ==> r == CheckColumnNames(f, names)
  {
    var _ :- CheckIndexKind(f, freq);
    var _ :- CheckGaps(f, freq);
    CheckColumnNames(f, names)
  }
}
