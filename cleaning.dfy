/** The cleaning stage of the script: the target `y` and the regressor
    table `x` are module-level variables that the script reassigns step by
    step (transform every column, restrict to the training window, drop
    sparse columns, fill gaps).

    `Frame` is the value of the two variables at one moment and the
    functions below give each step's effect on it; the class `Sample` holds
    the variables and its methods carry the steps out, proved equal to the
    functions. */
module Cleaning {
  import opened Common
  import opened Calendar
  import opened Transform
  import opened Fill

  /** The two columns that keep their original levels. */
  const CagedOld: string := "saldo_caged_antigo"
  const CagedNew: string := "saldo_caged_novo"
  const Untransformed: set<string> := {CagedOld, CagedNew}

  /** Columns with this share of missing values, or more, are dropped. */
  const SparseShare: real := 0.2

  /** `y` and `x`: target dates and values, regressor index and columns. */
  datatype Frame = Frame(targetDates: seq<Date>, targetValues: seq<real>,
                         index: seq<Date>, regressors: seq<NamedColumn>)

  predicate Aligned(index: seq<Date>, cols: seq<NamedColumn>)
  {
    forall c :: c in cols ==> |c.values| == |index|
  }

  lemma AlignedUpdate(index: seq<Date>, cols: seq<NamedColumn>, i: nat, c: NamedColumn)
    requires Aligned(index, cols) && i < |cols| && |c.values| == |index|
    ensures Aligned(index, cols[i := c])
  {
    forall d | d in cols[i := c] ensures |d.values| == |index| {
      var j :| 0 <= j < |cols| && cols[i := c][j] == d;
      if j != i {
        assert cols[j] in cols;
      }
    }
  }

  predicate WellFormed(f: Frame)
  {
    |f.targetDates| == |f.targetValues| && Aligned(f.index, f.regressors)
  }

  // ---------------------------------------------------------------------
  // Splitting the table (`y = dados_tratados.pib.dropna()`)

  function PresentMask(col: Column): (m: seq<bool>)
    ensures |m| == |col| && forall i :: 0 <= i < |col| ==> (m[i] <==> col[i].Some?)
  {
    seq(|col|, i requires 0 <= i < |col| => col[i].Some?)
  }

  /** The present values of a column, in order. */
  function PresentValues(col: Column): (r: seq<real>)
    ensures |r| == |Positions(PresentMask(col))|
    ensures forall k :: 0 <= k < |r| ==> Some(r[k]) == col[Positions(PresentMask(col))[k]]
  {
    var kept := Compress(col, PresentMask(col));
    seq(|kept|, k requires 0 <= k < |kept| => kept[k].value)
  }

  // ---------------------------------------------------------------------
  // Lines 72-73: `x[col] = transformar(x[col], metadados.loc[col, ...])`

  /** One column of the loop: the two excluded columns are kept, any other
      is looked up in the metadata and transformed. */
  function TransformOne(c: NamedColumn, meta: map<string, string>, ln: real -> Option<real>): (r: Result<NamedColumn>)
    ensures r.Ok? ==> r.value.name == c.name && |r.value.values| == |c.values|
  {
    if c.name in Untransformed then Ok(c)
    else if c.name !in meta then Err(MissingMetadata(c.name))
    else
      match Transformar(c.values, meta[c.name], ln)
      case Err(e) => Err(e)
      case Ok(v) => Ok(NamedColumn(c.name, v))
  }

  /** The loop over all columns, stopping at the first failure. */
  function TransformEach(cols: seq<NamedColumn>, meta: map<string, string>, ln: real -> Option<real>): (r: Result<seq<NamedColumn>>)
    ensures r.Ok? <==> forall i :: 0 <= i < |cols| ==> TransformOne(cols[i], meta, ln).Ok?
    ensures r.Ok? ==> |r.value| == |cols| && forall i :: 0 <= i < |cols| ==> r.value[i] == TransformOne(cols[i], meta, ln).value
    ensures r.Err? ==> exists i :: 0 <= i < |cols| && TransformOne(cols[i], meta, ln) == Err(r.error)
                         && forall j :: 0 <= j < i ==> TransformOne(cols[j], meta, ln).Ok?
  {
    if cols == [] then Ok([])
    else
      assert forall i :: 1 <= i < |cols| ==> cols[1..][i - 1] == cols[i];
      match TransformOne(cols[0], meta, ln)
      case Err(e) => Err(e)
      case Ok(c) =>
        match TransformEach(cols[1..], meta, ln)
        case Err(e) =>
          ghost var i :| 0 <= i < |cols[1..]| && TransformOne(cols[1..][i], meta, ln) == Err(e)
                        && forall j :: 0 <= j < i ==> TransformOne(cols[1..][j], meta, ln).Ok?;
          assert TransformOne(cols[i + 1], meta, ln) == Err(e);
          Err(e)
        case Ok(rest) => Ok([c] + rest)
  }

  /** The loop's error is that of the first column that fails. */
  lemma FirstFailure(cols: seq<NamedColumn>, meta: map<string, string>, ln: real -> Option<real>, i: nat)
    requires i < |cols| && TransformOne(cols[i], meta, ln).Err?
    requires forall j :: 0 <= j < i ==> TransformOne(cols[j], meta, ln).Ok?
    ensures TransformEach(cols, meta, ln) == Err(TransformOne(cols[i], meta, ln).error)
  {
    var r := TransformEach(cols, meta, ln);
    var k :| 0 <= k < |cols| && TransformOne(cols[k], meta, ln) == Err(r.error)
             && forall j :: 0 <= j < k ==> TransformOne(cols[j], meta, ln).Ok?;
    assert k == i;
  }

  /** When every column succeeds, the loop's result is the columns' own. */
  lemma AllSucceed(cols: seq<NamedColumn>, done: seq<NamedColumn>, meta: map<string, string>, ln: real -> Option<real>)
    requires |done| == |cols|
    requires forall j :: 0 <= j < |cols| ==> TransformOne(cols[j], meta, ln) == Ok(done[j])
    ensures TransformEach(cols, meta, ln) == Ok(done)
  {
    var r := TransformEach(cols, meta, ln);
    assert r.Ok?;
    assert forall j :: 0 <= j < |cols| ==> r.value[j] == done[j];
    assert r.value == done;
  }

  /** The whole of lines 72-73: `x.drop(...)` first fails when one of the
      two excluded columns is absent. */
  function TransformRegressors(cols: seq<NamedColumn>, meta: map<string, string>, ln: real -> Option<real>): Result<seq<NamedColumn>>
  {
    if CagedOld !in Names(cols) then Err(MissingColumn(CagedOld))
    else if CagedNew !in Names(cols) then Err(MissingColumn(CagedNew))
    else TransformEach(cols, meta, ln)
  }

  /** Every column is rewritten by `transformar` with its own code, except
      the two excluded columns, which are left untouched; the run fails
      exactly when an excluded column is absent, or another column has no
      metadata entry or an invalid code. */
  lemma TransformRegressorsSpec(cols: seq<NamedColumn>, meta: map<string, string>, ln: real -> Option<real>)
    ensures var r := TransformRegressors(cols, meta, ln);
      && (r.Ok? <==>
            && CagedOld in Names(cols) && CagedNew in Names(cols)
            && forall i :: 0 <= i < |cols| && cols[i].name !in Untransformed ==>
                 cols[i].name in meta && meta[cols[i].name] in ValidCodes)
      && (r.Ok? ==> |r.value| == |cols| && forall i :: 0 <= i < |cols| ==>
            && r.value[i].name == cols[i].name
            && (cols[i].name in Untransformed ==> r.value[i] == cols[i])
            && (cols[i].name !in Untransformed ==>
                  r.value[i].values == Transformar(cols[i].values, meta[cols[i].name], ln).value))
  {
  }

  // ---------------------------------------------------------------------
  // Lines 76-78: the training window

  /** `y.index >= inicio_treino`. */
  function SinceMask(dates: seq<Date>, start: Date): (m: seq<bool>)
    ensures |m| == |dates| && forall i :: 0 <= i < |dates| ==> (m[i] <==> dates[i] >= start)
  {
    seq(|dates|, i requires 0 <= i < |dates| => dates[i] >= start)
  }

  /** `y.index.max()`; `None` (NaT) for an empty target. */
  function Latest(dates: seq<Date>): (r: Option<Date>)
    ensures r.None? <==> dates == []
    ensures r.Some? ==> r.value in dates && forall i :: 0 <= i < |dates| ==> dates[i] <= r.value
  {
    if dates == [] then None
    else
      var rest := Latest(dates[1..]);
      assert forall i :: 1 <= i < |dates| ==> dates[1..][i - 1] == dates[i];
      if rest.Some? && rest.value > dates[0] then rest else Some(dates[0])
  }

  /** `index >= @inicio_treino and index <= @y.index.max()`: no row at all
      when the target is empty (comparisons with NaT are false). */
  function WindowMask(index: seq<Date>, start: Date, end: Option<Date>): (m: seq<bool>)
    ensures |m| == |index|
    ensures forall i :: 0 <= i < |index| ==> (m[i] <==> end.Some? && start <= index[i] <= end.value)
  {
    seq(|index|, i requires 0 <= i < |index| => end.Some? && start <= index[i] <= end.value)
  }

  /** Keep the rows of every column at which the mask is true. */
  function SelectRows(cols: seq<NamedColumn>, m: seq<bool>): (r: seq<NamedColumn>)
    requires forall c :: c in cols ==> |c.values| == |m|
    ensures |r| == |cols| && Aligned(Positions(m), r)
    ensures forall j :: 0 <= j < |cols| ==> r[j] == NamedColumn(cols[j].name, Compress(cols[j].values, m))
  {
    seq(|cols|, j requires 0 <= j < |cols| => NamedColumn(cols[j].name, Compress(cols[j].values, m)))
  }

  function RestrictToWindow(f: Frame, start: Date): (r: Frame)
    requires WellFormed(f)
    ensures WellFormed(r)
  {
    var since := SinceMask(f.targetDates, start);
    var dates := Compress(f.targetDates, since);
    var window := WindowMask(f.index, start, Latest(dates));
    Frame(dates, Compress(f.targetValues, since),
          Compress(f.index, window), SelectRows(f.regressors, window))
  }

  /** After the window filter every target date is on or after the
      training start, and none of those dates is lost. */
  lemma WindowTargetSpec(f: Frame, start: Date)
    requires WellFormed(f)
    ensures var r := RestrictToWindow(f, start);
      && (forall k :: 0 <= k < |r.targetDates| ==> r.targetDates[k] >= start)
      && (forall d :: d in f.targetDates && d >= start ==> d in r.targetDates)
      && r.targetValues == Compress(f.targetValues, SinceMask(f.targetDates, start))
  {
    CompressMembers(f.targetDates, SinceMask(f.targetDates, start));
  }

  /** Every remaining regressor row lies between the training start and the
      last remaining target date, and no row of that interval is lost; an
      empty target leaves no row at all. */
  lemma WindowRowsSpec(f: Frame, start: Date)
    requires WellFormed(f)
    ensures var r := RestrictToWindow(f, start);
      && (r.targetDates == [] ==> r.index == [])
      && (r.targetDates != [] ==>
            var end := Latest(r.targetDates).value;
            && end in r.targetDates
            && (forall k :: 0 <= k < |r.index| ==> start <= r.index[k] <= end)
            && (forall i :: 0 <= i < |f.index| && start <= f.index[i] <= end ==> f.index[i] in r.index))
  {
    var r := RestrictToWindow(f, start);
    var window := WindowMask(f.index, start, Latest(r.targetDates));
    CompressMembers(f.index, window);
    if r.targetDates == [] {
      NothingMarked(window);
    }
  }

  /** The regressors keep their names and order, and each kept row carries
      the cells of the original row of the same date. */
  lemma WindowCellsSpec(f: Frame, start: Date)
    requires WellFormed(f)
    ensures var r := RestrictToWindow(f, start);
      && |r.regressors| == |f.regressors|
      && (forall j :: 0 <= j < |f.regressors| ==> r.regressors[j].name == f.regressors[j].name)
      && (forall j, k :: 0 <= j < |f.regressors| && 0 <= k < |r.index| ==>
            exists i :: 0 <= i < |f.index| && r.index[k] == f.index[i]
                        && r.regressors[j].values[k] == f.regressors[j].values[i])
  {
    var r := RestrictToWindow(f, start);
    var window := WindowMask(f.index, start, Latest(r.targetDates));
    var p := Positions(window);
    forall j, k | 0 <= j < |f.regressors| && 0 <= k < |r.index|
      ensures exists i :: 0 <= i < |f.index| && r.index[k] == f.index[i]
                          && r.regressors[j].values[k] == f.regressors[j].values[i]
    {
      assert f.regressors[j] in f.regressors;
      assert r.index[k] == f.index[p[k]] && r.regressors[j].values[k] == f.regressors[j].values[p[k]];
    }
  }

  // ---------------------------------------------------------------------
  // Lines 81-84: dropping sparse columns

  /** `x[col].isnull().sum()`: the number of rows whose cell is NaN. */
  function CountMissing(col: Column): (n: nat)
    ensures n == |set i | 0 <= i < |col| && col[i].None?|
    ensures n <= |col|
    ensures n == 0 <==> forall i :: 0 <= i < |col| ==> col[i].Some?
    ensures n == |col| <==> forall i :: 0 <= i < |col| ==> col[i].None?
  {
    if col == [] then 0
    else
      var init := col[..|col| - 1];
      var last := |col| - 1;
      assert forall i :: 0 <= i < last ==> init[i] == col[i];
      assert (set i | 0 <= i < |col| && col[i].None?)
          == (set i | 0 <= i < |init| && init[i].None?) + (if col[last].None? then {last} else {});
      CountMissing(init) + (if col[last].None? then 1 else 0)
  }

  /** `prop_na >= 0.2` with `prop_na = missing / y.shape[0]`. With an
      empty target the division gives infinity (kept as sparse) when
      something is missing, and NaN (never >= 0.2) when nothing is. */
  predicate IsSparse(missing: nat, targetCount: nat)
  {
    if targetCount == 0 then missing > 0
    else (missing as real) / (targetCount as real) >= SparseShare
  }

  /** The threshold is inclusive: a column is dropped exactly when five
      times its missing count reaches the target's length. */
  lemma SparseBoundary(missing: nat, targetCount: nat)
    requires targetCount > 0
    ensures IsSparse(missing, targetCount) <==> 5 * missing >= targetCount
  {
    var m, n := missing as real, targetCount as real;
    assert m / n >= 0.2 <==> m >= 0.2 * n;
  }

  /** The labels listed by `prop_na[prop_na >= 0.2].index`. */
  function SparseLabels(cols: seq<NamedColumn>, targetCount: nat): set<string>
  {
    set c | c in cols && IsSparse(CountMissing(c.values), targetCount) :: c.name
  }

  function DropSparse(f: Frame): (r: Frame)
    requires WellFormed(f)
    ensures WellFormed(r)
  {
    var labels := SparseLabels(f.regressors, |f.targetDates|);
    var keep := seq(|f.regressors|, j requires 0 <= j < |f.regressors| => f.regressors[j].name !in labels);
    CompressMembers(f.regressors, keep);
    f.(regressors := Compress(f.regressors, keep))
  }

  /** `x.drop(labels = ...)` removes every column whose label is listed:
      a column stays, unchanged and in its place, exactly when no column of
      that label is sparse. Nothing else in the frame changes. */
  lemma DropSparseSpec(f: Frame)
    requires WellFormed(f)
    ensures var r := DropSparse(f);
      && r.targetDates == f.targetDates && r.targetValues == f.targetValues && r.index == f.index
      && (forall c :: c in r.regressors <==>
            c in f.regressors && forall d :: d in f.regressors && d.name == c.name ==>
                                   !IsSparse(CountMissing(d.values), |f.targetDates|))
      && (forall c :: c in r.regressors ==> !IsSparse(CountMissing(c.values), |f.targetDates|))
  {
    var labels := SparseLabels(f.regressors, |f.targetDates|);
    var keep := seq(|f.regressors|, j requires 0 <= j < |f.regressors| => f.regressors[j].name !in labels);
    CompressMembers(f.regressors, keep);
    var r := DropSparse(f);
  }

  // ---------------------------------------------------------------------
  // Line 87: `x = x.bfill().ffill()`

  function FillColumns(cols: seq<NamedColumn>): (r: seq<NamedColumn>)
    ensures |r| == |cols|
  {
    seq(|cols|, j requires 0 <= j < |cols| => NamedColumn(cols[j].name, FillGaps(cols[j].values)))
  }

  function FillAll(f: Frame): (r: Frame)
    requires WellFormed(f)
    ensures WellFormed(r)
  {
    var r := f.(regressors := FillColumns(f.regressors));
    assert forall c :: c in r.regressors ==> exists j :: 0 <= j < |f.regressors| && c == r.regressors[j];
    assert forall j :: 0 <= j < |f.regressors| ==> f.regressors[j] in f.regressors;
    r
  }

  /** After filling, a column with at least one present value has no NaN
      and keeps its present values; a column with none is unchanged. */
  lemma FillAllSpec(f: Frame)
    requires WellFormed(f)
    ensures var r := FillAll(f);
      && r.targetDates == f.targetDates && r.targetValues == f.targetValues && r.index == f.index
      && |r.regressors| == |f.regressors|
      && forall j :: 0 <= j < |f.regressors| ==>
           var before, after := f.regressors[j].values, r.regressors[j].values;
           && r.regressors[j].name == f.regressors[j].name
           && (CountMissing(before) < |before| ==> CountMissing(after) == 0)
           && (CountMissing(before) == |before| ==> after == before)
           && (forall i :: 0 <= i < |before| && before[i].Some? ==> after[i] == before[i])
  {
    var r := FillAll(f);
    forall j | 0 <= j < |f.regressors|
      ensures var before, after := f.regressors[j].values, r.regressors[j].values;
        && (CountMissing(before) < |before| ==> CountMissing(after) == 0)
        && (CountMissing(before) == |before| ==> after == before)
        && (forall i :: 0 <= i < |before| && before[i].Some? ==> after[i] == before[i])
    {
      var before := f.regressors[j].values;
      FillGapsComplete(before);
      forall i | 0 <= i < |before| && before[i].Some? ensures FillGaps(before)[i] == before[i] {
        FillGapsKeepsPresent(before, i);
      }
    }
  }

  // ---------------------------------------------------------------------
  // The stage as a whole

  function Cleaned(f: Frame, meta: map<string, string>, ln: real -> Option<real>, start: Date): (r: Result<Frame>)
    requires WellFormed(f)
    ensures r.Ok? ==> WellFormed(r.value)
  {
    match TransformRegressors(f.regressors, meta, ln)
    case Err(e) => Err(e)
    case Ok(cols) =>
      assert Aligned(f.index, cols) by {
        forall c | c in cols ensures |c.values| == |f.index| {
          var i :| 0 <= i < |cols| && cols[i] == c;
          assert f.regressors[i] in f.regressors;
        }
      }
      Ok(FillAll(DropSparse(RestrictToWindow(f.(regressors := cols), start))))
  }

  /** What the model is fitted on: target dates from the training start
      on, regressor rows inside the window, and every remaining column
      either complete or (when it had no present value in the window)
      entirely missing, and not sparse before filling. */
  lemma CleanedSpec(f: Frame, meta: map<string, string>, ln: real -> Option<real>, start: Date)
    requires WellFormed(f) && Cleaned(f, meta, ln, start).Ok?
    ensures var r := Cleaned(f, meta, ln, start).value;
      && (forall k :: 0 <= k < |r.targetDates| ==> r.targetDates[k] >= start)
      && (r.targetDates != [] ==> forall k :: 0 <= k < |r.index| ==>
            start <= r.index[k] <= Latest(r.targetDates).value)
      && (r.targetDates == [] ==> r.index == [])
      && (forall j :: 0 <= j < |r.regressors| ==>
            CountMissing(r.regressors[j].values) == 0
            || CountMissing(r.regressors[j].values) == |r.regressors[j].values|)
  {
    var cols := TransformRegressors(f.regressors, meta, ln).value;
    var f1 := f.(regressors := cols);
    assert WellFormed(f1) by {
      forall c | c in cols ensures |c.values| == |f.index| {
        var i :| 0 <= i < |cols| && cols[i] == c;
        TransformRegressorsSpec(f.regressors, meta, ln);
        assert f.regressors[i] in f.regressors;
      }
    }
    var f2 := RestrictToWindow(f1, start);
    WindowTargetSpec(f1, start);
    WindowRowsSpec(f1, start);
    var f3 := DropSparse(f2);
    DropSparseSpec(f2);
    FilledAllOrNothing(f3);
  }

  /** After filling, each column is complete or entirely missing. */
  lemma FilledAllOrNothing(f: Frame)
    requires WellFormed(f)
    ensures var r := FillAll(f);
      forall j :: 0 <= j < |r.regressors| ==>
        CountMissing(r.regressors[j].values) == 0
        || CountMissing(r.regressors[j].values) == |r.regressors[j].values|
  {
    FillAllSpec(f);
    var r := FillAll(f);
    forall j | 0 <= j < |r.regressors|
      ensures CountMissing(r.regressors[j].values) == 0
              || CountMissing(r.regressors[j].values) == |r.regressors[j].values|
    {
      var before := f.regressors[j].values;
      if CountMissing(before) == |before| {
        assert r.regressors[j].values == before;
      }
    }
  }

  // ---------------------------------------------------------------------
  // The script's variables, updated in place

  class Sample {
    var targetDates: seq<Date>
    var targetValues: seq<real>
    var index: seq<Date>
    var regressors: seq<NamedColumn>

    ghost predicate Valid()
      reads this
    {
      WellFormed(State())
    }

    function State(): Frame
      reads this
    {
      Frame(targetDates, targetValues, index, regressors)
    }

    /** Lines 66-69: `y` is the `pib` column without its NaN rows, `x` the
        other columns. */
    constructor (tableIndex: seq<Date>, pib: Column, others: seq<NamedColumn>)
      requires |pib| == |tableIndex| && Aligned(tableIndex, others)
      ensures Valid()
      ensures targetDates == Compress(tableIndex, PresentMask(pib))
      ensures targetValues == PresentValues(pib)
      ensures index == tableIndex && regressors == others
    {
      targetDates := Compress(tableIndex, PresentMask(pib));
      targetValues := PresentValues(pib);
      index := tableIndex;
      regressors := others;
    }

    /** Lines 72-73, the loop that rewrites the columns one at a time. On
        failure the columns before the failing one have been rewritten. */
    method TransformColumns(meta: map<string, string>, ln: real -> Option<real>) returns (outcome: Outcome)
      requires Valid()
      modifies this
      ensures Valid()
      ensures targetDates == old(targetDates) && targetValues == old(targetValues) && index == old(index)
      ensures var r := TransformRegressors(old(regressors), meta, ln);
        && (outcome.Pass? <==> r.Ok?)
        && (r.Err? ==> outcome == Fail(r.error))
        && (r.Ok? ==> regressors == r.value)
    {
      var names := Names(regressors);
      if CagedOld !in names {
        return Fail(MissingColumn(CagedOld));
      }
      if CagedNew !in names {
        return Fail(MissingColumn(CagedNew));
      }
      var cols := regressors;
      var i := 0;
      while i < |cols|
        invariant 0 <= i <= |cols| == |regressors|
        invariant unchanged(this)
        invariant forall j :: 0 <= j < i ==> TransformOne(regressors[j], meta, ln) == Ok(cols[j])
        invariant forall j :: i <= j < |cols| ==> cols[j] == regressors[j]
        invariant Aligned(index, cols)
      {
        var result := TransformOne(cols[i], meta, ln);
        if result.Err? {
          FirstFailure(regressors, meta, ln, i);
          regressors := cols;
          return Fail(result.error);
        }
        assert cols[i] in cols;
        AlignedUpdate(index, cols, i, result.value);
        cols := cols[i := result.value];
        i := i + 1;
      }
      AllSucceed(regressors, cols, meta, ln);
      regressors := cols;
      outcome := Pass;
    }

    /** Lines 76-78. */
    method RestrictToTrainingWindow(start: Date)
      requires Valid()
      modifies this
      ensures Valid()
      ensures State() == RestrictToWindow(old(State()), start)
    {
      var f := RestrictToWindow(State(), start);
      targetDates, targetValues, index, regressors := f.targetDates, f.targetValues, f.index, f.regressors;
    }

    /** Lines 81-84. */
    method DropSparseColumns()
      requires Valid()
      modifies this
      ensures Valid()
      ensures State() == DropSparse(old(State()))
    {
      var f := DropSparse(State());
      regressors := f.regressors;
    }

    /** Line 87: each column is back-filled, then forward-filled. */
    method FillMissing()
      requires Valid()
      modifies this
      ensures Valid()
      ensures State() == FillAll(old(State()))
    {
      var filled: seq<NamedColumn> := [];
      var i := 0;
      while i < |regressors|
        invariant 0 <= i <= |regressors|
        invariant unchanged(this)
        invariant filled == FillColumns(regressors[..i])
      {
        var b := BackFilled(regressors[i].values);
        var c := ForwardFilled(b);
        assert regressors[..i + 1][..i] == regressors[..i];
        filled := filled + [NamedColumn(regressors[i].name, c)];
        i := i + 1;
      }
      assert regressors[..i] == regressors;
      regressors := filled;
    }

    /** Lines 72-87 in order. */
    method Clean(meta: map<string, string>, ln: real -> Option<real>, start: Date) returns (outcome: Outcome)
      requires Valid()
      modifies this
      ensures Valid()
      ensures var r := Cleaned(old(State()), meta, ln, start);
        && (outcome.Pass? <==> r.Ok?)
        && (r.Err? ==> outcome == Fail(r.error))
        && (r.Ok? ==> State() == r.value)
    {
      outcome := TransformColumns(meta, ln);
      if outcome.Fail? {
        return;
      }
      RestrictToTrainingWindow(start);
      DropSparseColumns();
      FillMissing();
    }
  }
}
