/** `transformar`: the per-variable transformation selected by the metadata
    sheet's code, "1" to "6". */
module Transform {
  import opened Common

  /** The six transformations, in code order "1" to "6". */
  datatype Code = Level | Diff1 | Diff2 | Log | LogDiff1 | LogDiff2

  const ValidCodes: set<string> := {"1", "2", "3", "4", "5", "6"}

  /** The code the metadata sheet uses for each transformation. */
  function CodeText(c: Code): string
  {
    match c
    case Level => "1"
    case Diff1 => "2"
    case Diff2 => "3"
    case Log => "4"
    case LogDiff1 => "5"
    case LogDiff2 => "6"
  }

  /** The dictionary lookup `switch[tipo]`, with its `ValueError`. */
  function ParseCode(tipo: string): (r: Result<Code>)
    ensures r.Ok? <==> tipo in ValidCodes
    ensures r.Ok? ==> CodeText(r.value) == tipo
    ensures r.Err? ==> r.error == InvalidCode(tipo)
  {
    if tipo == "1" then Ok(Level)
    else if tipo == "2" then Ok(Diff1)
    else if tipo == "3" then Ok(Diff2)
    else if tipo == "4" then Ok(Log)
    else if tipo == "5" then Ok(LogDiff1)
    else if tipo == "6" then Ok(LogDiff2)
    else Err(InvalidCode(tipo))
  }

  /** Every transformation is reached by its own code, and by no other. */
  lemma ParseCodeText(c: Code)
    ensures ParseCode(CodeText(c)) == Ok(c)
  {
  }

  /** Subtraction of two cells; NaN if either operand is NaN. */
  function Minus(a: Option<real>, b: Option<real>): Option<real>
  {
    if a.Some? && b.Some? then Some(a.value - b.value) else None
  }

  /** `x.shift(1)`: every value moves one row down, the first row is NaN. */
  function Shift(x: Column): (r: Column)
    ensures |r| == |x|
  {
    if x == [] then [] else [None] + x[..|x| - 1]
  }

  /** `x.diff()`, which pandas computes as `x - x.shift(1)`. */
  function Diff(x: Column): (r: Column)
    ensures |r| == |x|
    ensures |x| > 0 ==> r[0] == None
    ensures forall i :: 1 <= i < |x| ==> r[i] == Minus(x[i], x[i - 1])
  {
    var s := Shift(x);
    seq(|x|, i requires 0 <= i < |x| => Minus(x[i], s[i]))
  }

  /** `np.log(x)` cell by cell. `ln` is the natural logarithm, `None` where
      its floating-point result is not a finite number (zero or negative
      arguments). A NaN cell stays NaN. */
  function LogOf(x: Column, ln: real -> Option<real>): (r: Column)
    ensures |r| == |x|
    ensures forall i :: 0 <= i < |x| ==> r[i] == if x[i].Some? then ln(x[i].value) else None
  {
    if x == [] then [] else [if x[0].Some? then ln(x[0].value) else None] + LogOf(x[1..], ln)
  }

  function Apply(c: Code, x: Column, ln: real -> Option<real>): (r: Column)
    ensures |r| == |x|
  {
    match c
    case Level => x
    case Diff1 => Diff(x)
    case Diff2 => Diff(Diff(x))
    case Log => LogOf(x, ln)
    case LogDiff1 => Diff(LogOf(x, ln))
    case LogDiff2 => Diff(Diff(LogOf(x, ln)))
  }

  /** `transformar(x, tipo)`. */
  function Transformar(x: Column, tipo: string, ln: real -> Option<real>): (r: Result<Column>)
    ensures r.Ok? <==> tipo in ValidCodes
    ensures r.Err? ==> r.error == InvalidCode(tipo)
    ensures r.Ok? ==> |r.value| == |x|
  {
    match ParseCode(tipo)
    case Err(e) => Err(e)
    case Ok(c) => Ok(Apply(c, x, ln))
  }

  /** Code "1" is the identity, code "2" the first difference, code "3"
      the difference applied twice. */
  lemma TransformarLevels(x: Column, ln: real -> Option<real>)
    ensures Transformar(x, "1", ln) == Ok(x)
    ensures Transformar(x, "2", ln) == Ok(Diff(x))
    ensures Transformar(x, "3", ln) == Ok(Diff(Diff(x)))
  {
  }

  /** Codes "4" to "6" are codes "1" to "3" applied to the logarithm. */
  lemma TransformarLogs(x: Column, ln: real -> Option<real>)
    ensures Transformar(x, "4", ln) == Transformar(LogOf(x, ln), "1", ln)
    ensures Transformar(x, "5", ln) == Transformar(LogOf(x, ln), "2", ln)
    ensures Transformar(x, "6", ln) == Transformar(LogOf(x, ln), "3", ln)
  {
  }

  /** The second difference (code "3") loses its first two rows; every
      later row is `x[i] - 2 x[i-1] + x[i-2]`, and NaN exactly when one of
      those three cells is NaN. */
  lemma SecondDifference(x: Column, ln: real -> Option<real>)
    ensures Transformar(x, "3", ln).Ok?
    ensures var r := Transformar(x, "3", ln).value;
      && |r| == |x|
      && (forall i :: 0 <= i < |x| && i < 2 ==> r[i] == None)
      && (forall i :: 2 <= i < |x| ==>
            r[i] == if x[i].Some? && x[i - 1].Some? && x[i - 2].Some?
                    then Some(x[i].value - 2.0 * x[i - 1].value + x[i - 2].value)
                    else None)
  {
    var d := Diff(x);
    var r := Diff(d);
    assert Transformar(x, "3", ln) == Ok(r);
    forall i | 2 <= i < |x|
      ensures r[i] == if x[i].Some? && x[i - 1].Some? && x[i - 2].Some?
                      then Some(x[i].value - 2.0 * x[i - 1].value + x[i - 2].value)
                      else None
    {
      assert r[i] == Minus(d[i], d[i - 1]);
      assert d[i] == Minus(x[i], x[i - 1]) && d[i - 1] == Minus(x[i - 1], x[i - 2]);
    }
    if |x| > 1 {
      assert r[1] == Minus(d[1], d[0]) && d[0] == None;
    }
  }

  /** Partner of the difference: the levels reached from `first` by
      adding each step in turn. */
  function Levels(first: real, steps: seq<real>): (r: seq<real>)
    ensures |r| == |steps| + 1 && r[0] == first
    decreases |steps|
  {
    if steps == [] then [first] else [first] + Levels(first + steps[0], steps[1..])
  }

  lemma {:induction false} LevelsOfSteps(x: seq<real>)
    requires |x| > 0
    ensures Levels(x[0], seq(|x| - 1, i requires 0 <= i < |x| - 1 => x[i + 1] - x[i])) == x
    decreases |x|
  {
    var steps := seq(|x| - 1, i requires 0 <= i < |x| - 1 => x[i + 1] - x[i]);
    if |x| > 1 {
      var x' := x[1..];
      LevelsOfSteps(x');
      assert steps[1..] == seq(|x'| - 1, i requires 0 <= i < |x'| - 1 => x'[i + 1] - x'[i]);
      assert x[0] + steps[0] == x'[0];
      assert x == [x[0]] + x';
    }
  }

  /** A column with no NaN. */
  function Present(x: seq<real>): (c: Column)
    ensures |c| == |x| && forall i :: 0 <= i < |x| ==> c[i] == Some(x[i])
  {
    seq(|x|, i requires 0 <= i < |x| => Some(x[i]))
  }

  /** The values of a column with no NaN. */
  function Values(c: Column): (v: seq<real>)
    requires forall i :: 0 <= i < |c| ==> c[i].Some?
    ensures |v| == |c| && forall i :: 0 <= i < |c| ==> c[i] == Some(v[i])
  {
    seq(|c|, i requires 0 <= i < |c| => c[i].value)
  }

  /** Differencing loses nothing but the first level: a column with no NaN
      is recovered from its first value and its differences. */
  lemma DiffLosesOnlyFirst(x: seq<real>)
    requires |x| > 0
    ensures forall i :: 1 <= i < |x| ==> Diff(Present(x))[i].Some?
    ensures Levels(x[0], Values(Diff(Present(x))[1..])) == x
  {
    var d := Diff(Present(x));
    forall i | 1 <= i < |x| ensures d[i] == Some(x[i] - x[i - 1]) {
      assert d[i] == Minus(Present(x)[i], Present(x)[i - 1]);
    }
    var steps := seq(|x| - 1, i requires 0 <= i < |x| - 1 => x[i + 1] - x[i]);
    assert d[1..] == Present(steps) by {
      forall i | 0 <= i < |x| - 1 ensures d[1..][i] == Present(steps)[i] {
        assert d[i + 1] == Some(x[i + 1] - x[i]);
      }
    }
    assert Values(d[1..]) == steps;
    LevelsOfSteps(x);
  }
}
