/** Values shared by the whole forecasting pipeline: missing values, the
    errors that abort a run, the column of a table, and positional selection
    of rows (pandas' boolean masks). */
module Common {

  /** A table cell: `None` is pandas' NaN. */
  datatype Option<+T> = None | Some(value: T)

  /** The exceptions that abort the script. */
  datatype Error =
    | InvalidCode(code: string)         // ValueError("Tipo inválido") raised by transformar
    | MissingColumn(name: string)       // KeyError raised by DataFrame.drop
    | MissingMetadata(name: string)     // KeyError raised by metadados.loc
    | BadReference(text: string)        // a reference period that PeriodIndex cannot parse
    | NoVintage                         // IndexError raised by `.to_list()[0]` on an empty list

  datatype Result<+T> = Ok(value: T) | Err(error: Error)

  datatype Outcome = Pass | Fail(error: Error)

  /** A numeric column of a table, in index order. */
  type Column = seq<Option<real>>

  /** A column of the regressor table together with its label. */
  datatype NamedColumn = NamedColumn(name: string, values: Column)

  function Names(cols: seq<NamedColumn>): (r: seq<string>)
    ensures |r| == |cols|
    ensures forall i :: 0 <= i < |cols| ==> r[i] == cols[i].name
  {
    if cols == [] then [] else [cols[0].name] + Names(cols[1..])
  }

  predicate StrictlyIncreasing(s: seq<int>)
  {
    forall i, j :: 0 <= i < j < |s| ==> s[i] < s[j]
  }

  /** The positions at which a boolean mask is true, in increasing order. */
  function Positions(m: seq<bool>): (p: seq<nat>)
    ensures |p| <= |m|
    ensures forall k :: 0 <= k < |p| ==> p[k] < |m| && m[p[k]]
    ensures forall k, l :: 0 <= k < l < |p| ==> p[k] < p[l]
    ensures forall i :: 0 <= i < |m| && m[i] ==> i in p
    decreases |m|
  {
    if m == [] then []
    else
      var rest := Positions(m[..|m| - 1]);
      if m[|m| - 1] then rest + [|m| - 1] else rest
  }

  /** A mask with nothing marked selects nothing. */
  lemma {:induction false} NothingMarked(m: seq<bool>)
    requires forall i :: 0 <= i < |m| ==> !m[i]
    ensures Positions(m) == []
    decreases |m|
  {
    if m != [] {
      NothingMarked(m[..|m| - 1]);
    }
  }

  /** `s[mask]` in pandas: the elements of `s` at which `m` is true, in order. */
  function Compress<T>(s: seq<T>, m: seq<bool>): (r: seq<T>)
    requires |s| == |m|
    ensures |r| == |Positions(m)|
    ensures forall k :: 0 <= k < |r| ==> r[k] == s[Positions(m)[k]]
  {
    var p := Positions(m);
    seq(|p|, k requires 0 <= k < |p| => s[p[k]])
  }

  /** Selection by a mask keeps exactly the marked elements: every result
      element is a marked element of the input, and every marked element
      is in the result. */
  lemma CompressMembers<T>(s: seq<T>, m: seq<bool>)
    requires |s| == |m|
    ensures forall x :: x in Compress(s, m) ==> exists i :: 0 <= i < |s| && m[i] && s[i] == x
    ensures forall i :: 0 <= i < |s| && m[i] ==> s[i] in Compress(s, m)
  {
    var r, p := Compress(s, m), Positions(m);
    forall x | x in r
      ensures exists i :: 0 <= i < |s| && m[i] && s[i] == x
    {
      var k :| 0 <= k < |r| && r[k] == x;
      assert m[p[k]] && s[p[k]] == x;
    }
    forall i | 0 <= i < |s| && m[i]
      ensures s[i] in r
    {
      var k :| 0 <= k < |p| && p[k] == i;
      assert r[k] == s[i];
    }
  }

  /** Selection keeps order: a strictly increasing sequence stays so. */
  lemma CompressIncreasing(s: seq<int>, m: seq<bool>)
    requires |s| == |m| && StrictlyIncreasing(s)
    ensures StrictlyIncreasing(Compress(s, m))
  {
    var r, p := Compress(s, m), Positions(m);
    forall i, j | 0 <= i < j < |r|
      ensures r[i] < r[j]
    {
      assert p[i] < p[j];
    }
  }
}
