/** `x.bfill().ffill()`: gap filling of a column from its neighbours.

    `BFill` and `FFill` state pandas' row-by-row propagation; the methods
    `BackFilled` and `ForwardFilled` carry it out with a loop over an array
    and are proved equal to them; `FirstPresent` and `LastPresent` give the
    independent description (the nearest present value below or above). */
module Fill {
  import opened Common

  /** The first present value of `s`, if any. */
  function FirstPresent(s: Column): (r: Option<real>)
    ensures r.Some? <==> exists i :: 0 <= i < |s| && s[i].Some?
    ensures r.Some? ==> exists i :: 0 <= i < |s| && s[i] == r && forall j :: 0 <= j < i ==> s[j].None?
  {
    if s == [] then None
    else if s[0].Some? then s[0]
    else
      var r := FirstPresent(s[1..]);
      assert forall i :: 1 <= i < |s| ==> s[i] == s[1..][i - 1];
      r
  }

  /** Position `i` holds the last present value of `s`. */
  predicate IsLastPresent(s: Column, i: int)
  {
    0 <= i < |s| && s[i].Some? && forall j :: i < j < |s| ==> s[j].None?
  }

  /** The last present value of `s`, if any. */
  function LastPresent(s: Column): (r: Option<real>)
    ensures r.Some? <==> exists i :: 0 <= i < |s| && s[i].Some?
    ensures r.Some? ==> exists i :: IsLastPresent(s, i) && s[i] == r
  {
    if s == [] then None
    else if s[|s| - 1].Some? then
      assert IsLastPresent(s, |s| - 1);
      s[|s| - 1]
    else
      var init := s[..|s| - 1];
      var r := LastPresent(init);
      assert forall i :: 0 <= i < |init| ==> s[i] == init[i];
      assert forall i :: IsLastPresent(init, i) ==> IsLastPresent(s, i);
      r
  }

  /** `bfill`: walking up from the bottom row, a NaN takes the value just
      below it. */
  function BFill(s: Column): (r: Column)
    ensures |r| == |s|
  {
    if s == [] then []
    else
      var rest := BFill(s[1..]);
      [if s[0].Some? || rest == [] then s[0] else rest[0]] + rest
  }

  /** `ffill`: walking down from the top row, a NaN takes the value just
      above it. */
  function FFill(s: Column): (r: Column)
    ensures |r| == |s|
  {
    if s == [] then []
    else
      var init := FFill(s[..|s| - 1]);
      init + [if s[|s| - 1].Some? || init == [] then s[|s| - 1] else init[|init| - 1]]
  }

  /** `bfill().ffill()` on one column. */
  function FillGaps(s: Column): (r: Column)
    ensures |r| == |s|
  {
    FFill(BFill(s))
  }

  lemma {:induction false} BFillAt(s: Column, i: nat)
    requires i < |s|
    ensures BFill(s)[i] == FirstPresent(s[i..])
    decreases |s|
  {
    var rest := BFill(s[1..]);
    if i > 0 {
      BFillAt(s[1..], i - 1);
      assert s[1..][i - 1..] == s[i..];
    } else if s[0].None? && rest != [] {
      BFillAt(s[1..], 0);
      assert s[1..][0..] == s[1..] == s[0..][1..];
    }
  }

  /** The last row after `ffill` is the column's last present value. */
  lemma {:induction false} FFillLast(s: Column)
    requires |s| > 0
    ensures FFill(s)[|s| - 1] == LastPresent(s)
    decreases |s|
  {
    var n := |s| - 1;
    var init := FFill(s[..n]);
    assert FFill(s)[n] == if s[n].Some? || init == [] then s[n] else init[|init| - 1];
    if s[n].None? {
      if n == 0 {
        assert LastPresent(s) == LastPresent(s[..0]);
      } else {
        FFillLast(s[..n]);
      }
    }
  }

  lemma {:induction false} FFillAt(s: Column, i: nat)
    requires i < |s|
    ensures FFill(s)[i] == LastPresent(s[..i + 1])
    decreases |s|
  {
    var n := |s| - 1;
    if i < n {
      FFillAt(s[..n], i);
      assert s[..n][..i + 1] == s[..i + 1];
      assert FFill(s)[i] == FFill(s[..n])[i];
    } else {
      assert s[..i + 1] == s;
      FFillLast(s);
    }
  }

  /** Once a column is back-filled, the last present value above a row
      with nothing present at or below it is the original's. */
  lemma {:induction false} LastPresentOfBFill(s: Column, i: nat)
    requires i < |s| && FirstPresent(s[i..]).None?
    ensures LastPresent(BFill(s)[..i + 1]) == LastPresent(s[..i + 1])
    decreases i
  {
    var b := BFill(s);
    BFillAt(s, i);
    assert s[i..][0] == s[i];
    assert b[..i + 1][..i] == b[..i] && s[..i + 1][..i] == s[..i];
    if i > 0 {
      assert s[i - 1..][1..] == s[i..];
      if s[i - 1].None? {
        LastPresentOfBFill(s, i - 1);
        assert b[..i] == b[..i - 1 + 1] && s[..i] == s[..i - 1 + 1];
      } else {
        BFillAt(s, i - 1);
        assert b[..i][i - 1] == b[i - 1] && s[..i][i - 1] == s[i - 1];
      }
    }
  }

  /** Each row after filling: the next present value at or below it, or,
      when there is none, the last present value above it. */
  lemma FillGapsAt(s: Column, i: nat)
    requires i < |s|
    ensures FillGaps(s)[i] ==
      if FirstPresent(s[i..]).Some? then FirstPresent(s[i..]) else LastPresent(s[..i + 1])
  {
    var b := BFill(s);
    FFillAt(b, i);
    BFillAt(s, i);
    if FirstPresent(s[i..]).Some? {
      assert b[..i + 1][i] == b[i];
    } else {
      LastPresentOfBFill(s, i);
    }
  }

  /** Present values are never overwritten. */
  lemma FillGapsKeepsPresent(s: Column, i: nat)
    requires i < |s| && s[i].Some?
    ensures FillGaps(s)[i] == s[i]
  {
    FillGapsAt(s, i);
    assert s[i..][0] == s[i];
  }

  /** A column with at least one present value has no NaN left; a column
      with none is left as it was. */
  lemma FillGapsComplete(s: Column)
    ensures (exists j :: 0 <= j < |s| && s[j].Some?) ==> forall i :: 0 <= i < |s| ==> FillGaps(s)[i].Some?
    ensures (forall j :: 0 <= j < |s| ==> s[j].None?) ==> FillGaps(s) == s
  {
    forall i | 0 <= i < |s|
      ensures (exists j :: 0 <= j < |s| && s[j].Some?) ==> FillGaps(s)[i].Some?
      ensures (forall j :: 0 <= j < |s| ==> s[j].None?) ==> FillGaps(s)[i] == s[i]
    {
      FillGapsAt(s, i);
      if j :| 0 <= j < |s| && s[j].Some? {
        if j >= i {
          assert s[i..][j - i].Some?;
        } else {
          assert s[..i + 1][j].Some?;
        }
      }
      if forall j :: 0 <= j < |s| ==> s[j].None? {
        var p := s[..i + 1];
        assert forall j :: 0 <= j < |p| ==> p[j].None?;
      }
    }
  }

  /** Filling twice changes nothing more. */
  lemma FillGapsIdempotent(s: Column)
    ensures FillGaps(FillGaps(s)) == FillGaps(s)
  {
    var f := FillGaps(s);
    FillGapsComplete(s);
    FillGapsComplete(f);
    if exists j :: 0 <= j < |s| && s[j].Some? {
      forall i | 0 <= i < |f| ensures FillGaps(f)[i] == f[i] {
        FillGapsKeepsPresent(f, i);
      }
    }
  }

  /** `bfill`, as pandas runs it: one pass from the bottom row up, carrying
      the last value seen. */
  method BackFilled(s: Column) returns (r: Column)
    ensures r == BFill(s)
  {
    var a := new Option<real>[|s|](i requires 0 <= i < |s| => s[i]);
    var next: Option<real> := None;
    var i := |s|;
    while i > 0
      invariant 0 <= i <= |s|
      invariant a[..i] == s[..i]
      invariant a[i..] == BFill(s[i..])
      invariant i < |s| ==> next == a[i]
      invariant i == |s| ==> next == None
    {
      i := i - 1;
      assert s[i..][1..] == s[i + 1..];
      if a[i].Some? {
        next := a[i];
      } else {
        a[i] := next;
        next := a[i];
      }
      assert a[i + 1..] == BFill(s[i + 1..]);
    }
    r := a[..];
    assert a[0..] == a[..] && s[0..] == s;
  }

  /** `ffill`: one pass from the top row down. */
  method ForwardFilled(s: Column) returns (r: Column)
    ensures r == FFill(s)
  {
    var a := new Option<real>[|s|](i requires 0 <= i < |s| => s[i]);
    var last: Option<real> := None;
    var i := 0;
    while i < |s|
      invariant 0 <= i <= |s|
      invariant a[i..] == s[i..]
      invariant a[..i] == FFill(s[..i])
      invariant i > 0 ==> last == a[i - 1]
      invariant i == 0 ==> last == None
    {
      assert s[..i + 1][..i] == s[..i];
      if a[i].Some? {
        last := a[i];
      } else {
        a[i] := last;
      }
      assert a[..i] == FFill(s[..i]);
      i := i + 1;
    }
    r := a[..];
    assert a[..|s|] == a[..] && s[..|s|] == s;
  }
}
