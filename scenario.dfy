/** Scenario for a regressor from its seasonal medians (the tables built for
    `uci_ind_fgv` and `prod_ind_metalurgia`): group the regressor's history
    by quarter of the year, take each group's median, and give every date of
    the forecast period the median of its quarter. */
module Scenario {
  import opened Common
  import opened Calendar
  import opened Statistics

  /** One row of a scenario table. `None` when no history exists for the
      date's quarter (the outer join leaves NaN there). */
  datatype ScenarioRow = ScenarioRow(date: Date, value: Option<real>)

  /** Rows of the history that feed the median of quarter `q`:
      `.dropna()`, `.query("index >= @inicio_treino")`, then the group of `q`. */
  function GroupMask(index: seq<Date>, col: Column, start: Date, q: int): (m: seq<bool>)
    requires |index| == |col|
    ensures |m| == |index|
    ensures forall i :: 0 <= i < |m| ==>
      (m[i] <==> col[i].Some? && index[i] >= start && QuarterOf(index[i]) == q)
  {
    seq(|index|, i requires 0 <= i < |index| => col[i].Some? && index[i] >= start && QuarterOf(index[i]) == q)
  }

  /** The values of the group of quarter `q`, in index order. */
  function QuarterGroup(index: seq<Date>, col: Column, start: Date, q: int): (g: seq<real>)
    requires |index| == |col|
  {
    var m := GroupMask(index, col, start, q);
    var kept := Compress(col, m);
    assert forall k :: 0 <= k < |kept| ==> kept[k].Some?;
    seq(|kept|, k requires 0 <= k < |kept| => kept[k].value)
  }

  /** `groupby("trim").median()` for one quarter. */
  function QuarterMedian(index: seq<Date>, col: Column, start: Date, q: int): Option<real>
    requires |index| == |col|
  {
    var g := QuarterGroup(index, col, start, q);
    if |g| == 0 then None else Some(Median(g))
  }

  /** Some history, on or after `start`, falls in quarter `q`. */
  predicate QuarterObserved(index: seq<Date>, col: Column, start: Date, q: int)
    requires |index| == |col|
  {
    exists i :: 0 <= i < |index| && col[i].Some? && index[i] >= start && QuarterOf(index[i]) == q
  }

  /** The scenario table: the outer join of the medians with the forecast
      period on the quarter, sorted by date. */
  function SeasonalScenario(index: seq<Date>, col: Column, start: Date, period: seq<Date>): (r: seq<ScenarioRow>)
    requires |index| == |col|
    ensures |r| == |period|
  {
    seq(|period|, k requires 0 <= k < |period| =>
      ScenarioRow(period[k], QuarterMedian(index, col, start, QuarterOf(period[k]))))
  }

  /** A value belongs to the group of quarter `q` exactly when some row of
      the history carries it, is dated on or after `start`, and falls in
      quarter `q`. */
  lemma QuarterGroupMembers(index: seq<Date>, col: Column, start: Date, q: int, v: real)
    requires |index| == |col|
    ensures v in QuarterGroup(index, col, start, q) <==>
      exists i :: 0 <= i < |index| && col[i] == Some(v) && index[i] >= start && QuarterOf(index[i]) == q
  {
    var m := GroupMask(index, col, start, q);
    var kept := Compress(col, m);
    var g := QuarterGroup(index, col, start, q);
    CompressMembers(col, m);
    if v in g {
      var k :| 0 <= k < |g| && g[k] == v;
      assert kept[k] == Some(v);
      assert Some(v) in kept;
    }
    if i :| 0 <= i < |index| && col[i] == Some(v) && index[i] >= start && QuarterOf(index[i]) == q {
      assert m[i];
      assert Some(v) in kept;
      var k :| 0 <= k < |kept| && kept[k] == Some(v);
      assert g[k] == v;
    }
  }

  /** Each forecast date gets the median of its quarter's history: no value
      when that history is empty; otherwise a value with at most half of the
      group strictly below it and at most half strictly above, lying between
      two of the group's values. */
  lemma ScenarioIsQuarterMedian(index: seq<Date>, col: Column, start: Date, period: seq<Date>, k: nat)
    requires |index| == |col| && k < |period|
    ensures var r := SeasonalScenario(index, col, start, period);
      var g := QuarterGroup(index, col, start, QuarterOf(period[k]));
      && r[k].date == period[k]
      && (r[k].value.None? <==> |g| == 0)
      && (r[k].value.Some? ==>
            && CountBelow(g, r[k].value.value) <= |g| / 2
            && CountAbove(g, r[k].value.value) <= |g| / 2
            && (exists i :: 0 <= i < |g| && g[i] <= r[k].value.value)
            && (exists j :: 0 <= j < |g| && r[k].value.value <= g[j]))
  {
    var g := QuarterGroup(index, col, start, QuarterOf(period[k]));
    if |g| > 0 {
      MedianSplitsInHalves(g);
      MedianWithinRange(g);
    }
  }

  /** The scenario's rows are ordered by date; built on the forecast period
      of a quarter start, they are the next `h` quarter starts. */
  lemma ScenarioOrdered(index: seq<Date>, col: Column, start: Date, last: Date, h: nat)
    requires |index| == |col| && IsQuarterStart(last)
    ensures var r := SeasonalScenario(index, col, start, ForecastPeriod(last, h));
      && |r| == h
      && (forall k :: 0 <= k < |r| ==> r[k].date == last + 3 * (k + 1))
      && (forall k, l :: 0 <= k < l < |r| ==> r[k].date < r[l].date)
  {
    ForecastPeriodIsNextQuarters(last, h);
  }

  /** A quarter whose history, from `start` on, holds the one value `v`
      has `v` as its median. */
  lemma QuarterMedianOfConstant(index: seq<Date>, col: Column, start: Date, q: int, v: real)
    requires |index| == |col| && QuarterObserved(index, col, start, q)
    requires forall i :: 0 <= i < |index| && col[i].Some? && index[i] >= start && QuarterOf(index[i]) == q ==>
      col[i].value == v
    ensures QuarterMedian(index, col, start, q) == Some(v)
  {
    var g := QuarterGroup(index, col, start, q);
    var i :| 0 <= i < |index| && col[i].Some? && index[i] >= start && QuarterOf(index[i]) == q;
    QuarterGroupMembers(index, col, start, q, col[i].value);
    forall j | 0 <= j < |g| ensures g[j] == v {
      QuarterGroupMembers(index, col, start, q, g[j]);
    }
    MedianOfConstant(g, v);
  }

  /** A history that repeats the same value in every year for a given
      quarter reproduces it: with, say, 10, 12, 9 and 11 in the first to
      fourth quarters, a four-quarter forecast period receives 10, 12, 9
      and 11 in its quarters' order. */
  lemma ScenarioRepeatsSeasonalPattern(index: seq<Date>, col: Column, start: Date,
                                       period: seq<Date>, pattern: seq<real>)
    requires |index| == |col| && |pattern| == 4
    requires forall i :: 0 <= i < |index| && col[i].Some? && index[i] >= start ==>
      col[i].value == pattern[QuarterOf(index[i]) - 1]
    requires forall q :: 1 <= q <= 4 ==> QuarterObserved(index, col, start, q)
    ensures forall k :: 0 <= k < |period| ==>
      SeasonalScenario(index, col, start, period)[k].value == Some(pattern[QuarterOf(period[k]) - 1])
  {
    forall k | 0 <= k < |period|
      ensures SeasonalScenario(index, col, start, period)[k].value == Some(pattern[QuarterOf(period[k]) - 1])
    {
      var q := QuarterOf(period[k]);
      QuarterMedianOfConstant(index, col, start, q, pattern[q - 1]);
    }
  }
}
