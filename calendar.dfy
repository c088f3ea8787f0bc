/** Dates of the pipeline and the forecast period.

    The dates of the table index, of the forecast period and of the survey's
    reference quarters are all first days of months, so such a date is
    modelled as a month number: `year * 12 + (month - 1)`. (The survey date
    itself is an arbitrary day and is kept apart, as a plain day number.) Quarter starts
    (pandas' "QS" frequency) are the month numbers divisible by 3. */
module Calendar {

  type Date = int

  function MonthStart(year: int, month: int): (d: Date)
    requires 1 <= month <= 12
    ensures d / 12 == year && d % 12 == month - 1
  {
    year * 12 + month - 1
  }

  /** Quarter of the year, 1 to 4 (pandas' `.quarter`). */
  function QuarterOf(d: Date): (q: int)
    ensures 1 <= q <= 4
    ensures MonthStart(d / 12, 3 * q - 2) <= d < MonthStart(d / 12, 3 * q - 2) + 3
  {
    d % 12 / 3 + 1
  }

  predicate IsQuarterStart(d: Date)
  {
    d % 3 == 0
  }

  /** Forecast horizon `h`: number of quarters forecast. */
  const Horizon: nat := 4

  /** `inicio_treino`: first date of the training sample, 1997-10-01. */
  const TrainingStart: Date := MonthStart(1997, 10)

  /** `date + pd.offsets.QuarterBegin(n)` for n >= 1. The offset's default
      anchor months are March, June, September and December (month numbers
      with remainder 2 modulo 3); it rolls forward to the n-th anchor strictly
      after the date. */
  function QuarterBeginForward(d: Date, n: nat): (r: Date)
    requires n >= 1
    ensures r % 3 == 2
    ensures r - 3 * n <= d < r - 3 * (n - 1)
  {
    var next := if d % 3 == 2 then d + 3 else d + (2 - d % 3);
    next + 3 * (n - 1)
  }

  /** `pd.date_range(start, end, freq = "QS")`: the quarter starts in
      [start, end], in increasing order. */
  function QuarterStartsBetween(start: Date, end: Date): (r: seq<Date>)
    ensures forall i :: 0 <= i < |r| ==> IsQuarterStart(r[i]) && start <= r[i] <= end
    ensures forall i :: 0 <= i < |r| ==> r[i] == r[0] + 3 * i
    decreases end - start
  {
    if start > end then []
    else if IsQuarterStart(start) then [start] + QuarterStartsBetween(start + 3, end)
    else QuarterStartsBetween(start + 1, end)
  }

  /** The range misses no quarter start between its bounds. */
  lemma {:induction false} QuarterStartsComplete(start: Date, end: Date, d: Date)
    requires start <= d <= end && IsQuarterStart(d)
    ensures d in QuarterStartsBetween(start, end)
    decreases end - start
  {
    if start < d {
      QuarterStartsComplete(if IsQuarterStart(start) then start + 3 else start + 1, end, d);
    }
  }

  /** `periodo_previsao`, built from the last target date `last`. */
  function ForecastPeriod(last: Date, h: nat): seq<Date>
  {
    QuarterStartsBetween(QuarterBeginForward(last, 1), QuarterBeginForward(last, h + 1))
  }

  /** From a quarter start, the range covers exactly the next `k` quarter
      starts when it ends one month before the (k+1)-th. */
  lemma {:induction false} QuarterStartsAhead(a: Date, k: nat)
    requires IsQuarterStart(a)
    ensures QuarterStartsBetween(a, a + 3 * k - 1) == seq(k, i => a + 3 * i)
    decreases k
  {
    var end := a + 3 * k - 1;
    if k > 0 {
      var next := a + 3;
      assert IsQuarterStart(next);
      assert end == next + 3 * (k - 1) - 1;
      var rest := QuarterStartsBetween(next, end);
      assert QuarterStartsBetween(a, end) == [a] + rest;
      QuarterStartsAhead(next, k - 1);
      var want := seq(k, i => a + 3 * i);
      forall i | 0 <= i < k ensures ([a] + rest)[i] == want[i] {
        if i > 0 {
          assert rest[i - 1] == next + 3 * (i - 1);
        }
      }
    }
  }

  /** Although the offset is anchored on March/June/September/December, the
      forecast period built from a quarter start is exactly the next `h`
      quarter starts, so it has `h` dates. */
  lemma ForecastPeriodIsNextQuarters(last: Date, h: nat)
    requires IsQuarterStart(last)
    ensures ForecastPeriod(last, h) == seq(h, i => last + 3 * (i + 1))
    ensures |ForecastPeriod(last, h)| == h
  {
    var end := last + 3 * h + 2;
    assert QuarterBeginForward(last, 1) == last + 2;
    assert QuarterBeginForward(last, h + 1) == end;
    assert !IsQuarterStart(last + 2) && IsQuarterStart(last + 3);
    assert QuarterStartsBetween(last + 2, end) == QuarterStartsBetween(last + 3, end);
    assert end == (last + 3) + 3 * h - 1;
    QuarterStartsAhead(last + 3, h);
    var got, want := seq(h, i => (last + 3) + 3 * i), seq(h, i => last + 3 * (i + 1));
    forall i | 0 <= i < h ensures got[i] == want[i] {
    }
    assert got == want;
  }
}
