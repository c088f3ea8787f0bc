/** The market-expectations survey (Focus report of the central bank) used
    for the `expec_pib` scenario: reference labels "q/yyyy" are rewritten to
    "yyyy-Qq" and parsed as quarters, the latest survey date covering the
    forecast quarters is chosen, and its medians form the scenario. */
module Focus {
  import opened Common
  import opened Calendar

  predicate IsDigit(c: char)
  {
    '0' <= c <= '9'
  }

  function DigitValue(c: char): (v: nat)
    requires IsDigit(c)
    ensures v <= 9
  {
    (c as int) - ('0' as int)
  }

  function DigitChar(v: nat): (c: char)
    requires v <= 9
    ensures IsDigit(c) && DigitValue(c) == v
  {
    (('0' as int) + v) as char
  }

  /** The pattern `(\d{1})/(\d{4})` matches at the start of `s`. */
  predicate MatchesAtStart(s: string)
  {
    |s| >= 6 && IsDigit(s[0]) && s[1] == '/' && IsDigit(s[2]) && IsDigit(s[3]) && IsDigit(s[4]) && IsDigit(s[5])
  }

  /** `s.replace(r"(\d{1})/(\d{4})", r"\2-Q\1", regex = True)`: every
      non-overlapping match, leftmost first, becomes "yyyy-Qq"; the other
      characters are copied. */
  function RewriteReference(s: string): (r: string)
    decreases |s|
  {
    if MatchesAtStart(s) then s[2..6] + "-Q" + [s[0]] + RewriteReference(s[6..])
    else if s == [] then []
    else [s[0]] + RewriteReference(s[1..])
  }

  /** A string the pattern does not match anywhere is left as it is. */
  lemma {:induction false} RewriteWithoutMatch(s: string)
    requires forall i :: 0 <= i <= |s| ==> !MatchesAtStart(s[i..])
    ensures RewriteReference(s) == s
    decreases |s|
  {
    if s != [] {
      assert !MatchesAtStart(s[0..]) && s[0..] == s;
      forall i | 0 <= i <= |s[1..]| ensures !MatchesAtStart(s[1..][i..]) {
        assert s[1..][i..] == s[i + 1..];
      }
      RewriteWithoutMatch(s[1..]);
    }
  }

  /** Value of four decimal digits. */
  function FourDigitValue(s: string): (v: nat)
    requires |s| == 4 && IsDigit(s[0]) && IsDigit(s[1]) && IsDigit(s[2]) && IsDigit(s[3])
    ensures v <= 9999
  {
    1000 * DigitValue(s[0]) + 100 * DigitValue(s[1]) + 10 * DigitValue(s[2]) + DigitValue(s[3])
  }

  /** A year in four digits, with leading zeros. */
  function FourDigits(n: nat): (s: string)
    requires n <= 9999
    ensures |s| == 4 && IsDigit(s[0]) && IsDigit(s[1]) && IsDigit(s[2]) && IsDigit(s[3])
    ensures FourDigitValue(s) == n
  {
    var hundreds := n % 1000;
    var tens := hundreds % 100;
    [DigitChar(n / 1000), DigitChar(hundreds / 100), DigitChar(tens / 10), DigitChar(tens % 10)]
  }

  lemma FourDigitsOfValue(s: string)
    requires |s| == 4 && IsDigit(s[0]) && IsDigit(s[1]) && IsDigit(s[2]) && IsDigit(s[3])
    ensures FourDigits(FourDigitValue(s)) == s
  {
    var a, b, c, d := DigitValue(s[0]), DigitValue(s[1]), DigitValue(s[2]), DigitValue(s[3]);
    var n := FourDigitValue(s);
    var tens := 10 * c + d;
    var hundreds := 100 * b + tens;
    assert n == 1000 * a + hundreds && 0 <= hundreds < 1000;
    assert n / 1000 == a && n % 1000 == hundreds;
    assert hundreds / 100 == b && hundreds % 100 == tens;
    assert tens / 10 == c && tens % 10 == d;
    assert DigitChar(a) == s[0] && DigitChar(b) == s[1] && DigitChar(c) == s[2] && DigitChar(d) == s[3];
  }

  /** `pd.PeriodIndex(..., freq = "Q").to_timestamp()` on a quarter written
      "yyyy-Qq": the first month of that quarter. */
  function ParsePeriod(s: string): (r: Result<Date>)
    ensures r.Ok? ==> IsQuarterStart(r.value) && 0 <= r.value < 12 * 10000
    ensures r.Err? ==> r.error == BadReference(s)
  {
    if |s| == 7 && IsDigit(s[0]) && IsDigit(s[1]) && IsDigit(s[2]) && IsDigit(s[3])
       && s[4] == '-' && s[5] == 'Q' && '1' <= s[6] <= '4'
    then Ok(MonthStart(FourDigitValue(s[..4]), 3 * DigitValue(s[6]) - 2))
    else Err(BadReference(s))
  }

  /** The date a survey's reference label stands for. */
  function ReferenceDate(text: string): Result<Date>
  {
    ParsePeriod(RewriteReference(text))
  }

  /** How the survey feed writes a quarter: "q/yyyy". */
  function FeedLabel(d: Date): (s: string)
    requires IsQuarterStart(d) && 0 <= d < 12 * 10000
    ensures |s| == 6 && MatchesAtStart(s)
  {
    [DigitChar(QuarterOf(d))] + "/" + FourDigits(d / 12)
  }

  /** Rewriting then parsing reads back the quarter the feed wrote. */
  lemma ReferenceRoundTrip(d: Date)
    requires IsQuarterStart(d) && 0 <= d < 12 * 10000
    ensures RewriteReference(FeedLabel(d)) == FourDigits(d / 12) + "-Q" + [DigitChar(QuarterOf(d))]
    ensures ReferenceDate(FeedLabel(d)) == Ok(d)
  {
    var s := FeedLabel(d);
    var t := FourDigits(d / 12) + "-Q" + [DigitChar(QuarterOf(d))];
    assert s[6..] == [];
    assert s[2..6] == FourDigits(d / 12);
    assert RewriteReference(s) == t;
    assert t[..4] == FourDigits(d / 12);
  }

  /** A six-character label is read as a quarter only when it is written
      "q/yyyy" with q from 1 to 4, and then it is that quarter's feed label:
      distinct labels never name the same quarter. */
  lemma ReferenceLabelsUnique(text: string)
    requires |text| == 6 && ReferenceDate(text).Ok?
    ensures MatchesAtStart(text) && '1' <= text[0] <= '4'
    ensures FeedLabel(ReferenceDate(text).value) == text
  {
    if !MatchesAtStart(text) {
      var rest := text[1..];
      assert RewriteReference(text) == [text[0]] + RewriteReference(rest);
      forall i | 0 <= i <= |rest| ensures !MatchesAtStart(rest[i..]) {
        assert |rest[i..]| < 6;
      }
      RewriteWithoutMatch(rest);
      assert false;
    }
    var t := RewriteReference(text);
    assert text[6..] == [];
    assert t == text[2..6] + "-Q" + [text[0]];
    assert t[..4] == text[2..6];
    var d := ReferenceDate(text).value;
    FourDigitsOfValue(text[2..6]);
    assert d / 12 == FourDigitValue(text[2..6]);
    assert QuarterOf(d) == DigitValue(text[0]);
    assert FeedLabel(d) == [text[0]] + "/" + text[2..6];
  }

  /** A row of the survey feed: survey date (`Data`, a day number), the
      reference quarter as written (`DataReferencia`) and the median
      expectation (`Mediana`). */
  datatype SurveyRow = SurveyRow(day: int, reference: string, median: Option<real>)

  /** A row once its reference has been parsed. */
  datatype Expectation = Expectation(day: int, reference: Date, median: Option<real>)

  /** The `.assign(DataReferencia = ...)` step: every label is parsed, and
      one bad label aborts the whole run. */
  function ParseSurvey(rows: seq<SurveyRow>): (r: Result<seq<Expectation>>)
    ensures r.Ok? <==> forall i :: 0 <= i < |rows| ==> ReferenceDate(rows[i].reference).Ok?
    ensures r.Ok? ==> |r.value| == |rows| && forall i :: 0 <= i < |rows| ==>
      r.value[i] == Expectation(rows[i].day, ReferenceDate(rows[i].reference).value, rows[i].median)
    ensures r.Err? ==> exists i :: 0 <= i < |rows| && ReferenceDate(rows[i].reference) == Err(r.error)
  {
    if rows == [] then Ok([])
    else
      match ReferenceDate(rows[0].reference)
      case Err(e) => Err(e)
      case Ok(d) =>
        match ParseSurvey(rows[1..])
        case Err(e) =>
          assert forall i :: 1 <= i < |rows| ==> rows[1..][i - 1] == rows[i];
          Err(e)
        case Ok(rest) =>
          assert forall i :: 1 <= i < |rows| ==> rows[1..][i - 1] == rows[i];
          Ok([Expectation(rows[0].day, d, rows[0].median)] + rest)
  }

  /** The `.query` keeping rows about a forecast quarter or the last
      observed quarter. */
  predicate Relevant(e: Expectation, period: seq<Date>, last: Date)
  {
    e.reference in period || e.reference == last
  }

  /** `.Data.value_counts()` for one survey date: the number of relevant
      rows of that date. */
  function Coverage(rows: seq<Expectation>, day: int, period: seq<Date>, last: Date): (n: nat)
    ensures n == |set i | 0 <= i < |rows| && rows[i].day == day && Relevant(rows[i], period, last)|
    ensures n > 0 <==> exists i :: 0 <= i < |rows| && rows[i].day == day && Relevant(rows[i], period, last)
  {
    if rows == [] then 0
    else
      var init := rows[..|rows| - 1];
      var k := |rows| - 1;
      assert forall i :: 0 <= i < k ==> init[i] == rows[i];
      var here := rows[k].day == day && Relevant(rows[k], period, last);
      assert (set i | 0 <= i < |rows| && rows[i].day == day && Relevant(rows[i], period, last))
          == (set i | 0 <= i < |init| && init[i].day == day && Relevant(init[i], period, last))
             + (if here then {k} else {});
      Coverage(init, day, period, last) + (if here then 1 else 0)
  }

  /** A survey date that `value_counts` lists with a count of at least `h`. */
  predicate Qualifies(rows: seq<Expectation>, day: int, period: seq<Date>, last: Date, h: nat)
  {
    var n := Coverage(rows, day, period, last);
    n > 0 && n >= h
  }

  /** The latest qualifying survey date among `pending`, all counts taken
      over `rows`. */
  function LatestQualifying(rows: seq<Expectation>, pending: seq<Expectation>, period: seq<Date>, last: Date, h: nat): (r: Option<int>)
    ensures r.Some? ==> Qualifies(rows, r.value, period, last, h) && exists i :: 0 <= i < |pending| && pending[i].day == r.value
    ensures r.None? <==> forall i :: 0 <= i < |pending| ==> !Qualifies(rows, pending[i].day, period, last, h)
    ensures r.Some? ==> forall i :: 0 <= i < |pending| && Qualifies(rows, pending[i].day, period, last, h) ==> pending[i].day <= r.value
    decreases |pending|
  {
    if pending == [] then None
    else
      var rest := LatestQualifying(rows, pending[1..], period, last, h);
      assert forall i :: 1 <= i < |pending| ==> pending[1..][i - 1] == pending[i];
      var d := pending[0].day;
      if Qualifies(rows, d, period, last, h) && (rest.None? || rest.value < d) then Some(d) else rest
  }

  /** `data_focus_expec_pib`: the latest survey date whose rows cover at
      least `h` relevant quarters; `IndexError` when there is none. */
  function LatestVintage(rows: seq<Expectation>, period: seq<Date>, last: Date, h: nat): (r: Result<int>)
    ensures r.Ok? ==> Qualifies(rows, r.value, period, last, h)
    ensures r.Ok? ==> forall i :: 0 <= i < |rows| && Qualifies(rows, rows[i].day, period, last, h) ==> rows[i].day <= r.value
    ensures r.Err? <==> forall i :: 0 <= i < |rows| ==> !Qualifies(rows, rows[i].day, period, last, h)
    ensures r.Err? ==> r.error == NoVintage
  {
    match LatestQualifying(rows, rows, period, last, h)
    case None => Err(NoVintage)
    case Some(d) => Ok(d)
  }

  /** The chosen date is the maximum of all qualifying survey dates, and
      any date that qualifies rules out failure. */
  lemma LatestVintageIsMaximum(rows: seq<Expectation>, period: seq<Date>, last: Date, h: nat, day: int)
    requires Qualifies(rows, day, period, last, h)
    ensures LatestVintage(rows, period, last, h).Ok?
    ensures day <= LatestVintage(rows, period, last, h).value
  {
    var i :| 0 <= i < |rows| && rows[i].day == day && Relevant(rows[i], period, last);
  }

  /** The count includes rows about the last observed quarter, so a newer
      survey can qualify and win while covering fewer forecast quarters
      than an older one: here the newer survey speaks only of the last
      observed quarter, is chosen over a survey that covers the forecast
      quarter, and leaves the scenario empty. */
  lemma PartialVintageMayWin(q: Date, last: Date, v: real)
    requires last != q
    ensures var rows := [Expectation(1, q, Some(v)), Expectation(2, last, Some(v))];
      && Qualifies(rows, 1, [q], last, 1)
      && LatestVintage(rows, [q], last, 1) == Ok(2)
      && ExpectationScenario(rows, 2, [q]) == []
  {
    var rows := [Expectation(1, q, Some(v)), Expectation(2, last, Some(v))];
    assert (set i | 0 <= i < |rows| && rows[i].day == 1 && Relevant(rows[i], [q], last)) == {0};
    assert (set i | 0 <= i < |rows| && rows[i].day == 2 && Relevant(rows[i], [q], last)) == {1};
    LatestVintageIsMaximum(rows, [q], last, 1, 2);
    assert MediansFor(rows[1..], 2, q) == [];
  }

  /** From raw feed rows to the chosen survey date. */
  function SelectVintage(raw: seq<SurveyRow>, period: seq<Date>, last: Date, h: nat): Result<int>
  {
    match ParseSurvey(raw)
    case Err(e) => Err(e)
    case Ok(rows) => LatestVintage(rows, period, last, h)
  }

  /** A row of the survey scenario table. */
  datatype ExpectationPoint = ExpectationPoint(reference: Date, median: real)

  /** Present medians of the chosen survey's rows about quarter `q`. */
  function MediansFor(rows: seq<Expectation>, day: int, q: Date): (r: seq<real>)
    ensures forall v :: v in r <==> exists i :: 0 <= i < |rows| && rows[i].day == day && rows[i].reference == q && rows[i].median == Some(v)
  {
    if rows == [] then []
    else
      var rest := MediansFor(rows[1..], day, q);
      assert forall i :: 1 <= i < |rows| ==> rows[1..][i - 1] == rows[i];
      var e := rows[0];
      if e.day == day && e.reference == q && e.median.Some? then [e.median.value] + rest else rest
  }

  /** `dados_cenario_expec_pib`: the chosen survey's medians for the
      forecast quarters, ordered by reference quarter, NaN medians dropped. */
  function ExpectationScenario(rows: seq<Expectation>, day: int, period: seq<Date>): (r: seq<ExpectationPoint>)
    decreases |period|
  {
    if period == [] then []
    else
      var here := MediansFor(rows, day, period[0]);
      seq(|here|, k requires 0 <= k < |here| => ExpectationPoint(period[0], here[k]))
        + ExpectationScenario(rows, day, period[1..])
  }

  /** The scenario holds exactly the present medians of the chosen survey
      for the forecast quarters. */
  lemma {:induction false} ExpectationScenarioMembers(rows: seq<Expectation>, day: int, period: seq<Date>, p: ExpectationPoint)
    ensures p in ExpectationScenario(rows, day, period) <==>
      p.reference in period &&
      exists i :: 0 <= i < |rows| && rows[i].day == day && rows[i].reference == p.reference && rows[i].median == Some(p.median)
    decreases |period|
  {
    if period != [] {
      var here := MediansFor(rows, day, period[0]);
      var head := seq(|here|, k requires 0 <= k < |here| => ExpectationPoint(period[0], here[k]));
      ExpectationScenarioMembers(rows, day, period[1..], p);
      assert ExpectationScenario(rows, day, period) == head + ExpectationScenario(rows, day, period[1..]);
      if p in head {
        var k :| 0 <= k < |head| && head[k] == p;
        assert p.reference == period[0] && here[k] == p.median;
      }
      if p.reference == period[0] && p.median in here {
        var k :| 0 <= k < |here| && here[k] == p.median;
        assert head[k] == p;
      }
      assert p.reference in period <==> p.reference == period[0] || p.reference in period[1..];
    }
  }

  /** The chosen survey's rows about a forecast quarter with a present
      median, in feed order: the table after the `.query` steps and
      `.dropna()`, before the sort. */
  function Picked(rows: seq<Expectation>, day: int, period: seq<Date>): seq<ExpectationPoint>
    decreases |rows|
  {
    if rows == [] then []
    else
      var e := rows[0];
      (if e.day == day && e.reference in period && e.median.Some?
       then [ExpectationPoint(e.reference, e.median.value)] else [])
        + Picked(rows[1..], day, period)
  }

  lemma {:induction false} PickedNothing(rows: seq<Expectation>, day: int)
    ensures Picked(rows, day, []) == []
    decreases |rows|
  {
    if rows != [] {
      PickedNothing(rows[1..], day);
    }
  }

  /** The scenario's rows for one quarter are the picked rows about it. */
  lemma {:induction false} ScenarioQuarterIsPicked(rows: seq<Expectation>, day: int, q: Date)
    ensures var here := MediansFor(rows, day, q);
      seq(|here|, k requires 0 <= k < |here| => ExpectationPoint(q, here[k])) == Picked(rows, day, [q])
    decreases |rows|
  {
    if rows != [] {
      ScenarioQuarterIsPicked(rows[1..], day, q);
      var here, rest := MediansFor(rows, day, q), MediansFor(rows[1..], day, q);
      var head := seq(|here|, k requires 0 <= k < |here| => ExpectationPoint(q, here[k]));
      var tail := seq(|rest|, k requires 0 <= k < |rest| => ExpectationPoint(q, rest[k]));
      var e := rows[0];
      if e.day == day && e.reference == q && e.median.Some? {
        assert here == [e.median.value] + rest;
        assert head == [ExpectationPoint(e.reference, e.median.value)] + tail;
      } else {
        assert here == rest;
        assert !(e.reference in [q] && e.day == day && e.median.Some?);
      }
    }
  }

  /** Picking for a quarter not otherwise in the period splits off. */
  lemma {:induction false} PickedSplit(rows: seq<Expectation>, day: int, q: Date, period: seq<Date>)
    requires q !in period
    ensures multiset(Picked(rows, day, [q] + period))
         == multiset(Picked(rows, day, [q])) + multiset(Picked(rows, day, period))
    decreases |rows|
  {
    if rows != [] {
      PickedSplit(rows[1..], day, q, period);
      var e := rows[0];
      assert e.reference in [q] + period <==> e.reference in [q] || e.reference in period;
    }
  }

  /** With no forecast quarter listed twice, the scenario is a permutation
      of the picked rows: each row of the chosen survey about a forecast
      quarter with a present median appears exactly once. */
  lemma {:induction false} ExpectationScenarioPermutation(rows: seq<Expectation>, day: int, period: seq<Date>)
    requires forall k, l :: 0 <= k < l < |period| ==> period[k] != period[l]
    ensures multiset(ExpectationScenario(rows, day, period)) == multiset(Picked(rows, day, period))
    decreases |period|
  {
    if period == [] {
      PickedNothing(rows, day);
    } else {
      var q, more := period[0], period[1..];
      ExpectationScenarioPermutation(rows, day, more);
      ScenarioQuarterIsPicked(rows, day, q);
      assert forall l :: 0 <= l < |more| ==> more[l] == period[l + 1] != q;
      assert period == [q] + more;
      PickedSplit(rows, day, q, more);
    }
  }

  predicate OrderedByReference(r: seq<ExpectationPoint>)
  {
    forall k, l :: 0 <= k < l < |r| ==> r[k].reference <= r[l].reference
  }

  /** Every reference quarter of the scenario is a forecast quarter. */
  lemma {:induction false} ExpectationScenarioInPeriod(rows: seq<Expectation>, day: int, period: seq<Date>)
    ensures forall k :: 0 <= k < |ExpectationScenario(rows, day, period)| ==>
      ExpectationScenario(rows, day, period)[k].reference in period
    decreases |period|
  {
    if period != [] {
      var here := MediansFor(rows, day, period[0]);
      var head := seq(|here|, k requires 0 <= k < |here| => ExpectationPoint(period[0], here[k]));
      var tail := ExpectationScenario(rows, day, period[1..]);
      ExpectationScenarioInPeriod(rows, day, period[1..]);
      var r := ExpectationScenario(rows, day, period);
      assert r == head + tail;
      forall k | 0 <= k < |r| ensures r[k].reference in period {
        if k < |head| {
          assert r[k] == head[k];
        } else {
          assert r[k] == tail[k - |head|];
          assert tail[k - |head|].reference in period[1..];
        }
      }
    }
  }

  /** With the forecast period in increasing order, the scenario is
      ordered by reference quarter. */
  lemma {:induction false} ExpectationScenarioOrdered(rows: seq<Expectation>, day: int, period: seq<Date>)
    requires StrictlyIncreasing(period)
    ensures OrderedByReference(ExpectationScenario(rows, day, period))
    decreases |period|
  {
    if period != [] {
      var here := MediansFor(rows, day, period[0]);
      var head := seq(|here|, k requires 0 <= k < |here| => ExpectationPoint(period[0], here[k]));
      var tail := ExpectationScenario(rows, day, period[1..]);
      ExpectationScenarioOrdered(rows, day, period[1..]);
      ExpectationScenarioInPeriod(rows, day, period[1..]);
      var r := ExpectationScenario(rows, day, period);
      assert r == head + tail;
      assert forall k :: 0 <= k < |tail| ==> period[0] < tail[k].reference by {
        forall k | 0 <= k < |tail| ensures period[0] < tail[k].reference {
          var j :| 0 <= j < |period[1..]| && period[1..][j] == tail[k].reference;
          assert period[j + 1] == tail[k].reference;
        }
      }
      forall k, l | 0 <= k < l < |r| ensures r[k].reference <= r[l].reference {
        if l < |head| {
          assert r[k] == head[k] && r[l] == head[l];
        } else if k < |head| {
          assert r[k] == head[k] && r[l] == tail[l - |head|];
        } else {
          assert r[k] == tail[k - |head|] && r[l] == tail[l - |head|];
        }
      }
    }
  }
}
