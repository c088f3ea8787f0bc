# GDP forecast data preparation, modelled in Dafny

`08-pib.py` forecasts Brazilian quarterly GDP (`pib`). Before fitting, it
shapes its data in four steps, and this project models those steps and
proves what they guarantee:

- **Transformation of each regressor.** `transformar` maps a metadata code
  to a transformation: identity, first or second difference, and their
  logarithmic versions. Any other code is rejected. Every column except
  `saldo_caged_antigo` and `saldo_caged_novo` is transformed this way
  (module `Transform`, and `Cleaning.TransformRegressors`).
- **Cleaning of the training sample.** The target `y` is cut to dates from
  `inicio_treino` (1997-10-01) on. The regressor table `x` is cut to the
  window between that date and the last target date. Columns with a share
  of missing values of 0.2 or more are dropped. The remaining gaps are
  back-filled, then forward-filled. The script reassigns `x` and `y` step
  by step. The class `Cleaning.Sample` holds the two variables, and its
  methods carry out the steps. Each method is proved equal to a function
  on the value `Cleaning.Frame`, and the lemmas are stated about those
  functions. Gap filling runs as a loop over an array per column
  (`Fill.BackFilled`, `Fill.ForwardFilled`).
- **Forecast period and seasonal scenarios.** The forecast period is the
  `h = 4` quarter starts after the last observation (module `Calendar`).
  The scenarios for `uci_ind_fgv` and `prod_ind_metalurgia` give each
  forecast date the median of the history of its quarter of the year
  (modules `Statistics` and `Scenario`).
- **Survey vintage.** The market-expectations survey labels reference
  quarters `q/yyyy`, which the script rewrites to `yyyy-Qq` and parses.
  The chosen survey date is the latest one with at least `h` rows about the
  forecast quarters or the last observed quarter. Its medians form the
  `expec_pib` scenario (module `Focus`).

Conventions used throughout:

- The dates of the table index, of the forecast period and of the survey's
  reference quarters are first days of months. Such a date is a month
  number, `year * 12 + month - 1`. The survey date `Data` is an arbitrary
  day, and it is kept as a plain day number.
- A missing value (NaN) is `None` in a `Column = seq<Option<real>>`.
- Values are exact reals.
- The natural logarithm is a parameter `ln: real -> Option<real>`. It
  yields `None` where `np.log` yields NaN or minus infinity.
- The last target date `modelo1.last_window.index[1]` is a parameter
  `last`. It is the last of the two observations the fitted model keeps.

## Model

| member | source | states |
|---|---|---|
| Transform.ParseCode | 08-pib.py:19-29 | A code is accepted exactly when it is one of "1" to "6". An accepted code maps back to its own text. Any other code fails with `InvalidCode` carrying that code. |
| Transform.ParseCodeText | 08-pib.py:19-26 | Each of the six transformations is selected by its own code. |
| Transform.Diff | 08-pib.py:21 | The difference has the same length and a NaN first row. Row i is `x[i] - x[i-1]`, and it is NaN when either operand is NaN. |
| Transform.LogOf | 08-pib.py:23 | The logarithm is taken cell by cell. NaN stays NaN. |
| Transform.Apply | 08-pib.py:20-25 | Every transformation keeps the column's length. |
| Transform.Transformar | 08-pib.py:17-31 | The call succeeds exactly for a valid code and then keeps the length. Otherwise it fails with `InvalidCode`. |
| Transform.TransformarLevels | 08-pib.py:20-22 | Code "1" returns the column unchanged. Code "2" returns its difference, and code "3" returns the difference of the difference. |
| Transform.TransformarLogs | 08-pib.py:23-25 | Codes "4", "5" and "6" are codes "1", "2" and "3" applied to the logarithm of the column. |
| Transform.SecondDifference | 08-pib.py:22 | Under code "3" the first two rows are NaN. Row i is `x[i] - 2x[i-1] + x[i-2]`, and it is NaN exactly when one of the three operands is. |
| Transform.Levels | 08-pib.py:21 | Cumulating n steps from a first level gives n+1 levels, beginning with that first level. |
| Transform.LevelsOfSteps | 08-pib.py:21 | Cumulating the consecutive differences of a sequence from its first value gives back the sequence. |
| Transform.DiffLosesOnlyFirst | 08-pib.py:21 | A column with no NaN is recovered from its first value and its difference, so differencing loses only the first row. |
| Common.Positions | 08-pib.py:66 | The positions of a boolean mask are exactly its true indices, in increasing order. |
| Common.NothingMarked | 08-pib.py:78 | A mask with no true entry selects no row. |
| Common.CompressMembers | 08-pib.py:76 | An element survives a selection exactly when it sits at a marked position. |
| Common.CompressIncreasing | 08-pib.py:76 | Selection keeps an increasing index increasing. |
| Cleaning.PresentValues | 08-pib.py:66 | `y` holds the present `pib` values, in index order, each equal to the original cell. |
| Cleaning.TransformOne | 08-pib.py:72-73 | A column that is rewritten keeps its name and length. |
| Cleaning.TransformEach | 08-pib.py:72-73 | The loop succeeds exactly when every column succeeds, and then each column is that column's own result. On failure, the error is that of the first failing column, and every earlier column succeeded. |
| Cleaning.FirstFailure | 08-pib.py:72-73 | When a column fails after every earlier one succeeded, the loop stops with that column's error. |
| Cleaning.AllSucceed | 08-pib.py:72-73 | When every column succeeds, the loop's result is each column's own result, in order. |
| Cleaning.TransformRegressors | 08-pib.py:72-73 | No contract of its own. `Cleaning.TransformRegressorsSpec` states its success condition and result. |
| Cleaning.TransformRegressorsSpec | 08-pib.py:72-73 | The transformation of `x` succeeds exactly when both excluded columns exist and every other column has a metadata entry with a valid code. Names and order are kept. The two excluded columns are unchanged. Every other column becomes `transformar` of itself with its own code. |
| Cleaning.Latest | 08-pib.py:77-78 | `y.index.max()` is one of the dates and no date exceeds it. It is absent (NaT) exactly for an empty target. |
| Cleaning.RestrictToWindow | 08-pib.py:76-78 | The frame stays well formed: target dates and values stay paired, and every column stays as long as the index. `Cleaning.WindowTargetSpec`, `Cleaning.WindowRowsSpec` and `Cleaning.WindowCellsSpec` state which rows are kept. |
| Cleaning.WindowTargetSpec | 08-pib.py:76 | After the filter every target date is on or after `inicio_treino`. No such date is lost, and the values follow their dates. |
| Cleaning.WindowRowsSpec | 08-pib.py:78 | Every remaining regressor row lies between `inicio_treino` and the last remaining target date, both included. No row in that interval is lost. An empty target leaves no row. |
| Cleaning.WindowCellsSpec | 08-pib.py:78 | The columns keep their names and order. Each kept row carries the cells of the original row with the same date. |
| Cleaning.CountMissing | 08-pib.py:81 | The missing count is the number of rows whose cell is NaN. It is zero exactly when the column has no NaN, and it equals the length exactly when every cell is NaN. |
| Cleaning.IsSparse | 08-pib.py:81-84 | No contract of its own. `Cleaning.SparseBoundary` states the inclusive 0.2 threshold. With an empty target, a column is sparse exactly when it has a missing cell. |
| Cleaning.SparseBoundary | 08-pib.py:81-84 | With a non-empty target, a column is sparse exactly when five times its missing count reaches the target length. The 0.2 threshold is inclusive. |
| Cleaning.DropSparse | 08-pib.py:81-84 | The frame stays well formed. `Cleaning.DropSparseSpec` states which columns remain. |
| Cleaning.DropSparseSpec | 08-pib.py:81-84 | Target and index are unchanged. A column stays, unchanged, exactly when no column with its label is sparse. Every remaining column is not sparse. |
| Cleaning.FillAll | 08-pib.py:87 | The frame stays well formed. `Cleaning.FillAllSpec` states what filling does to each column. |
| Cleaning.FillAllSpec | 08-pib.py:87 | Only the regressors change, and they keep their names. A column with a present value has no NaN left. A column with none is unchanged. Present values are kept. |
| Cleaning.FilledAllOrNothing | 08-pib.py:87 | After filling, every column is either complete or entirely missing. |
| Cleaning.Cleaned | 08-pib.py:72-87 | A successful stage leaves a well-formed frame. `Cleaning.CleanedSpec` states what the fitted sample then satisfies. |
| Cleaning.CleanedSpec | 08-pib.py:72-87 | After the whole stage, target dates are on or after the training start. Regressor rows lie inside the window, or there are none when the target is empty. Every column is either complete or entirely missing. |
| Cleaning.Sample.constructor | 08-pib.py:65-69 | `y` is the present part of `pib` with its dates, and `x` holds the other columns on the full index. |
| Cleaning.Sample.TransformColumns | 08-pib.py:72-73 | The in-place loop ends in `Pass` exactly when `TransformRegressors` succeeds, and then leaves its result in `x`. Otherwise it reports the same error. `y` and the index are untouched. |
| Cleaning.Sample.RestrictToTrainingWindow | 08-pib.py:76-78 | The new state is `RestrictToWindow` of the old one. |
| Cleaning.Sample.DropSparseColumns | 08-pib.py:81-84 | The new state is `DropSparse` of the old one. |
| Cleaning.Sample.FillMissing | 08-pib.py:87 | The loop over columns leaves `FillAll` of the old state. |
| Cleaning.Sample.Clean | 08-pib.py:72-87 | The four steps in order reach `Cleaned` of the initial state, or report its error. |
| Fill.FirstPresent | 08-pib.py:87 | The value is present exactly when some cell is, and then it is the first present cell. |
| Fill.LastPresent | 08-pib.py:87 | The value is present exactly when some cell is, and then it is the last present cell. |
| Fill.BFill | 08-pib.py:87 | `bfill` keeps the column's length. `Fill.BFillAt` states the value of every row. |
| Fill.FFill | 08-pib.py:87 | `ffill` keeps the column's length. `Fill.FFillAt` states the value of every row. |
| Fill.FillGaps | 08-pib.py:87 | `bfill().ffill()` keeps the column's length. `Fill.FillGapsAt` states the value of every row. |
| Fill.BFillAt | 08-pib.py:87 | After `bfill`, every row holds the first present value at or below it. |
| Fill.FFillAt | 08-pib.py:87 | After `ffill`, every row holds the last present value at or above it. |
| Fill.FFillLast | 08-pib.py:87 | After `ffill`, the last row holds the column's last present value. |
| Fill.LastPresentOfBFill | 08-pib.py:87 | Where nothing is present at or below a row, back-filling leaves unchanged the last present value above it. |
| Fill.FillGapsAt | 08-pib.py:87 | After `bfill().ffill()`, each row holds the next present value at or below it. When there is none, it holds the last present value above it. |
| Fill.FillGapsKeepsPresent | 08-pib.py:87 | A present value is never overwritten. |
| Fill.FillGapsComplete | 08-pib.py:87 | A column with one present value ends with no NaN, and an all-NaN column is left as it was. |
| Fill.FillGapsIdempotent | 08-pib.py:87 | Filling a filled column changes nothing. |
| Fill.BackFilled | 08-pib.py:87 | The bottom-up loop over an array computes `bfill`. |
| Fill.ForwardFilled | 08-pib.py:87 | The top-down loop over an array computes `ffill`. |
| Calendar.MonthStart | 08-pib.py:13 | The date of a month's first day encodes that year and month. |
| Calendar.QuarterOf | 08-pib.py:130 | `.quarter` is between 1 and 4, and it is the quarter containing the date's month. |
| Calendar.QuarterBeginForward | 08-pib.py:118-119 | Adding `QuarterBegin(n)` lands on a March, June, September or December start. The result is the n-th such date strictly after the input. |
| Calendar.QuarterStartsBetween | 08-pib.py:117-121 | `date_range(freq="QS")` gives quarter starts within the bounds, spaced three months apart. |
| Calendar.QuarterStartsComplete | 08-pib.py:117-121 | The range misses no quarter start between its bounds. |
| Calendar.QuarterStartsAhead | 08-pib.py:117-121 | From a quarter start, the range up to k quarters ahead holds exactly those k quarter starts. |
| Calendar.ForecastPeriod | 08-pib.py:116-121 | No contract of its own. `Calendar.ForecastPeriodIsNextQuarters` states its dates. |
| Calendar.ForecastPeriodIsNextQuarters | 08-pib.py:116-121 | From a last observation on a quarter start, the forecast period holds exactly the next h quarter starts, in order. |
| Scenario.SeasonalScenario | 08-pib.py:135-148 | The scenario has one row per forecast date. |
| Scenario.QuarterMedian | 08-pib.py:128-133 | No contract of its own. `Scenario.ScenarioIsQuarterMedian` states its value. |
| Scenario.QuarterGroupMembers | 08-pib.py:125-133 | A value is in a quarter's group exactly when a present history row from the training start on, in that quarter, carries it. |
| Scenario.QuarterMedianOfConstant | 08-pib.py:125-133 | A quarter whose history, from the training start on, holds a single value has that value as its median. |
| Scenario.ScenarioIsQuarterMedian | 08-pib.py:125-149 | Each forecast date gets the median of its quarter's group. The value is NaN exactly when the group is empty. Otherwise at most half of the group lies strictly below the value and at most half strictly above, and the value lies between two members of the group. |
| Scenario.ScenarioOrdered | 08-pib.py:147-148 | Rows are ordered by date. On the forecast period they are the next h quarter starts. |
| Scenario.ScenarioRepeatsSeasonalPattern | 08-pib.py:125-149 | A history that repeats one value per quarter of the year reproduces that value on every forecast date of that quarter. |
| Statistics.Insert | 08-pib.py:133 | Insertion into a sorted sequence keeps it sorted and adds exactly the inserted value. |
| Statistics.Sort | 08-pib.py:133 | The result is sorted and is a permutation of the input. |
| Statistics.Middle | 08-pib.py:133 | No contract of its own. `Statistics.MiddleSplitsInHalves` states its split property. |
| Statistics.Median | 08-pib.py:133 | No contract of its own. `Statistics.MedianSplitsInHalves`, `Statistics.MedianWithinRange` and `Statistics.MedianOfConstant` state its properties. |
| Statistics.CountBelow | 08-pib.py:133 | The count of values strictly below a bound never exceeds the length. |
| Statistics.CountAbove | 08-pib.py:133 | The count of values strictly above a bound never exceeds the length. |
| Statistics.CountInsert | 08-pib.py:133 | Inserting a value changes the counts below and above a bound by that value alone. |
| Statistics.CountSort | 08-pib.py:133 | Sorting does not change the counts below or above a bound. |
| Statistics.CountSortedBelow | 08-pib.py:133 | In a sorted sequence, the values below a bound all precede any position holding at least the bound. |
| Statistics.CountNoneBelow | 08-pib.py:133 | When every value reaches a bound, none lies below it. |
| Statistics.CountSortedAbove | 08-pib.py:133 | In a sorted sequence, the values above a bound all follow any position holding at most the bound. |
| Statistics.MedianSplitsInHalves | 08-pib.py:133 | At most half of the values lie strictly below the median, and at most half strictly above. |
| Statistics.MiddleSplitsInHalves | 08-pib.py:133 | In a sorted group, at most half of the values lie strictly below the middle value, and at most half strictly above. |
| Statistics.MedianWithinRange | 08-pib.py:133 | The median lies between two of the values. |
| Statistics.MedianOfConstant | 08-pib.py:133 | The median of equal values is that value. |
| Focus.DigitValue | 08-pib.py:163 | A digit character has a value from 0 to 9. |
| Focus.DigitChar | 08-pib.py:163 | A value from 0 to 9 is written as the digit of that value. |
| Focus.RewriteReference | 08-pib.py:163 | No contract of its own. `Focus.RewriteWithoutMatch` and `Focus.ReferenceRoundTrip` state its effect on unmatched labels and on feed labels. |
| Focus.RewriteWithoutMatch | 08-pib.py:163 | A label with no `q/yyyy` occurrence is left unchanged by the rewrite. |
| Focus.FourDigitValue | 08-pib.py:162-165 | Four digits read as a year from 0 to 9999. |
| Focus.FourDigits | 08-pib.py:162-165 | A year from 0 to 9999 is written as four digits that read back as that year. |
| Focus.FourDigitsOfValue | 08-pib.py:162-165 | Reading four digits and writing the year back gives the same four digits. |
| Focus.ParsePeriod | 08-pib.py:162-165 | A parsed "yyyy-Qq" label gives the first month of a quarter in a year from 0 to 9999. A label that does not parse fails with `BadReference` carrying the label. |
| Focus.FeedLabel | 08-pib.py:163 | The feed writes a quarter start as "q/yyyy". |
| Focus.ReferenceRoundTrip | 08-pib.py:162-165 | Rewriting and parsing the feed's label of a quarter start gives back that quarter start. |
| Focus.ReferenceLabelsUnique | 08-pib.py:162-165 | A six-character label parses only when it is written "q/yyyy", and it is then the feed's label of the date it parses to. |
| Focus.ParseSurvey | 08-pib.py:161-166 | Parsing succeeds exactly when every label parses, and then each row keeps its date and median with the parsed quarter. A failure comes from a row's label. |
| Focus.Coverage | 08-pib.py:167-169 | A survey date's count is the number of its rows about a forecast quarter or the last observed quarter. It is positive exactly when there is such a row. |
| Focus.LatestQualifying | 08-pib.py:169-175 | The scan finds a qualifying date exactly when one exists, and the date found is the latest qualifying one. |
| Focus.LatestVintage | 08-pib.py:159-177 | The chosen date qualifies and is the latest qualifying date. When no date qualifies, the selection fails with `NoVintage`, the `IndexError` of `.to_list()[0]`. |
| Focus.LatestVintageIsMaximum | 08-pib.py:172-176 | Any qualifying date rules out failure and is no later than the chosen date. |
| Focus.PartialVintageMayWin | 08-pib.py:167-190 | Rows about the last observed quarter count toward `h`. So a newer survey that covers fewer forecast quarters can be chosen over an older survey that covers more. Here the chosen survey covers no forecast quarter, and the scenario is empty. |
| Focus.SelectVintage | 08-pib.py:159-177 | No contract of its own. `Focus.ParseSurvey` and `Focus.LatestVintage` state its two stages. |
| Focus.MediansFor | 08-pib.py:188-195 | A value is listed exactly when a row of the chosen survey about that quarter carries it as a present median. |
| Focus.ExpectationScenario | 08-pib.py:180-196 | No contract of its own. `Focus.ExpectationScenarioMembers`, `Focus.ExpectationScenarioPermutation`, `Focus.ExpectationScenarioInPeriod` and `Focus.ExpectationScenarioOrdered` state its contents, period and order. |
| Focus.ExpectationScenarioMembers | 08-pib.py:180-196 | The `expec_pib` scenario holds exactly the present medians of the chosen survey for the forecast quarters. |
| Focus.ExpectationScenarioPermutation | 08-pib.py:180-196 | When no forecast quarter is listed twice, the scenario is a permutation of the filtered survey rows. Each row of the chosen survey about a forecast quarter with a present median appears exactly once. |
| Focus.Picked | 08-pib.py:188-195 | No contract of its own. It lists the filtered survey rows in feed order, before the sort, and serves as the reference for `Focus.ExpectationScenarioPermutation`. |
| Focus.ScenarioQuarterIsPicked | 08-pib.py:188-195 | The scenario's rows for one quarter are the filtered survey rows about that quarter, in feed order. |
| Focus.ExpectationScenarioInPeriod | 08-pib.py:188-190 | Every reference quarter in the scenario is a forecast quarter. |
| Focus.ExpectationScenarioOrdered | 08-pib.py:191-192 | On an increasing forecast period, the scenario is ordered by reference quarter. |

## Left out

- The dashboard `app.py` is not part of this model. It is display code.
- Model fitting and forecast intervals (08-pib.py:99-113, 239-271) are left out. They run inside external machine-learning libraries, over floating point.
- Reading the metadata sheet and the parquet files (08-pib.py:34-46), fetching the survey (08-pib.py:152-156), and writing results (08-pib.py:273, 300-309) are left out as I/O. The metadata, the table and the survey rows are parameters instead.
- The prompt and the call to the generative-AI service (08-pib.py:274-297) are left out as an external service.
- Monthly-to-quarterly resampling and the outer join (08-pib.py:49-63) are left out. The model starts from the joined table, as an index and its columns.
- `x_alem_de_y` (08-pib.py:77) is computed but never used, so it is left out.
- The list of selected regressors (08-pib.py:90-94) and the join of the three scenarios with `asfreq` (08-pib.py:226-236) are left out. Each scenario is modelled on its own.
- Floating-point rounding is left out. Values are exact reals, so the 0.2 threshold and the median are computed without rounding.
- Transform.LogOf: the logarithm is a parameter, and minus infinity (the log of zero) is treated like NaN.
- Focus.RewriteReference: `\d` is taken to match ASCII digits only. Python also accepts other Unicode decimal digits.
- Focus.ParsePeriod: only labels of the form "yyyy-Qq" parse. The other spellings that pandas' `PeriodIndex` accepts are treated as errors.
- Scenario.SeasonalScenario: when the forecast period covers fewer than four quarters of the year, the outer join also yields median rows with no date (NaT). The model leaves those rows out.
- Focus.ExpectationScenarioOrdered: rows of one survey date about the same quarter keep their feed order. The sort in the script is not stable, so it may order such rows differently.
- Cleaning.Sample.TransformColumns: on failure, the columns before the failing one have already been rewritten. The contract states only the error for that case, not the partly rewritten table.
- Cleaning.TransformRegressors: when both excluded columns are missing, pandas names both in one `KeyError`. The model reports the first.
