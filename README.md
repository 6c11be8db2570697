# Copper short-squeeze monitor: indicator and scoring engine in Dafny

This project models the scoring core of a copper short-squeeze monitor.
Four cached market series are each ranked against their own trailing
window, and the resulting percentiles are combined into a composite score
and a verdict.

The four series are:

- exchange cash and three-month prices, which give the backwardation ratio;
- visible inventory in tonnes;
- speculative net shorts in contracts;
- the cross-exchange basis in USD/t.

The modules follow the program's structure:

- `Dates` (dates.dfy): the dates that index the series. `YearsBefore` is the
  calendar offset of N years that fixes each window's start, including the
  29 February to 28 February clamp. `DayKey` orders dates chronologically.
- `Rounding` (rounding.dfy): Python's `round(x, 1)`, rounding half to even,
  together with its bounds and order lemmas.
- `Ranker` (ranker.dfy): the trailing-window percentile ranker. `Window` is
  the boolean-mask filter `index >= cutoff`. `Count` counts the window
  points that compare to a reference as `<=`, `>=`, `<`, `>` or `==`.
  `Rank` is `count / |window| * 100`.
- `Indicators` (indicators.dfy): the indicator engine, `CopperIndicators`.
  It is an immutable snapshot of the four datasets with two read
  operations. `GetAll` is snapshot mode: each series' latest reading is
  ranked, inventory is inverted, and basis is capped at 25.
  `ComputePercentilesFromRaw` is override mode: caller-supplied readings
  are ranked against the same stored windows, and each missing key falls
  back to the stored latest reading.
- `Dashboard` (dashboard.dfy): the composite scorer. `BasisBonus` is the
  0-or-25 bonus gated at 90. `CompositeScore` is the sum. `VerdictOf` gives
  the verdict bands at 150, 200 and 250, and `SeverityOf` gives the bar
  colour bands at 50, 75 and 90. `SqueezeMonitor` is the stateful monitor
  object, whose `Update` reassigns `data`, `composite` and
  `basisBonusApplied`.
- `Wrappers` (wrappers.dfy): `Option` stands in for a dictionary key that
  may be missing. `Result` carries the override error path.

Where the code's own comments and its behaviour disagree, the model
follows the behaviour:

- The bonus gate reads the snapshot `basis_pct`, which is already capped at
  25 and rounded to one decimal place (copper_indicators.py:47,53). The
  comments at copper_squeeze_dashboard.py:23 and :25 call it a raw
  percentile.
- The override inventory score counts in the opposite direction to the
  snapshot one (copper_indicators.py:72-73 against 35-36). The comment at
  copper_indicators.py:72 says lower inventory gives a higher score.

The code indexes `[-1]` on every series, so an empty series makes it fail.
The model therefore requires every series to be non-empty. It also requires
every series to be indexed by real calendar dates in increasing order.

## Model

| member | source | states |
|---|---|---|
| `Dates.YearsBefore` | copper_indicators.py:28 | The cutoff `last − N years` moves the year back by N and keeps the month. It keeps the day when that day exists in the earlier month; otherwise it clamps to the month's last day, so 29 February becomes 28 February. The cutoff is a valid date and never falls after the date it starts from. |
| `Ranker.Window` | copper_indicators.py:28 | The window keeps only points dated on or after the cutoff and is no longer than the series. |
| `Ranker.WindowIsSuffix` | copper_indicators.py:28 | On a date-sorted series, the mask keeps exactly the contiguous suffix that starts at the first point on or after the cutoff. |
| `Ranker.WindowKeepsLast` | copper_indicators.py:34 | When the cutoff is not after the last date, the window is a non-empty suffix whose last point is the series' last observation. |
| `Ranker.TrailingWindow` | copper_indicators.py:40 | The N-year window counted back from the series' own last date is a non-empty suffix that ends at the latest observation. |
| `Ranker.Count` | copper_indicators.py:29 | The number of window points that satisfy the comparison never exceeds the window size. |
| `Ranker.Rank` | copper_indicators.py:65 | The percentile `count / |window| × 100` always lies in [0, 100]. |
| `Ranker.CountSplits` | copper_indicators.py:35-36 | Every point is either `<=` or `>` the reference, and either `>=` or `<` it. The `>=` count is the `>` count plus the tie count. |
| `Ranker.RankOfLatest` | copper_indicators.py:29 | Ranked in its own window, the latest value's `<=` percentile lies in [100/|w|, 100]. The share strictly above it lies in [0, 100 − 100/|w|]. |
| `Ranker.RankMonotone` | copper_indicators.py:80 | Raising the reference never lowers the `<=` (or `<`) percentile and never raises the `>=` percentile. |
| `Ranker.RankExtremes` | copper_indicators.py:91 | A reference at or above every window value gives 100 by `<=`, and one strictly below every value gives 0. By `>=`, a reference strictly above every value gives 0, and one at or below every value gives 100. |
| `Ranker.RankComplements` | copper_indicators.py:72-73 | 100 − `%(<=)` is `%(>)`, and 100 − `%(>=)` is `%(<)`. Their sum is 100 − `%(==)`. |
| `Rounding.RoundHalfEven` | copper_indicators.py:50-53 | The result is the nearest integer, at most 0.5 away, and ties go to the even integer. |
| `Rounding.Round1Close` | copper_indicators.py:50-53 | `Round1`, the model of `round(x, 1)`, moves a value by at most 0.05. |
| `Rounding.Round1Monotone` | copper_indicators.py:96-99 | `Round1` preserves order: a larger figure never rounds to a smaller one. |
| `Rounding.Round1Idempotent` | copper_indicators.py:93 | Rounding an already-rounded figure again changes nothing. |
| `Rounding.Round1Percentage` | copper_indicators.py:49-54 | A rounded percentage stays in [0, 100]. |
| `Indicators.BackwardationSeries` | copper_indicators.py:27 | The spread / three-month ratio series has one point per price day, with the same dates, so it stays date-sorted. |
| `Indicators.BackwardationWindow` | copper_indicators.py:28 | The 5-year backwardation window is non-empty and ends at the latest ratio. |
| `Indicators.InventoryWindow` | copper_indicators.py:34 | The 10-year inventory window is non-empty and ends at the latest stock. |
| `Indicators.CftcWindow` | copper_indicators.py:40 | The 8-year net-shorts window is non-empty and ends at the latest figure. |
| `Indicators.BasisWindow` | copper_indicators.py:45 | The 10-year basis window is non-empty and ends at the latest basis. |
| `Indicators.SnapshotRank` | copper_indicators.py:29 | The snapshot percentile lies in [100/|w|, 100]. It is never 0 and never undefined, and it is exactly 100 when the latest reading is the window maximum. |
| `Indicators.SnapshotInventoryTightness` | copper_indicators.py:33-36 | Snapshot inventory tightness equals the share of window points strictly above the latest stock. It lies in [0, 100) and never reaches 100, because the latest stock is never above itself. |
| `Indicators.SnapshotUnrounded` | copper_indicators.py:26-47 | The unrounded snapshot figures are percentages, and the basis figure is at most 25. |
| `Indicators.RoundEach` | copper_indicators.py:49-54 | Rounding each figure keeps it in [0, 100] and keeps a basis figure at most 25. |
| `Indicators.GetAll` | copper_indicators.py:25-54 | Every snapshot figure is in [0, 100], and `basis_pct` is at most 25. |
| `Indicators.LatestMaxReportsHundred` | copper_indicators.py:29-41 | When the latest backwardation ratio or the latest net-shorts figure is its window maximum, the snapshot reports exactly 100.0. |
| `Indicators.ThreeMonthPriceZeroIff` | copper_indicators.py:59-60 | The effective three-month price is zero exactly when the caller supplies a zero. |
| `Indicators.CurrentBackwardationWithoutOverride` | copper_indicators.py:58-62 | With neither price overridden, the live ratio `(cash − 3M)/3M` equals the last point of the stored ratio window. |
| `Indicators.OverrideReadingsFallBack` | copper_indicators.py:58-76 | `CashPrice`, `ThreeMonthPrice`, `InventoryTonnes` and `NetShorts` model the `raw.get` fallbacks. A supplied reading is used as given. A missing cash or three-month price is the latest stored price, and a missing stock or net-shorts figure is the last point of the window it is ranked in. |
| `Indicators.CurrentBackwardationSign` | copper_indicators.py:60 | With a positive three-month price, `CurrentBackwardation` is positive exactly when cash is above three-month, zero exactly when they are equal, and negative exactly when cash is below. |
| `Indicators.CurrentBasisMonotone` | copper_indicators.py:86 | `CurrentBasis` rises with the COMEX quote and falls with the three-month price. One cent per pound more on COMEX is 22.0462 USD/t more basis. |
| `Indicators.Min` | copper_indicators.py:47 | The cap takes the smaller of the raw basis percentile and 25, and the result is one of the two. |
| `Indicators.OverrideInventoryScore` | copper_indicators.py:67-73 | The override inventory score as written equals the share of window points strictly below the supplied stock. |
| `Indicators.OverrideUnrounded` | copper_indicators.py:56-93 | The unrounded override figures are percentages. Without a COMEX quote, the basis figure is the capped snapshot one. |
| `Indicators.ComputePercentilesFromRaw` | copper_indicators.py:56-100 | It fails exactly on a supplied zero three-month price. Otherwise every figure is in [0, 100], and without a COMEX quote `basis_pct` stays at most 25. |
| `Indicators.OverrideFallsBackPerKey` | copper_indicators.py:58-93 | Each figure whose keys are all missing falls back key by key. Backwardation, net shorts and basis then equal the snapshot figures, and inventory is `%(< latest)` over the stored window. |
| `Indicators.EmptyOverrideVersusSnapshot` | copper_indicators.py:72-73 | With an empty override, backwardation, net shorts and basis equal `GetAll`. The two inventory figures sum to 100 − `%(== latest)`: they are the shares strictly above and strictly below the latest stock, so they agree only by coincidence. |
| `Indicators.OverrideMonotone` | copper_indicators.py:60-91 | A higher effective reading never lowers the backwardation, net-shorts or basis percentile. As written, it never lowers the inventory score either. |
| `Indicators.OverrideBasisUncapped` | copper_indicators.py:84-91 | With a COMEX quote at or above every stored basis, override mode reports `basis_pct` 100.0, which the snapshot cap would forbid. |
| `Indicators.OverrideInventoryAtRecordLow` | copper_indicators.py:72-73 | A supplied stock below every stored stock scores 0.0 as written. The corrected score is 100.0. |
| `Indicators.CorrectedInventoryScore` | copper_indicators.py:35-36 | The corrected override inventory score is the share of window points strictly above the stock, the snapshot's convention. |
| `Indicators.CorrectedInventoryScoreSound` | copper_indicators.py:35-36 | The corrected score never rises with the stock, and at the latest stock it equals the snapshot tightness. |
| `Indicators.UncappedBasisPct` | copper_indicators.py:46 | The basis percentile without the cap lies in [0, 100] and is 100.0 when the latest basis is the window maximum. |
| `Dashboard.BasisBonus` | copper_squeeze_dashboard.py:26 | The bonus is exactly 25.0 when `basis_pct ≥ 90.0` and exactly 0.0 otherwise, with no partial credit. |
| `Dashboard.CompositeRange` | copper_squeeze_dashboard.py:28 | `CompositeScore` is the three percentiles plus the bonus. With three percentiles in [0, 100], the composite lies in [0, 325], and without the bonus it is at most 300. |
| `Dashboard.SnapshotNeverEarnsBonus` | copper_squeeze_dashboard.py:17-28 | On `get_all` output the bonus is always 0.0, because `basis_pct` ≤ 25 < 90, and the composite lies in [0, 300]. |
| `Dashboard.BonusGateSeesRoundedValue` | copper_squeeze_dashboard.py:23-26 | The gate reads the one-decimal value: the bonus fires exactly when the unrounded percentile is at least 89.95. |
| `Dashboard.UncappedBasisEarnsBonus` | copper_squeeze_dashboard.py:26 | Without the cap, the bonus fires exactly when the basis percentile is at least 89.95, and so whenever the latest basis is the window maximum. |
| `Dashboard.VerdictOf` | copper_squeeze_dashboard.py:31-36 | The bands are < 150 Low, [150, 200) Elevated, [200, 250) High and ≥ 250 Extreme. Lower bounds are inclusive, and exactly one band applies. |
| `Dashboard.VerdictMonotone` | copper_squeeze_dashboard.py:33-36 | A higher composite never gives a milder verdict. |
| `Dashboard.SeverityOf` | copper_squeeze_dashboard.py:49 | The bar colour bands are < 50, [50, 75), [75, 90) and ≥ 90, and every value falls in exactly one band. |
| `Dashboard.SeverityMonotone` | copper_squeeze_dashboard.py:49 | A higher figure never gets a milder colour. |
| `Dashboard.SqueezeMonitor.constructor` | copper_squeeze_dashboard.py:7-14 | The monitor keeps the engine and copies of its four datasets, then scores once, exactly as `Update` does. |
| `Dashboard.SqueezeMonitor.Update` | copper_squeeze_dashboard.py:16-29 | Only `data`, `composite` and `basisBonusApplied` change. `data` is `get_all`, `basisBonusApplied` is the bonus added, and `composite` is the three percentiles plus that bonus. These are functions of the cached data alone, so a repeated update leaves them unchanged. The bonus is 0 and the composite is at most 300. |
| `Dashboard.SqueezeMonitor.GetVerdict` | copper_squeeze_dashboard.py:31-36 | The label and colour are those of the band holding the current composite. |

## Left out

- Data acquisition is not part of this model: lme_data.py (HTTP fetch and HTML parsing), visible_inv_data.py and cftc_net_shorts.py (CSV loading, short-ton conversion, weekly resampling) and src/copper_basis_spread.py (download, business-day resample, forward fill, inner join, `.round(2)`). Their four series are inputs to `CopperIndicators`. From them, only the spread formula (lme_data.py:78) is modelled, as `CashThreeMonthSpread`.
- `CopperIndicators.__init__` only fetches data. The snapshot is a parameter of the model, and the monitor's constructor receives it.
- `show_dashboard` and every `plot_*` method are plotly rendering. Of them, only the colour banding on line 49 is modelled.
- Floating point: values are exact reals. `round(x, 1)` is modelled as round-half-even on the exact value, not on its binary float. `× 2204.62` and the divisions are exact.
- Dates carry no time of day or time zone. The ordering is by calendar day.
- Empty series: the source fails on `index[-1]`. The model requires every series to be non-empty, indexed by valid calendar dates and date-sorted.
- NaN: the series are NaN-free, and no stored three-month price is zero.
- `ComputePercentilesFromRaw`: a zero effective three-month price is modelled as the `ZeroThreeMonthPrice` failure. The source raises `ZeroDivisionError` when both prices are plain floats, but when the cash price comes from the stored series, numpy yields an infinite ratio instead.
- Override keys that are present but hold `None`, or hold non-numeric values, are not modelled. Each key is either absent or holds a number.
- `_copy_data_attributes` is folded into the constructor. The copied datasets are constants, because nothing reassigns them after construction.

## Findings

| source | as written | input that shows it | evidently intended | confidence | as-written member | corrected member |
|---|---|---|---|---|---|---|
| copper_indicators.py:47 | `get_all` reports `min(basis_pct_raw, 25.0)` as `basis_pct`. `update` then gives the 25-point bonus only when `basis_pct >= 90.0`, so the bonus can never fire. | Any data. For example, a latest basis that is the highest of the 10-year window has a raw percentile of 100, but `basis_pct` is 25.0 and the bonus is 0.0. | Report the raw basis percentile, so the bonus fires at the 90th percentile, capped at 25 points. | high, not executed | `Dashboard.SnapshotNeverEarnsBonus` | `Indicators.UncappedBasisPct` |
| copper_indicators.py:72-73 | The override path computes the share of window stocks `>= inv` (already "high = tight"), then inverts it again. It returns the share strictly below the stock, which rises as inventory rises. | Stored 10-year inventory of 100 t and 200 t, with `inventory_tonnes = 50`. As written the score is 0.0, while the snapshot convention gives 100.0. | The snapshot's convention: 100 minus the share `<= inv`, which is the share strictly above. It falls as inventory rises. | medium, not executed | `Indicators.OverrideInventoryAtRecordLow` | `Indicators.CorrectedInventoryScore` |

For the second finding, `Indicators.CorrectedInventoryScoreSound` proves two things: the corrected score falls as the stock rises, and at the latest stock it agrees with snapshot mode. For the first, `Dashboard.UncappedBasisEarnsBonus` proves that the uncapped figure opens the bonus gate. `SqueezeMonitor` and `ComputePercentilesFromRaw` keep the behaviour as written. The corrected members stand beside them.
