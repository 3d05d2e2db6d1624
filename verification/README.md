# ERC portfolio engine: a Dafny model

This project models the portfolio bookkeeping of a streamlit app that builds
multi-asset portfolios, and proves properties of that model. The app's
numerical optimiser (SciPy's SLSQP) is outside the model. The model covers
these parts of the app:

- **Returns.** `dailyreturns` turns price tables into simple daily returns,
  with `pct_change(fill_method='ffill')` and the first row dropped.
- **ESG filters.** The equity and commodity filters drop a fixed list of
  tickers from a table.
- **Offline ERC tables** (`compute_erc_weights`). For each year from 2016 to
  2024, it keeps the columns that have no missing value that year, starts the
  optimiser from equal weights on the year's sample covariance, and records
  two dictionaries keyed by `year` and the asset names: one of weights and one
  of risk contributions. `importer_data` builds these tables for five
  universes: equity, equity ESG, commodity, commodity ESG, and crypto aligned
  to the equity trading days.
- **Risk-parity algebra.** Portfolio risk, the risk contributions
  `w_i (C w)_i / sigma` and the ERC objective.
- **ERC backtest** (`erc_portfolio`). Each training year's weights are
  replayed over the following year with drift rebalancing. Day t earns
  `p = w . r_t`, then every weight moves to `w_i (1 + r_i) / (1 + p)`. There
  are two variants:
  - the file-driven variant, whose stored weights are intersected with the
    available columns and renormalised;
  - the in-loop variant, which runs the optimiser inside the year loop.
- **Performance figures.** `erc_performance` and `bonds_performance` compute
  the annualised mean, the Sharpe ratio against a 1.5% risk-free rate and the
  compounded cumulative return.
- **Combiner** (`combine_returns`). It merges the chosen asset classes, driven
  by a 0/1 choice vector.
- **Mean-variance backtest** (`meanvar_portfolio`). It rebalances monthly,
  from January 2018 to October 2025. Each month uses a lookback of 63 rows
  before the month start, records the month's starting weights, and replays
  them with drift. The model also covers the utility the optimiser maximises
  and the risk-score to risk-aversion table.
- **Risk questionnaire and risk-level page.** Eight answers worth 0..10 points
  each are summed, normalised by 80, rounded half to even into a score 0..10
  and bucketed into four profiles. The risk-level page keeps its slider score
  in the session and shows advice for it. The streamlit session state is a
  class whose fields the page methods update.
- **Contact form.** The phone number is composed from a country code and a
  local number, and a submission goes through the validation chain.

## How the model is built

- **Dates** are `(year, month, day)` triples.
- **Frames** are a sequence of dates plus named columns of `Option<real>`
  cells. `None` stands for pandas' NaN.
- **Arithmetic** is exact `real` arithmetic.
- **Loops that update variables are methods.** The day loops
  (`Drift.Replay`, `ErcBacktest.ReplayCells`), the year and row loops
  (`ErcTables.ErcYearLoop`, `ErcBacktest.ErcPortfolio`,
  `ErcBacktest.InLoopYears`), the month loop (`MeanVariance.MonthLoop`) and
  the selection loop of `combine_returns` (`Combiner.CombineReturns`) are
  `while` loops with invariants. The question loop
  (`RiskPreference.AnswerQuestions`) is a `for` loop. Each method's
  `ensures` ties it to a reference function, and lemmas state what the
  source promises about that function.
- **Loops that only fill a dictionary are recursive functions.** These are
  the `weight_dict` loop of `meanvar_portfolio` (`MeanVariance.WeightDict`)
  and the two `zip` loops of `compute_erc_weights` (`ErcTables.Zip`). Lemmas
  state what each entry holds.
- **External calls are parameters.** The optimiser and `np.sqrt` are function
  parameters, constrained by ghost predicates: the optimiser returns weights
  in [0, 1] that sum to one, and the square root squares back to its argument.
- **Errors are `Result` values.** A Python exception the code can raise
  becomes a `Failure`. Examples: `ZeroDivisionError` for `1. / 0` when no
  column is complete, `KeyError` for a risk score outside 0..10, `IndexError`
  and `ValueError` in `combine_returns`.

Some behaviours of the code are easy to miss. The model keeps them as
written:

- **Zero portfolio volatility.** `risk_contribution`
  (streamlit/utilities.py:48-55) divides by sigma without a floor. So a
  portfolio with zero variance has NaN contributions.
  `RiskParity.RiskContributions` states that they are missing exactly then.
- **Stored risk contributions.** These are `w_i (C w)_i / sigma`
  (streamlit/dataImporter/importation_data.py:162-169). They sum to sigma,
  not to 1 (`ErcTables.StoredContributionsSumToRisk`).
- **Missing prices.** `pct_change(fill_method='ffill')`
  (streamlit/utils/utilities.py:29) fills a missing price from the last
  present one:
  - a missing price after a present one gives a return of 0
    (`ReturnsTransform.MissingPriceGivesZeroReturn`);
  - the next present price is compared with the last present one
    (`ReturnsTransform.ReturnAfterGap`);
  - only a column with no price yet gives NaN
    (`ReturnsTransform.NoPriceYetGivesNaN`).
- **Empty lookback.** `meanvar_portfolio`
  (streamlit/utils/utilities.py:281-298) passes an empty lookback window to
  the optimiser without raising. The month loop's only error is the
  `ZeroDivisionError` of a frame with no column
  (`MeanVariance.MonthWeights`).

## Model

| member | source | states |
|---|---|---|
| Calendar.MonthStarts | streamlit/utils/utilities.py:274-276 | one first-of-month date per month from start to end inclusive, consecutive months in order |
| Calendar.NextMonthStart | streamlit/utils/utilities.py:300 | the next month start is the first day of the following calendar month |
| Calendar.ScheduleShape | streamlit/utils/utilities.py:274-276 | the schedule has 94 month starts from 2018-01-01 to 2025-10-01, each followed by the next month's start |
| Calendar.InMonthWindow | streamlit/utils/utilities.py:300-303 | a date lies in [month start, next month start) exactly when it is in that calendar month |
| Panel.Where | streamlit/utils/utilities.py:62 | a boolean row mask selects exactly the rows whose date satisfies it, in increasing order |
| Panel.Positions | streamlit/utilities.py:79 | the positions whose element satisfies the test: all of them, each once, in increasing order |
| Panel.FilterPositions | streamlit/utilities.py:79 | filtering keeps order and multiplicity: its k-th element is the element at the k-th kept position |
| Panel.Rows | streamlit/utils/utilities.py:62 | row k of the selection is row idx[k] of the frame: its date and every column's cell, names unchanged |
| Panel.YearRows | streamlit/utils/utilities.py:62 | a year's rows are the rows the mask `index.year == y` selects, columns and names unchanged |
| Panel.YearRowsExact | streamlit/utils/utilities.py:62 | exactly the rows dated in year y, in order, each with its cells; no row of that year is lost |
| Panel.DropIncomplete | streamlit/utilities.py:79 | `dropna(axis=1)` keeps exactly the columns without NaN, in their order, each once, and leaves the dates unchanged |
| Drift.DriftStep | streamlit/utils/utilities.py:85-87 | one day of drift keeps the weights long-only and summing to one; they are the regrown holdings normalised |
| Drift.DriftAll | streamlit/utils/utilities.py:79-88 | drifting through any number of days keeps the weights long-only, fully invested and of the same length |
| Drift.ReplaySpec | streamlit/utils/utilities.py:79-82 | the replay yields one portfolio return per return row |
| Drift.ReplayEntry | streamlit/utils/utilities.py:81-87 | day t earns the weights drifted through days 0..t-1 dotted with day t's returns |
| Drift.PortfolioReturnAboveMinusOne | streamlit/utils/utilities.py:81-87 | every daily portfolio return is above -100%, so the division by 1 + p is defined |
| Drift.HoldingsClosedForm | streamlit/utils/utilities.py:86-87 | a buy-and-hold holding is its initial weight times the asset's compounded gross return |
| Drift.HoldingsNonNegative | streamlit/utils/utilities.py:86-87 | buy-and-hold holdings stay non-negative |
| Drift.DriftIsBuyAndHold | streamlit/utils/utilities.py:79-88 | the drifted weights are the buy-and-hold holdings normalised to sum to one |
| Drift.ReplayCompoundsToHoldings | streamlit/utils/utilities.py:79-88 | the replayed daily returns compound to the buy-and-hold wealth, so drift never trades |
| Drift.Replay | streamlit/utils/utilities.py:77-89 | the day loop (record w . r_t, drift unless it is the last day) computes the replay function `Drift.ReplaySpec` |
| LinAlg.RegrowSigns | streamlit/utils/utilities.py:86 | w_i (1 + r_i) stays non-negative, and positive for a positive weight, when every return is above -100% |
| LinAlg.GrossValuePositive | streamlit/utils/utilities.py:86-87 | long-only holdings with a positive total keep a positive total 1 + p after a day of returns above -100% |
| LinAlg.NormalizeSimplex | streamlit/utils/utilities.py:74 | dividing non-negative weights by their positive sum gives weights in [0, 1] that sum to one |
| ReturnsTransform.FFill | streamlit/utils/utilities.py:29 | the forward-filled price is the cell itself when present, otherwise an earlier cell of the column |
| ReturnsTransform.FFillLatest | streamlit/utils/utilities.py:29 | the filled price is the latest present cell at or before the row, and NaN exactly when no cell up to the row is present |
| ReturnsTransform.PctChange | streamlit/utils/utilities.py:29 | a change is present exactly when both filled prices are present and the previous one is nonzero |
| ReturnsTransform.PctChangeInverts | streamlit/utils/utilities.py:29 | a present change grows the previous price back into the current one: prev (1 + r) = cur |
| ReturnsTransform.ColumnReturns | streamlit/utils/utilities.py:29-32 | a return column has one cell fewer than its price column |
| ReturnsTransform.DailyReturns | streamlit/utils/utilities.py:8-37 | same column names, one row fewer, the dates without the first |
| ReturnsTransform.ReturnOfPresentPrices | streamlit/utils/utilities.py:29 | with two consecutive present prices the return is p[t+1] / p[t] - 1 |
| ReturnsTransform.MissingPriceGivesZeroReturn | streamlit/utils/utilities.py:29 | a missing price after a present one is filled forward, giving a return of 0 |
| ReturnsTransform.ReturnAfterGap | streamlit/utils/utilities.py:29 | a present price after missing ones gives p[t+1] / p[u] - 1, u being the last row with a price |
| ReturnsTransform.NoPriceYetGivesNaN | streamlit/utils/utilities.py:29 | a column with no price up to the row has a NaN return there |
| ReturnsTransform.ColumnReturnsAboveMinusOne | streamlit/utils/utilities.py:29 | positive prices give returns strictly above -100% |
| ReturnsTransform.CompoundInverts | streamlit/utils/utilities.py:29-32 | compounding the first price with the returns rebuilds every price |
| ReturnsTransform.PricesFromReturns | streamlit/utils/utilities.py:29-32 | round trip: for a column with a nonzero price on every date the returns compound back to the prices |
| RiskParity.PortfolioRisk | streamlit/utilities.py:43-45 | sigma exists exactly when w' C w >= 0, and then it is non-negative with sigma^2 = w' C w |
| RiskParity.RiskContributions | streamlit/utilities.py:48-55 | the contributions exist exactly when there is no asset or the variance is positive, one per asset |
| RiskParity.RiskContributionsSumToRisk | streamlit/utilities.py:48-55 | the risk contributions add up to the portfolio risk sigma |
| RiskParity.Objective | streamlit/utilities.py:58-63 | the objective is 1000 times the squared dispersion of the contributions, and NaN when they are NaN |
| RiskParity.DispersionZeroIffEqual | streamlit/utilities.py:63 | the dispersion is non-negative and zero exactly when all entries are equal |
| RiskParity.ObjectiveZeroIffEqualContributions | streamlit/utilities.py:58-63 | the objective is >= 0 and vanishes exactly when every risk contribution is the same |
| RiskParity.SampleCov | streamlit/utilities.py:84 | `cov()` is a square matrix of pairwise sample covariances; it is NaN with fewer than two rows |
| RiskParity.SampleCovSymmetric | streamlit/utilities.py:84 | the sample covariance matrix is symmetric |
| PeriodLoop.Years | streamlit/utilities.py:73 | `range(2016, 2025)` holds the nine years 2016..2024 in order |
| PeriodLoop.Accumulate | streamlit/utilities.py:73-120 | a successful loop has one result per period |
| PeriodLoop.AccumulateSnoc | streamlit/utilities.py:73-120 | a successful period appends its result |
| PeriodLoop.AccumulateAbort | streamlit/utilities.py:73-120 | the first failing period ends the loop with its error, whatever follows |
| PeriodLoop.AccumulateFailIff | streamlit/utilities.py:73-120 | the loop fails exactly when one of its periods fails |
| PeriodLoop.AccumulateEntry | streamlit/utilities.py:73-120 | entry k of a successful loop is period k's result |
| ErcTables.TrainingSlice | streamlit/dataImporter/importation_data.py:191-194 | a year's training block has only columns without a missing value |
| ErcTables.YearCov | streamlit/dataImporter/importation_data.py:200 | the year's covariance, when defined, is square over the year's columns |
| ErcTables.EqualWeights | streamlit/dataImporter/importation_data.py:203-204 | the starting weights are n times 1/n, and ZeroDivisionError exactly when n = 0 |
| ErcTables.EqualWeightsSimplex | streamlit/dataImporter/importation_data.py:204-206 | the equal starting weights satisfy the solver's bounds and sum constraint |
| ErcTables.Zip | streamlit/dataImporter/importation_data.py:223-225 | the dictionary's keys are 'year' and the asset names |
| ErcTables.ZipLookup | streamlit/dataImporter/importation_data.py:223-225 | with distinct names every asset maps to its own value, and 'year' to the year |
| ErcTables.StoredContributions | streamlit/dataImporter/importation_data.py:162-169 | one stored contribution per asset: the risk contributions of the weights, or NaN throughout when undefined |
| ErcTables.FitYear | streamlit/dataImporter/importation_data.py:191-215 | the year's fit fails exactly when no column is complete; otherwise its names are the training columns and its weights are feasible |
| ErcTables.YearRecords | streamlit/dataImporter/importation_data.py:190-234 | a year yields its two records exactly when some column is complete that year |
| ErcTables.ComputeErcWeights | streamlit/dataImporter/importation_data.py:178-247 | the method computes both tables as `ErcTables.ErcTables` defines them |
| ErcTables.ErcYearLoop | streamlit/dataImporter/importation_data.py:183-234 | the year loop appends each year's pair of records, or stops at the first error |
| ErcTables.ComputeYear | streamlit/dataImporter/importation_data.py:190-234 | one pass of the loop builds that year's two records |
| ErcTables.ErcTables | streamlit/dataImporter/importation_data.py:178-247 | both tables from the year loop, or its first error; its contract is `ErcTables.ErcTablesShape` and `ErcTables.RecordValues` |
| ErcTables.ErcTablesShape | streamlit/dataImporter/importation_data.py:186-234 | failure exactly when some year 2016..2024 has no complete column; otherwise nine records of each kind, entry k being year 2016+k |
| ErcTables.TrainingNames | streamlit/dataImporter/importation_data.py:194-197 | a year's asset names are the columns complete that year, distinct |
| ErcTables.RecordKeys | streamlit/dataImporter/importation_data.py:223-232 | both records of a year have the same keys: 'year' plus exactly the complete columns |
| ErcTables.FitNamesDistinct | streamlit/dataImporter/importation_data.py:197 | a year's asset names are distinct when the frame's are |
| ErcTables.RecordValues | streamlit/dataImporter/importation_data.py:215-232 | the weight record holds the optimiser's weights; the contribution record holds the contributions of those very weights |
| ErcTables.StoredContributionsSumToRisk | streamlit/dataImporter/importation_data.py:162-169 | with a positive variance the stored contributions are present and sum to the portfolio risk |
| ErcTables.TableRow | streamlit/dataImporter/importation_data.py:237 | a record's row in the DataFrame has every key of the table, and the record's own values where it has them |
| ErcTables.ReadBack | streamlit/utils/utilities.py:57 | `drop('year').dropna()` keeps exactly the non-year keys with a present value |
| ErcTables.ReadBackRecovers | streamlit/dataImporter/importation_data.py:223-237 | reading a stored weight row back gives exactly the asset-to-weight map that was recorded |
| ErcBacktest.ReplayCellsSpec | streamlit/utils/utilities.py:79-88 | the replay with NaN cells yields one return per row |
| ErcBacktest.ReplayCells | streamlit/utils/utilities.py:77-89 | the day loop on rows that may hold NaN computes `ErcBacktest.ReplayCellsSpec` |
| ErcBacktest.ReplayCellsEntry | streamlit/utils/utilities.py:81-87 | before the first NaN row the return is the drift replay's; from that row on it is NaN |
| ErcBacktest.ReplayCellsValues | streamlit/utils/utilities.py:81-87 | a return is present exactly when no earlier row holds NaN, and then it is above -100% |
| ErcBacktest.ReplayCellsOfComplete | streamlit/utils/utilities.py:81-87 | on rows without NaN the replay is the drift replay |
| ErcBacktest.Available | streamlit/utils/utilities.py:65-67 | `columns.intersection(names)` keeps exactly the columns whose name is listed, with the same dates |
| ErcBacktest.WeightsFor | streamlit/utils/utilities.py:70-71 | the weight vector holds each available column's stored weight, in column order |
| ErcBacktest.Truncate | streamlit/utils/utilities.py:53 | `int(x)` truncates toward zero |
| ErcBacktest.FrameReplay | streamlit/utils/utilities.py:77-88 | the drift replay of weights over a return frame yields one return per row |
| ErcBacktest.StoredWeights | streamlit/utils/utilities.py:57-74 | one stored weight per available column, in column order, all non-negative; a nonzero sum renormalises onto the simplex |
| ErcBacktest.StoredRowReturns | streamlit/utils/utilities.py:52-89 | a stored row yields one return per trading day of the year after its training year |
| ErcBacktest.StoredRowReturnsCases | streamlit/utils/utilities.py:60-89 | no asset left: every day earns 0; weights summing to zero: every day is NaN; otherwise the drift replay of the renormalised weights over the next year's returns of the row's assets |
| ErcBacktest.StoredWeightsNormalize | streamlit/utils/utilities.py:74 | stored non-negative weights with a nonzero sum renormalise to weights that sum to one |
| ErcBacktest.BacktestStoredRow | streamlit/utils/utilities.py:53-89 | the loop body for one stored row computes that row's returns |
| ErcBacktest.ErcPortfolio | streamlit/utils/utilities.py:41-91 | one list of daily returns per stored weight row, in the table's order |
| ErcBacktest.StoredRowReturnsShape | streamlit/utils/utilities.py:79-89 | every present return of a stored year is above -100%, unless no asset is left |
| ErcBacktest.TrainedColumnsAlign | streamlit/utilities.py:79-103 | the next year's columns that intersect the training columns are those columns, in the same order |
| ErcBacktest.TrainedExPost | streamlit/utilities.py:99-103 | the next year's returns on the training columns, same names in the same order, as many columns as fitted weights |
| ErcBacktest.InLoopYear | streamlit/utilities.py:76-120 | a training year yields returns exactly when some column is complete; they are the drift replay of the fitted weights over the next year's rows |
| ErcBacktest.InLoopYearBody | streamlit/utilities.py:76-120 | the body of the in-loop year loop computes that year's returns |
| ErcBacktest.ErcPortfolioInLoop | streamlit/utilities.py:67-122 | the in-loop `erc_portfolio` runs its year step over 2016..2024 |
| ErcBacktest.InLoopYears | streamlit/utilities.py:73-120 | the year loop appends each year's list, or stops at the first error |
| ErcBacktest.InLoopShape | streamlit/utilities.py:73-120 | nine lists, list k holding one return per day of year 2016+k+1; failure exactly when a year has no complete column |
| Performance.FlattenEntry | streamlit/utils/utilities.py:99 | entry i of list k sits right after all earlier lists in the flattened list |
| Performance.FlattenLength | streamlit/utils/utilities.py:99 | the flattened list is as long as all lists together |
| Performance.ErcSeries | streamlit/utils/utilities.py:99-112 | success exactly when the flattened length equals the number of return dates after the first year; holds exactly the dated returns from startyear on, in order, each once |
| Performance.SkipNaMean | streamlit/utils/utilities.py:118 | `mean()` is the mean of the present values, NaN when there is none |
| Performance.Aggregates | streamlit/utils/utilities.py:115-130 | annual mean = 252 x daily mean; Sharpe x volatility = annual mean - 0.015; cumulative + 1 = product of (1 + r) |
| Performance.Cumulative | streamlit/utils/utilities.py:130 | the cumulative return plus one is the compounded gross return of the present days |
| Performance.ErcPerformance | streamlit/utils/utilities.py:95-133 | succeeds exactly when the series can be indexed; the figures are those of the series from startyear on |
| Performance.SharpeSign | streamlit/utils/utilities.py:126-127 | with positive volatility the Sharpe ratio is positive exactly when the annual mean beats 1.5% |
| Performance.CumulativeAppend | streamlit/utils/utilities.py:130 | cumulative returns of consecutive stretches compound |
| Performance.CumulativeOfReplay | streamlit/utils/utilities.py:130 | the cumulative return of a drift period is the buy-and-hold growth minus one |
| Performance.RenameAgg | streamlit/utils/utilities.py:141 | only a column named 'AGG' is renamed 'Daily Returns'; cells are untouched |
| Performance.Lookup | streamlit/utils/utilities.py:149 | the first column with that name, or none when no column has it |
| Performance.BondsFrom | streamlit/utils/utilities.py:141-144 | the rows dated startyear or later, in order, with their cells, and 'AGG' renamed 'Daily Returns'; the lookup succeeds exactly when a column is 'AGG' or 'Daily Returns' |
| Performance.BondsPerformance | streamlit/utils/utilities.py:139-163 | a KeyError exactly when no column is 'AGG' or 'Daily Returns'; otherwise the kept rows and the figures (mean, volatility, Sharpe, cumulative) of the 'Daily Returns' column |
| Performance.BondsFiguresOfAgg | streamlit/utils/utilities.py:139-163 | when the first such column is 'AGG', the figures are those of the AGG returns from startyear on |
| Combiner.Select | streamlit/utils/utilities.py:238-246 | the selection loop as a function; its contract is `Combiner.SelectFails` and `Combiner.SelectPicks` |
| Combiner.SelectFails | streamlit/utils/utilities.py:238-240 | the loop fails with IndexError exactly when a 1 lies past the six classes |
| Combiner.SelectPicks | streamlit/utils/utilities.py:238-246 | otherwise it selects the chosen classes that have a series, in order, each under its class name |
| Combiner.CommonDates | streamlit/utils/utilities.py:255-258 | every combined date has a value in every selected series |
| Combiner.Concat | streamlit/utils/utilities.py:255-258 | one complete column per selected series, under its name, with that series' value on each date |
| Combiner.CommonDatesExact | streamlit/utils/utilities.py:258 | a date is a row exactly when every selected series has a value on it |
| Combiner.CombineReturns | streamlit/utils/utilities.py:232-263 | the loop building `dfs_to_concat` computes `Combiner.CombineSpec`, the function of `combine_returns` |
| Combiner.CombineSpec | streamlit/utils/utilities.py:232-263 | the whole of `combine_returns`; its contract is `Combiner.CombineErrors` and `Combiner.CombineResult` |
| Combiner.CombineErrors | streamlit/utils/utilities.py:238-252 | IndexError exactly for a 1 past position 5; otherwise ValueError exactly when no chosen class has a series |
| Combiner.CombineResult | streamlit/utils/utilities.py:234-258 | columns are the names of the chosen present classes in the fixed class order; rows are exactly the dates all of them share |
| MeanVariance.PortReturn | streamlit/utils/utilities.py:211-213 | `port_return` is w . mu; its contract is `MeanVariance.PortReturnOfEqualMeans` |
| MeanVariance.PortReturnOfEqualMeans | streamlit/utils/utilities.py:211-213 | a fully invested portfolio of assets with equal expected returns expects that return |
| MeanVariance.NegativeUtility | streamlit/utils/utilities.py:219-228 | the value is -(w . mu - 0.5 gamma w' Sigma w), and NaN exactly when the variance is negative |
| MeanVariance.RiskNeutralUtility | streamlit/utils/utilities.py:219-228 | with gamma = 0 the negative utility is -w . mu |
| MeanVariance.UtilityMonotoneInAversion | streamlit/utils/utilities.py:227 | the negative utility grows with gamma |
| MeanVariance.StripReturns | streamlit/utils/utilities.py:278 | removing " Returns" never lengthens a name |
| MeanVariance.AssetNames | streamlit/utils/utilities.py:278 | one asset name per column, the column name with " Returns" removed |
| MeanVariance.StripSuffix | streamlit/utils/utilities.py:278 | a name without spaces followed by " Returns" loses exactly the suffix |
| MeanVariance.ClassAssetNames | streamlit/utils/utilities.py:278 | the six class columns appear in the weight table as Equity, EquityESG, Commodity, CommodityESG, Crypto, Bonds |
| MeanVariance.LookbackIdx | streamlit/utils/utilities.py:281 | the lookback positions are rows of the frame |
| MeanVariance.WindowIdx | streamlit/utils/utilities.py:301-303 | the window positions are rows of the frame |
| MeanVariance.LookbackBounds | streamlit/utils/utilities.py:281 | at most 63 rows, all strictly before the month start, in order |
| MeanVariance.LookbackIsLast | streamlit/utils/utilities.py:281 | an earlier row is left out only when 63 later ones are kept |
| MeanVariance.WindowBounds | streamlit/utils/utilities.py:300-303 | every window row lies in [month start, next month start) |
| MeanVariance.WindowsDisjoint | streamlit/utils/utilities.py:281-303 | a month's window never meets its own lookback, and two months' windows share no row |
| MeanVariance.WeightDict | streamlit/utils/utilities.py:309-311 | the weight dictionary's keys are the asset names |
| MeanVariance.WeightDictLookup | streamlit/utils/utilities.py:309-311 | with distinct names each asset holds its own weight |
| MeanVariance.MonthWeights | streamlit/utils/utilities.py:282-298 | ZeroDivisionError exactly when there is no asset; otherwise feasible weights, one per asset |
| MeanVariance.MonthRows | streamlit/utils/utilities.py:301-303 | the month's rows with every column, all dated inside the month |
| MeanVariance.MonthResult | streamlit/utils/utilities.py:280-322 | a month's returns are the drift replay of its optimiser weights over its window; its weight row is dated at its start and holds those weights undrifted |
| MeanVariance.Month | streamlit/utils/utilities.py:281-322 | the loop body computes the month's result |
| MeanVariance.MeanVarPortfolio | streamlit/utils/utilities.py:268-328 | `meanvar_portfolio` runs the month step over the schedule |
| MeanVariance.MonthLoop | streamlit/utils/utilities.py:280-322 | the month loop appends each month's list and weight row, or stops at the first error |
| MeanVariance.MeanVarShape | streamlit/utils/utilities.py:274-328 | 94 weight rows, row k dated at month start k and holding the undrifted optimiser weights; 94 lists, list k the drift replay of month k's weights over its rows |
| MeanVariance.WeightRowValues | streamlit/utils/utilities.py:309-312 | with distinct names each month's row holds each asset's optimiser weight |
| MeanVariance.RiskAversion | streamlit/utils/utilities.py:355-372 | defined exactly on the scores 0..10, a KeyError otherwise |
| MeanVariance.RiskAversionDecreasing | streamlit/utils/utilities.py:358-370 | strictly decreasing from 200 at score 0 to 0 at score 10, never negative |
| Esg.EquityExcluded | streamlit/utils/utilities.py:336 | the equity exclusion list holds 98 tickers |
| Esg.EquityToEsg | streamlit/utils/utilities.py:333-341 | `equity_to_esg` keeps the dates and exactly the columns whose name is not on the equity list |
| Esg.CommodityToEsg | streamlit/utils/utilities.py:344-352 | `commodity_to_esg` keeps the dates and exactly the columns whose name is not on the commodity list |
| Esg.DropColumns | streamlit/utils/utilities.py:339 | `drop(columns, errors='ignore')` keeps exactly the unlisted columns and the dates |
| Esg.DropColumnsNames | streamlit/utils/utilities.py:339 | the surviving names are the input's unlisted names, in order |
| Esg.DropColumnsConcat | streamlit/utils/utilities.py:339 | dropping from two column blocks drops from each and keeps the blocks in order |
| Esg.DropColumnsIdempotent | streamlit/utils/utilities.py:339 | dropping twice is dropping once |
| Esg.DropColumnsIgnoresAbsent | streamlit/utils/utilities.py:339 | listed tickers that are not columns have no effect |
| Esg.DropColumnsNoneListed | streamlit/utils/utilities.py:339 | a frame without listed tickers comes back unchanged |
| Esg.BerkshireNotListed | streamlit/utils/utilities.py:336 | the list spells Berkshire 'BRK.B'; 'BRK-B' is not listed |
| Esg.BerkshireSurvives | streamlit/utils/utilities.py:333-341 | a 'BRK-B' column survives the equity ESG filter |
| Esg.EnergyFuturesDropped | streamlit/utils/utilities.py:344-352 | none of the five energy futures remains in the commodity ESG table |
| Importer.AlignToDates | streamlit/dataImporter/importation_data.py:71 | the aligned crypto table is well formed with the crypto column names |
| Importer.AlignToDatesRows | streamlit/dataImporter/importation_data.py:71 | the aligned rows are exactly the crypto rows on equity trading days, cell for cell, in order |
| Importer.AlignToDatesDates | streamlit/dataImporter/importation_data.py:71 | a date is kept exactly when it is both a crypto date and an equity date |
| Importer.UniverseReturns | streamlit/dataImporter/importation_data.py:134-145 | every universe's return table is well formed |
| Importer.ImporterData | streamlit/dataImporter/importation_data.py:250-254 | a successful run yields one pair of tables per universe |
| Importer.ImporterDataFails | streamlit/dataImporter/importation_data.py:250-254 | the run fails exactly when one universe's tables fail |
| Importer.ImporterDataEntry | streamlit/dataImporter/importation_data.py:250-254 | entry k holds the tables of universe k, in the order equity, equity ESG, commodity, commodity ESG, crypto |
| Importer.UniverseReturnsIgnoresBonds | streamlit/dataImporter/importation_data.py:141-146 | no universe's returns depend on the bond prices |
| Importer.ImporterDataIgnoresBonds | streamlit/dataImporter/importation_data.py:250-254 | no ERC table is built from the bond prices |
| Importer.ReturnsCommuteWithDrop | streamlit/dataImporter/importation_data.py:134-144 | returns of the filtered prices equal the filtered returns |
| Importer.EsgReturns | streamlit/dataImporter/importation_data.py:134-144 | ESG returns are the plain returns without the excluded tickers |
| RiskPreference.QuestionIdsDistinct | streamlit/risk_preference.py:47-130 | the eight question ids are distinct keys |
| RiskPreference.Points | streamlit/risk_preference.py:133-165 | the points of an answer; its contract is `RiskPreference.PointsBounded` |
| RiskPreference.PointsBounded | streamlit/risk_preference.py:143-165 | every answer is worth 0..10 points, and 10 is reachable for every question |
| RiskPreference.MaxPossibleIsSumOfMaxima | streamlit/risk_preference.py:177 | max_possible = 80 is the sum of the eight maxima |
| RiskPreference.RoundHalfEven | streamlit/risk_preference.py:180 | `round()` gives the nearest integer, a tie going to the even one |
| RiskPreference.RoundHalfEvenUnique | streamlit/risk_preference.py:180 | that integer is unique |
| RiskPreference.RoundHalfEvenMonotone | streamlit/risk_preference.py:180 | rounding is monotone |
| RiskPreference.FinalScore | streamlit/risk_preference.py:176-180 | the rounded normalised score; its contract is `RiskPreference.FinalScoreInRange` and `RiskPreference.FinalScoreTies` |
| RiskPreference.FinalScoreInRange | streamlit/risk_preference.py:176-180 | a total in 0..80 gives a score in 0..10, a key of the risk-aversion table |
| RiskPreference.FinalScoreTies | streamlit/risk_preference.py:180 | total 20 scores 2 and total 28 scores 4 |
| RiskPreference.Classify | streamlit/risk_preference.py:193-208 | <=3 Conservative, 4-6 Moderate, 7-8 Growth-Oriented, >=9 Aggressive, each an if-and-only-if |
| RiskPreference.ClassifyMonotone | streamlit/risk_preference.py:193-208 | a higher score never gives a more cautious profile |
| RiskPreference.Progress | streamlit/risk_preference.py:222 | the progress value is in [0, 1] and ten times it is the score |
| RiskPreference.Recorded | streamlit/risk_preference.py:133-165 | the answers dictionary's keys are the old keys plus the answered ids |
| RiskPreference.RecordedEntries | streamlit/risk_preference.py:143-165 | each answered id holds its answer's points, every other entry is unchanged |
| RiskPreference.SumFromBounded | streamlit/risk_preference.py:176 | eight answers worth 0..10 add up to 0..80 |
| RiskPreference.TotalScore | streamlit/risk_preference.py:176 | `sum(answers.values())`; its contract is `RiskPreference.SumFromBounded` and `RiskPreference.TotalOfAnswers` |
| RiskPreference.TotalOfAnswers | streamlit/risk_preference.py:133-176 | once all eight are answered, the total is the sum of the answers' points, whatever was stored before |
| RiskPreference.Session.constructor | streamlit/risk_preference.py:41-44 | a fresh session has no answers, is not submitted and holds no score |
| RiskPreference.AnswerQuestions | streamlit/risk_preference.py:133-167 | the loop stores each question's points under its id and changes nothing else |
| RiskPreference.Evaluate | streamlit/risk_preference.py:174-211 | stores the score (rounded total / 80 x 10, in 0..10) and its profile in the session |
| RiskPreference.Retake | streamlit/risk_preference.py:233-236 | empties the answers and clears the submitted flag, keeping the stored score |
| RiskPreference.QuestionnaireRun | streamlit/risk_preference.py:133-236 | results are shown exactly when submitted; then score, profile and progress follow from the answers' points; the answers are the eight recorded inputs, or empty after a retake |
| ErcPage.PageProfile | streamlit/ERC_portfolio.py:35-46 | the page's profile chain; its contract is `ErcPage.PageProfileIsClassify` |
| ErcPage.PageProfileIsClassify | streamlit/ERC_portfolio.py:35-46 | the page's thresholds are those of the questionnaire |
| ErcPage.AdviceFor | streamlit/ERC_portfolio.py:60-70 | info exactly for scores <= 6, warning for 7-8, error for >= 9 |
| ErcPage.AdviceMatchesProfile | streamlit/ERC_portfolio.py:35-70 | the advice always describes the displayed profile |
| ErcPage.ErcPageRun | streamlit/ERC_portfolio.py:10-57 | the stored score becomes the slider value; profile and progress follow from it |
| ErcPage.SliderStartInRange | streamlit/ERC_portfolio.py:11-19 | the slider starts within 0..10, at 5 when no score is stored |
| Contact.SkipSpaces | streamlit/Contact.py:272 | the left scan of `strip()` skips only whitespace (the characters `str.isspace` accepts) and stops at the first other character |
| Contact.SkipSpacesBack | streamlit/Contact.py:272 | the right scan cuts off only trailing whitespace and stops after the last other character |
| Contact.Strip | streamlit/Contact.py:272 | `str.strip()`; its contract is `Contact.StripShape` and `Contact.StripEmptyIff` |
| Contact.StripShape | streamlit/Contact.py:272 | `strip()` keeps the middle between whitespace ends, starting and ending with non-whitespace |
| Contact.StripEmptyIff | streamlit/Contact.py:272 | the stripped string is empty exactly when the input is all whitespace |
| Contact.IndexOf | streamlit/Contact.py:266 | `list.index` returns the first position of the element |
| Contact.DefaultIsSwitzerland | streamlit/Contact.py:265-267 | the country box opens on "Switzerland (+41)" |
| Contact.SwitzerlandListed | streamlit/Contact.py:219 | the dictionary lists Switzerland with code +41 |
| Contact.Lookup | streamlit/Contact.py:273 | the lookup fails exactly for a key the dictionary lacks |
| Contact.LookupOption | streamlit/Contact.py:265-273 | every option of the box is a key, and its lookup yields that entry's code |
| Contact.FullPhone | streamlit/Contact.py:271-273 | set exactly when the local number has non-whitespace content, then code + " " + stripped number |
| Contact.EmailAccepted | streamlit/Contact.py:320-324 | the e-mail check; its contract is `Contact.EmailAcceptedIffPattern` |
| Contact.EmailAcceptedMatches | streamlit/Contact.py:320-324 | every accepted e-mail matches the pattern |
| Contact.MatchesEmailAccepted | streamlit/Contact.py:320-324 | every e-mail matching the pattern is accepted |
| Contact.EmailAcceptedIffPattern | streamlit/Contact.py:320-324 | the check accepts exactly the strings the pattern matches |
| Contact.Submit | streamlit/Contact.py:319-357 | the submission chain; its contract is `Contact.SubmitOutcome` and `Contact.SummaryLines` |
| Contact.SubmitOutcome | streamlit/Contact.py:319-330 | exactly one outcome, in priority order: missing field, invalid e-mail, missing consent, recorded |
| Contact.BlankFieldsPass | streamlit/Contact.py:322 | a name and a message made of blanks pass the required-field check |
| Contact.Summary | streamlit/Contact.py:346-357 | seven lines with a phone number and six without: name and e-mail first, then the phone line when given, the attachment line last |
| Contact.SummaryLines | streamlit/Contact.py:346-357 | a phone line exactly when a number is given; the last line names the attachment or says "None" |

## Left out

- **The SLSQP optimiser** is a function parameter. It is only assumed to return weights in [0, 1] that sum to one, for the same assets. Neither ERC optimality nor the limits of the mean-variance solution as gamma goes to 0 or infinity are claimed. For the mean-variance portfolio the oracle receives the raw lookback rows. The estimation of the annualised means and covariance from them (`lookback_data.mean() * 252` and `lookback_data.cov() * 252`, streamlit/utils/utilities.py:282-283 and streamlit/utilities.py:302-303) is part of the oracle and is not modelled.
- **Square roots and standard deviations** are oracles. `np.sqrt` is a parameter whose result squares back to its argument. The annualised volatility (sample std times the square root of 252) is a parameter of the performance figures.
- **Floating point.** Arithmetic is exact. Rounding errors are not modelled, for example in the q6 percentage/10 answers near a .5 tie of the score.
- **NaN** is `None`. numpy's inf from a zero previous price, or from a zero portfolio volatility, is also `None`.
- **Downloads and files are not modelled.** The model takes the price tables as inputs. The yfinance downloads, CSV reads and writes, and the import-time call of `importer_data` are left out.
- **pandas calendar mechanics are left out.** Dates are plain triples. No timestamp parsing, `DateOffset` or index assignment is modelled, and neither is the `Date` column that `dailyreturns` moves into the index.
- **Plotting, drawdowns and UI.** Plotting is left out, as are the pages without logic (home, methodology, team, navigation, CSS) and the chat page's external text-generation call. The drawdown and monthly risk-contribution analytics are also left out: the functions test.py calls for them are not defined in the sources.
- **Widget bounds become preconditions.** A slider value, a radio option index, or a country that is an option of the select box is within range by the widget's construction. Radio answers are option indices; the option labels are left out.
- **The older `meanvar_portfolio`** without a weight table (streamlit/utilities.py:279-345) runs the same month loop; it is covered by `MeanVariance.MonthLoop`'s return lists. The duplicated performance and ESG functions of streamlit/utilities.py are identical to the modelled ones.
- **Combiner.Concat** takes the row order of the first selected series. Where the series' dates differ, pandas' `concat` sorts the union of the dates.
- **Combiner.ValueOn** uses the first observation of a duplicated date.
- **Performance.Lookup** uses the first of duplicated column names. pandas would return all of them.
- **MeanVariance.WeightDict** collides if an asset is named 'date': its weight overwrites the date. That case is not treated separately.
- **ErcBacktest.StoredRow** requires stored weights to be non-negative, as the optimiser's bounds make them. A weight row edited by hand is not modelled.
- **Drift.Replay** requires every daily return to be above -100%. `ReturnsTransform.ColumnReturnsAboveMinusOne` proves this for positive prices.
- **Contact.Lookup** returns the first entry with the key. The dictionary's keys are distinct; this is not proved over the whole 194-entry list.
- **Retake** keeps `risk_score` and `risk_profile` in the session. The model states this as the code's behaviour.
