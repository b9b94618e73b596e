# Verification model of the research-signals engine

This project models the decision, data and research code of `packages/research-signals/src` and the observation log of
`apps/web/app/signal-observations.ts` in Dafny, and proves what that code promises across functions, profiles and whole
runs. `dafny verify dfyconfig.toml` checks the whole project.

## What is modelled

**Decision engines.** `Confluence.dfy` has the four scoring modules, the two risk scores, the vetoes, the risk filters
and the verdict of `evaluateConfluence`, over the threshold tables of `Profiles.dfy`. `ConfluenceLaws.dfy` compares two
evaluations: one input under two profiles, and an input with its mirror image; `ConfluenceReadings.dfy` says which way
each score, risk and veto points, and exactly when a side is emitted. `SignalEngine.dfy` has the short-window signal
engine and the proof that its penalties never turn an actionable side around; `CrossedQuote.dfy` has a quote for which
they do, and `SignalReadings.dfy` says which candles each feature reads and exactly when a side is emitted. `Rounding.dfy` defines `toFixed` once and proves it to be the rule of ECMA-262 section 21.1.3.3.

**Candle pipeline.** `Aggregate.dfy` has the streaming aggregation, proved equal to a group-by. `History.dfy` has the
page loop of the historical download for any server; `HistoryLaws.dfy` compares it with one big query.
`MarketDataKlines.dfy` has the cache coverage rule and what a chart request downloads with the default pages.

**Stateful protocols.** `RealtimeClient.dfy` has the WebSocket client as a class whose handlers refine a step function,
and invariants of every run. `CaptureScheduler.dfy` has `runDueJobs` as a method and as a system of interleaved calls.
`StoreTables.dfy` and `ResearchStore.dfy` have the JSON-lines store with its files, and the SQLite store's bounded
duplicate query. `SignalObservations.dfy` has the observation log.

**Replay and statistics.** `WindowEngine.dfy` and `Replay.dfy` have the short-window walk and its settlement, and
`ReplayLookahead.dfy` what its results may depend on; `ReplayMetrics.dfy` labelling, counts and drawdown;
`Indicators.dfy` the EMA, MACD and RSI loops; `ParameterGrid.dfy` the seven nested loops of the strategy lab.

Prices, scores and rates are reals, times are integer milliseconds, and candle volumes are integers in units of 1e-8.
A method that the source writes as a loop or as an update of fields is a method here, proved equal to a specification
function; the laws are lemmas about that function.

## Where the code does not do what one would expect

Each of these is a theorem about the code as written, with the exact condition under which the expected law holds.

- The mirror law of the confluence engine fails when abnormal volume has a negative z-score, because only the falling
  branch takes its absolute value. `MirrorExactly`: on snapshots of the program it holds if and only if abnormal volume
  under a moving price has a z-score that is not negative.
- Data of status "conflicted" is not vetoed: `ConflictedDataIsEmitted` gives an input that is emitted LONG while its
  data-freshness filter says block. `EmittedIsAligned` proves that "ok" and "conflicted" are the only statuses emitted.
- The veto on price against volume never applies (`PriceNeverOpposesVolume`), because volume is scored with the sign of
  the very return it is compared with; the reversal veto adds to the conflict veto only for a trend without any
  momentum (`ReversalVetoNeedsDisagreement`).
- A crossed quote turns a short-window side around (`CrossedQuoteFlips`). `PenaltyExactly`: for a given spread and
  volatility no side is ever turned around if and only if the rounded penalty is below the noise threshold, which
  `PenaltiesNeverFlip` establishes from bid <= ask.
- A download is complete if and only if each page that holds wanted rows is within the page budget, does not fail, and
  begins an interval or more after the last row of the page before it (`PagedEqualsUnpaged`, for the limit, the budget
  and the failures of the call). A month counts as thirty days, so a page that ends with February skips the month after
  it: `MonthlyCandlesAreLost` loses a month with one row per page, and loses none with the default limit, under which
  the two share a page.
- The eighty-percent rule of the cache is redundant if and only if the range is not exactly three, four or five
  intervals long (`CountTestExactly`).
- A chart request downloads every closed candle of its range with the default eighty pages, from any series of candles
  of its interval, if and only if it is not for ten-minute candles over a quarter, which need 130 pages of one-minute
  candles, and, over everything, spans fewer than 80001 intervals (`DefaultPagesExactly`).
- The WebSocket client keeps to one connection if and only if every start comes when no socket is live and no
  reconnect is pending (`SingleExactlyWhenStartsIdle`); `RestartTooSoonDoubles` is a run with two connections.
  A stopped client keeps a stale check if and only if some start came while it was running (`StaleAfterStopExactly`).
- The bounded duplicate query of the SQLite store agrees with the full one on every record of a key if and only if at
  most ten rows of that key are stored (`BoundedScanExactly`), and always on runs in time order (`StoresAgreeOnRuns`).
- Under an average rule, a replayed result is independent of how the candles that are open at the end of its window
  will close if and only if the window is not settled or neither averaging range reads such a candle
  (`AverageRuleExactly`). On minute candles, which the program downloads for a replay, and with a start average that ends
  within the window, that is always so (`MinuteReplayDoesNotLookAhead`); on fifteen-minute candles the same signal wins
  or loses by a candle that is open for ten more minutes (`AverageRuleLooksAhead`). Under an end-price rule no result
  looks ahead (`ResultsDoNotLookAhead`).
- Under an end-price rule, the replayed start reference is the price at signal time, not at the window's opening, so
  the distance is zero (`StartReferenceIsSignalPrice`).
- The ids of the returned parameter grid are distinct if and only if no list prints two values alike of which the grid,
  cut at its limit, reaches the later one (`IdsDistinctExactly`). With spreads 0.101 and 0.104 and all else at its
  default, two ids are equal (`CloseSpreadsShareIds`); when the accepted spreads and confidences have at most two
  decimals, as the defaults have, all are distinct (`TwoDecimalOptionsHaveDistinctIds`).
- The RSI of a series and of its reflection add up to 100 if and only if the series moves (`RsiReflects`); of a flat
  series both are 100.

## Model

| member | source | states |
|---|---|---|
| Rounding.HalfAwayIsTheStandard | packages/research-signals/src/confluence.ts:409-411 | An integer is the rounding of y if and only if no integer is nearer and it beats every equally near one by being further from zero |
| Rounding.HalfAwayOdd | packages/research-signals/src/confluence.ts:409-411 | Rounding commutes with negation |
| Rounding.HalfAwayMonotone | packages/research-signals/src/confluence.ts:409-411 | Rounding keeps the order of numbers |
| Rounding.Round4Odd | packages/research-signals/src/confluence.ts:409-411 | Rounding to four decimals commutes with negation |
| Rounding.Round4Near | packages/research-signals/src/confluence.ts:409-411 | Rounding to four decimals moves a number by at most half a unit of the fourth decimal |
| Rounding.Round4Idempotent | packages/research-signals/src/confluence.ts:409-411 | A rounded number is not moved by rounding again |
| Profiles.TablesStepDown | packages/research-signals/src/profiles.ts:27-136 | From each profile to the next looser one every gate loosens, the volume weight drops by 0.02, the score threshold by at least 0.05 and the confidence minimum by at least 0.06, for both horizons |
| Profiles.TablesSound | packages/research-signals/src/profiles.ts:27-136 | In all six tables the two thresholds are opposite, at least 0.6 in size, and the confidence minimum is positive |
| Confluence.VetoList | packages/research-signals/src/confluence.ts:41-47 | A veto is in the list if and only if it holds for the input, the scores and the thresholds |
| Confluence.FailClosedVetoes | packages/research-signals/src/confluence.ts:413-415 | Each given fail-closed text becomes one veto, however often it is given, except the empty text |
| Confluence.Penalised | packages/research-signals/src/confluence.ts:55-57 | The penalised score stays within -1 and 1, whatever the base score |
| ConfluenceLaws.PenaltyPulls | packages/research-signals/src/confluence.ts:55-57 | A base score within -1 and 1 is moved by exactly the penalty, downwards from above zero and upwards from below, and a zero score is not moved |
| Confluence.FilterVetoReasons | packages/research-signals/src/confluence.ts:261-328 | The pushed reasons are exactly the filters that hold, in the order of the source |
| Confluence.EvaluateConfluence | packages/research-signals/src/confluence.ts:31-112 | The evaluation by pushes and reassigned verdicts is the function that the laws of the next module are about |
| ConfluenceLaws.ScoresInRange | packages/research-signals/src/confluence.ts:114-259 | Each module score is zero or within its band, the reversal risk is at most 0.8 and the chop risk at most 1 |
| ConfluenceLaws.VetoesShrink | packages/research-signals/src/confluence.ts:261-328 | Looser thresholds only remove vetoes, for any scores |
| ConfluenceLaws.DecisionNests | packages/research-signals/src/confluence.ts:49-82 | For any scores in range and any two threshold tables that step down, the verdict of the stricter is the verdict of the looser |
| ConfluenceLaws.ProfileNesting | packages/research-signals/src/confluence.ts:31-112 | For every input and horizon, a LONG or SHORT of a profile is emitted in the same direction by the next looser profile, with a confidence lower by at most 0.0139, although the smaller volume weight lowers its score |
| ConfluenceLaws.ConservativeWithinAggressive | packages/research-signals/src/profiles.ts:27-136 | What the conservative profile emits, the aggressive profile emits in the same direction |
| ConfluenceLaws.TrendMirrors | packages/research-signals/src/confluence.ts:114-135 | The trend score of the mirrored market is the negated one |
| ConfluenceLaws.MomentumMirrors | packages/research-signals/src/confluence.ts:137-156 | The momentum score of the mirrored market is the negated one |
| ConfluenceLaws.VolatilityMirrors | packages/research-signals/src/confluence.ts:158-182 | The volatility score of the mirrored market is the negated one |
| ConfluenceLaws.VolumeMirrors | packages/research-signals/src/confluence.ts:184-214 | The volume score of the mirrored market is the negated one if and only if abnormal volume under a moving price has a z-score that is not negative |
| ConfluenceLaws.ReversalMirrors | packages/research-signals/src/confluence.ts:216-235 | The mean-reversion risk is the same for the mirrored market |
| ConfluenceLaws.ChopMirrors | packages/research-signals/src/confluence.ts:237-259 | The chop risk is the same for the mirrored market |
| ConfluenceLaws.VetoMirrors | packages/research-signals/src/confluence.ts:261-328 | Every veto holds for the mirrored market and scores exactly when it holds for the original |
| ConfluenceLaws.ContextMirrors | packages/research-signals/src/confluence.ts:389-395 | The context score of mirrored news, sentiment and macro state is the negated one |
| ConfluenceLaws.MirrorAntisymmetry | packages/research-signals/src/confluence.ts:31-112 | Mirroring the market swaps LONG and SHORT, negates the total and the module scores and keeps confidence, vetoes, risk scores and risk filters, provided the volume condition holds |
| ConfluenceLaws.MirrorExactly | packages/research-signals/src/indicators.ts:187-201 | On snapshots whose abnormal flag is computed as the program does, the mirror law holds if and only if the volume condition does |
| ConfluenceLaws.NegativeVolumeShows | packages/research-signals/src/confluence.ts:184-214 | Abnormal volume with a negative z-score under a moving price breaks the mirror law even after rounding |
| ConfluenceLaws.ConfidenceDecides | packages/research-signals/src/confluence.ts:58-82 | There is no direction exactly when the confidence is zero; otherwise it reaches the profile minimum and is at most 0.9 |
| ConfluenceLaws.WeakScoresStayBelow | packages/research-signals/src/confluence.ts:49-56 | A base score near the lowest threshold needs a trend of at least 0.35, or none at all with momentum of at least 0.55, and without momentum no volume against it |
| ConfluenceLaws.EmittedIsAligned | packages/research-signals/src/confluence.ts:41-82 | Under every profile and horizon an emitted side has no veto, trend at least 0.35 and volatility at least 0.18 on its side, momentum and volume not against it, no blocking volatility, chop or conflict filter, and data that is ok or conflicted |
| ConfluenceLaws.ConflictedDataIsEmitted | packages/research-signals/src/confluence.ts:272-277 | Only stale and insufficient data are vetoed: this conflicted input is emitted LONG while its freshness filter blocks |
| ConfluenceReadings.TrendPoints | packages/research-signals/src/confluence.ts:114-135 | The trend is positive exactly when fast average over slow one, slope and price over slow one all exceed their margins, and negative exactly in the reflected case |
| ConfluenceReadings.TrendGrows | packages/research-signals/src/confluence.ts:119-124 | With wider margins a rising trend is never scored lower |
| ConfluenceReadings.TrendSaturates | packages/research-signals/src/confluence.ts:119-124 | A trend whose three readings reach their scales is full |
| ConfluenceReadings.MacdReads | packages/research-signals/src/confluence.ts:142-149 | The MACD counts fully exactly when histogram and slope agree in sign, a quarter with the sign of the histogram when they do not, and not at all exactly from a zero histogram |
| ConfluenceReadings.MomentumGrows | packages/research-signals/src/confluence.ts:137-156 | Higher returns and a stronger MACD never lower the momentum |
| ConfluenceReadings.MomentumWeights | packages/research-signals/src/confluence.ts:141-150 | Returns at their scales carry 0.62 of the momentum, the MACD 0.38, with or against them |
| ConfluenceReadings.EachReturnCounts | packages/research-signals/src/confluence.ts:138-141 | Each return that alone reaches its own scale moves the momentum by a third of 0.62 |
| ConfluenceReadings.VolatilityPoints | packages/research-signals/src/confluence.ts:158-182 | Volatility is 0.65 up exactly above the band and down exactly below it while the band expands, zero in a quiet market, and otherwise points with the stronger of momentum and trend, by 0.35 in a normal and 0.18 in a high regime |
| ConfluenceReadings.VolumePoints | packages/research-signals/src/confluence.ts:184-214 | Volume is scored exactly under a moving price when abnormal or above 0.4 deviations, with the sign of the five-minute return, at least 0.55 exactly when abnormal and 0.24 otherwise |
| ConfluenceReadings.VolumeGrows | packages/research-signals/src/confluence.ts:184-191 | More abnormal volume under a rise is never scored lower, up to 0.9 |
| ConfluenceReadings.StretchRaisesRisk | packages/research-signals/src/confluence.ts:216-235 | In a market that leans up a higher RSI or band position never lowers the reversal risk; in one that leans down it never raises it |
| ConfluenceReadings.ReversalReads | packages/research-signals/src/confluence.ts:216-235 | The reversal risk is zero exactly when neither RSI nor band is stretched on the market's own side, and 0.8 exactly when both are far stretched; without a lean only an extreme RSI counts |
| ConfluenceReadings.ChopReads | packages/research-signals/src/confluence.ts:237-259 | There is no chop risk exactly without any of the six signs, and each sign alone counts its own amount |
| ConfluenceReadings.ChopGrows | packages/research-signals/src/confluence.ts:237-259 | More signs of chop never lower the risk |
| ConfluenceReadings.ContextReads | packages/research-signals/src/confluence.ts:389-395 | Better news, sentiment and macro state never lower the context score; each counts by its weight until the cap |
| ConfluenceReadings.PriceNeverOpposesVolume | packages/research-signals/src/confluence.ts:317-320 | For every input, the veto on price against volume never applies, since volume is scored with the sign of the same return |
| ConfluenceReadings.EvaluatedVetoes | packages/research-signals/src/confluence.ts:41-47 | The vetoes of an evaluation are exactly those that hold for its own scores and the thresholds of its profile and horizon |
| ConfluenceReadings.ReversalVetoNeedsDisagreement | packages/research-signals/src/confluence.ts:297-299 | The reversal veto needs a trend, and either no momentum or one that the conflict veto forbids already; an agreeing momentum escapes it |
| ConfluenceReadings.VetoesRead | packages/research-signals/src/confluence.ts:291-323 | The conflict, participation, quietness and trend-alignment vetoes as statements about signs of products and ranges of the readings |
| ConfluenceReadings.FlatTrendReads | packages/research-signals/src/confluence.ts:281-287 | At a positive price the flat-trend veto is about the slope and the gap of the averages as parts of the price, unless the momentum is strong |
| ConfluenceReadings.FlatMacdReads | packages/research-signals/src/confluence.ts:283-290 | At a positive price the flat-MACD veto is about the histogram as a part of the price, or of the range when there is one, unless the momentum is strong |
| ConfluenceReadings.WildnessReads | packages/research-signals/src/confluence.ts:294-326 | The vetoes on wildness, missing volume confirmation and chop as ranges; with the scored volatility, the breakout veto applies exactly to a breakout against the trend, or without a trend to one that the momentum does not follow |
| ConfluenceReadings.FiltersAgreeWithVetoes | packages/research-signals/src/confluence.ts:330-359 | The chop filter blocks exactly when the chop veto applies, the volatility filter blocks exactly in a quiet market, which is vetoed, and each watches and passes in the stated ranges |
| ConfluenceReadings.ConfirmationReads | packages/research-signals/src/confluence.ts:345-349 | The conflict filter blocks exactly when some veto of the evaluation tells of a conflict; volume is confirmed exactly when abnormal under a moving price, and missing exactly when not scored |
| ConfluenceReadings.OverboughtIsWatched | packages/research-signals/src/confluence.ts:216-359 | A rising market is marked for mean reversion exactly when RSI is above 72, or above 66 with the band above 0.82 |
| ConfluenceReadings.EmitsExactly | packages/research-signals/src/confluence.ts:49-81 | A side is emitted if and only if no veto applies, the total has crossed its threshold and the confidence that belongs to the total reaches the minimum |
| ConfluenceReadings.ConfidenceGrows | packages/research-signals/src/confluence.ts:58-80 | Better data, lower risks, a stronger volume, a calmer regime and a larger total never lower the confidence |
| ConfluenceReadings.ConfidenceParts | packages/research-signals/src/confluence.ts:68-79 | What data quality, volume and regime are worth in the confidence |
| ConfluenceReadings.RiskCosts | packages/research-signals/src/confluence.ts:56-79 | What a full reversal risk and a full chop risk cost in score and confidence |
| ConfluenceReadings.RiskOnlyHurts | packages/research-signals/src/confluence.ts:49-82 | For given other scores, what is emitted at higher risks is emitted at lower ones, on the same side, with a total and confidence at least as strong |
| ConfluenceReadings.StretchOnlyHurts | packages/research-signals/src/confluence.ts:31-112 | With all else equal, a LONG emitted at some RSI is emitted at every lower one and a SHORT at every higher one, at least as strongly |
| ConfluenceReadings.EmittedFollowsTheMarket | packages/research-signals/src/confluence.ts:31-135 | A LONG of the whole evaluation is a market whose averages and price rise by their margins; a SHORT is the reflected market |
| SignalEngine.RealizedVolatilityBps | packages/research-signals/src/short-window/signal-engine.ts:213-232 | The loops compute the root of the mean squared deviation of the close-to-close returns, skipping zero closes, and nothing for too short a series |
| SignalEngine.CollectReturns | packages/research-signals/src/short-window/signal-engine.ts:217-225 | The loop pushes one return per step of the series, skipping a zero previous close |
| SignalEngine.RejectReasons | packages/research-signals/src/short-window/signal-engine.ts:15-34 | The pushed reject reasons are exactly the gates that fail, in order |
| SignalEngine.GenerateShortWindowSignal | packages/research-signals/src/short-window/signal-engine.ts:9-95 | The chain of early returns is the function that the penalty laws are about |
| SignalEngine.FlippedScoreIsSmall | packages/research-signals/src/short-window/signal-engine.ts:204-211 | A score across zero from the unpenalised one is at most the rounded penalty in size |
| SignalEngine.PenaltyBelowNoise | packages/research-signals/src/short-window/signal-engine.ts:31-94 | Behind the spread and volatility gates the rounded penalty stays below the noise threshold by 1.4999 basis points |
| SignalEngine.PenaltyExactly | packages/research-signals/src/short-window/signal-engine.ts:187-211 | For a given spread and volatility, every actionable side agrees with the unpenalised score, whatever distance, momentum, body, cap and minimum, if and only if the rounded penalty is below the noise threshold |
| SignalEngine.PenaltiesNeverFlip | packages/research-signals/src/short-window/signal-engine.ts:31-94 | With bid <= ask every LONG_UP and LONG_DOWN of the whole engine has the sign of the unpenalised score, rounding included |
| CrossedQuote.CrossedQuoteFlips | packages/research-signals/src/short-window/signal-engine.ts:204-211 | With a crossed quote, the event that the window engine builds from two ticks and a candle goes LONG_UP although its unpenalised score is below zero |
| SignalEngine.ActionablePassesEveryGate | packages/research-signals/src/short-window/signal-engine.ts:9-95 | An actionable side means a verified rule, both prices, fresh data, spread and volatility within their limits, an open window or its decision zone, a score that reaches the noise threshold, no reject reason, and a confidence between the minimum and the cap of the rule |
| SignalReadings.MomentumReads | packages/research-signals/src/short-window/signal-engine.ts:165-190 | From candles in any order with distinct times: momentum compares the close of the candle after which none opened with that of the candle after which exactly three opened, or of the earliest one when there are fewer than four; the body is that of the same last candle |
| SignalReadings.NoCandlesNoMomentum | packages/research-signals/src/short-window/signal-engine.ts:178-186 | Without candles the momentum is the distance, and there is neither body nor volatility |
| SignalReadings.VolatilityReads | packages/research-signals/src/short-window/signal-engine.ts:182-182 | The volatility is that of exactly the candles after which fewer than nine opened, in opening order |
| SignalReadings.FreshnessReads | packages/research-signals/src/short-window/signal-engine.ts:169-173 | With a tick, the market is stale exactly when the tick is older than the limit; without one, exactly when every candle is |
| SignalReadings.SpreadReads | packages/research-signals/src/short-window/signal-engine.ts:174-177 | The spread is twice the half-width relative to the middle; the market's own quote goes before that of the tick |
| SignalReadings.NoiseReads | packages/research-signals/src/short-window/signal-engine.ts:187-190 | The noise threshold lies between 2 and 35 and grows with spread and volatility |
| SignalReadings.PenaltyReads | packages/research-signals/src/short-window/signal-engine.ts:208-210 | The penalty grows with spread and volatility, the latter above 35 only |
| SignalReadings.ScoreReads | packages/research-signals/src/short-window/signal-engine.ts:204-211 | The score is the rounded weighted sum less the penalty against its lead: under a positive lead more penalty never raises it, under a negative one never lowers it, without a lead it does nothing |
| SignalReadings.ScorePenalised | packages/research-signals/src/short-window/signal-engine.ts:204-211 | A penalty of one moves a score of ten to nine on either side of zero |
| SignalReadings.CapsRead | packages/research-signals/src/short-window/signal-engine.ts:234-245 | The confidence caps of the four kinds of rules |
| SignalReadings.ConfidenceReads | packages/research-signals/src/short-window/signal-engine.ts:54-56 | A score of three times the noise has the confidence of the cap, one of half that has one half, and a stronger score never has less |
| SignalReadings.ActionableExactly | packages/research-signals/src/short-window/signal-engine.ts:9-95 | A side is emitted if and only if all gates are open, the score reaches the noise threshold on that side and its confidence reaches the minimum; that is then the confidence of the signal |
| SignalReadings.GradeExactly | packages/research-signals/src/short-window/signal-engine.ts:53-94 | Behind the gates: which scores are below noise, which lack confidence and which are emitted, with the confidence reported for each |
| SignalReadings.WaitsRead | packages/research-signals/src/short-window/signal-engine.ts:39-51 | Each wait in front of the score, with its reason and confidence |
| Aggregate.StatsSummarise | packages/research-signals/src/ohlcv/aggregate.ts:37-59 | The stats of a bucket are its first open, an attained maximum high, an attained minimum low, its last close, its total volume, and closed when all are |
| Aggregate.Flush | packages/research-signals/src/ohlcv/aggregate.ts:37-59 | Flushing appends the summary of the open bucket and one warning if the bucket is short |
| Aggregate.StreamSorted | packages/research-signals/src/ohlcv/aggregate.ts:61-87 | The streaming loop yields one candle per run of equal buckets, and warns of exactly the gaps and the short runs, without repeats |
| Aggregate.AggregateCandlesToInterval | packages/research-signals/src/ohlcv/aggregate.ts:9-87 | For candles in any order: the derived candles, an error for an interval that does not derive, a gap warning for exactly the candles after a gap, and a partial warning with the right count for exactly the buckets with fewer candles than expected |
| Aggregate.ShortsExactly | packages/research-signals/src/ohlcv/aggregate.ts:41-43 | In sorted candles the short runs are exactly the buckets whose number of candles, counted over the whole input, is positive and below the expected number |
| Sorting.UniqueIsDistinct | packages/research-signals/src/ohlcv/aggregate.ts:93-95 | Dropping repeats keeps every distinct value exactly once |
| Aggregate.DerivedGroupsBy | packages/research-signals/src/ohlcv/aggregate.ts:17-87 | For candles in any order, there is one candle per non-empty bucket, in increasing order, each the summary of exactly the candles of its bucket in opening order |
| Aggregate.DerivedVolume | packages/research-signals/src/ohlcv/aggregate.ts:53-54 | The derived candles have the total volume of the input |
| Aggregate.BucketsCompose | packages/research-signals/src/ohlcv/aggregate.ts:61-81 | Bucketing buckets through an interval that divides the target is bucketing directly, with any gaps |
| Aggregate.DerivingComposes | packages/research-signals/src/ohlcv/aggregate.ts:17-87 | Deriving in two steps gives the same candles as deriving directly, whenever the first interval divides the second and the second the target |
| Aggregate.BucketCovers | packages/research-signals/src/ohlcv/aggregate.ts:61-66 | The bucket of a candle starts at the one multiple of the target interval whose interval contains the candle's opening |
| Aggregate.DerivedReads | packages/research-signals/src/ohlcv/aggregate.ts:17-87 | For candles in any order, each derived candle opens on a multiple of its interval and summarises exactly the input candles that open within it, and every input candle opens within one |
| Aggregate.DerivableOrder | packages/research-signals/src/ohlcv/aggregate.ts:18-26 | Nothing derives from itself, nor from what derives from it |
| Aggregate.DerivableTable | packages/research-signals/src/ohlcv/aggregate.ts:18-26 | Every longer interval derives from one-minute candles, a month from all but weeks, fifteen minutes only from one and five |
| Candles.IntervalTable | packages/research-signals/src/ohlcv/binance-spot.ts:45-56 | The interval lengths in terms of each other, a month counting thirty days |
| History.ParseKlinesPage | packages/research-signals/src/ohlcv/binance-history.ts:187-217 | A page keeps exactly its rows closed at request time, in order |
| History.PutRows | packages/research-signals/src/ohlcv/binance-history.ts:93-95 | Putting the rows of a page one by one is putting them all |
| History.PageLimit | packages/research-signals/src/ohlcv/binance-history.ts:66-66 | The page limit is the option where it lies between one and a thousand, the nearer bound where it does not, and a thousand without an option |
| History.DownloadPages | packages/research-signals/src/ohlcv/binance-history.ts:70-108 | The page loop ends with the rows, the cursor and the failure of the walk over the server, the last row winning for each opening time |
| History.FetchHistoricalKlines | packages/research-signals/src/ohlcv/binance-history.ts:47-128 | The download returns what the walk concludes, or the error of an empty range or of an interval that is not served |
| HistoryLaws.ResultIsClean | packages/research-signals/src/ohlcv/binance-history.ts:66-128 | Whatever the server answers, the candles are strictly ascending, inside the range, closed and taken from a page |
| HistoryLaws.PageStep | packages/research-signals/src/ohlcv/binance-history.ts:90-107 | After a page of any series the cursor has moved on and still wants what opens an interval or more after the last row of the page, which is exactly the rest if and only if the joint after the page holds |
| HistoryLaws.WalkRowsAscend | packages/research-signals/src/ohlcv/binance-history.ts:74-108 | From any series, with failing pages and any budget, the rows come in strictly ascending order from the cursor on, and the walk never stalls |
| HistoryLaws.WalkIsPrefix | packages/research-signals/src/ohlcv/binance-history.ts:74-108 | When each page begins an interval or more after the last row of the one before, the walk yields a prefix of the one big query whatever pages fail |
| HistoryLaws.CompleteExactly | packages/research-signals/src/ohlcv/binance-history.ts:74-108 | From any series, for the limit, budget and failures of the call: the walk yields the whole query if and only if each page that holds wanted rows is within the budget, does not fail, and begins an interval or more after the last row of the page before it |
| HistoryLaws.WalkIsComplete | packages/research-signals/src/ohlcv/binance-history.ts:74-108 | When no page fails, all joints hold and the pages have room for the wanted rows, the walk yields the whole query |
| HistoryLaws.SpacedIsComplete | packages/research-signals/src/ohlcv/binance-history.ts:74-108 | For wanted rows an interval apart and no failures, (end - start) / (limit * interval) + 1 pages yield the whole query |
| HistoryLaws.PagedEqualsUnpaged | packages/research-signals/src/ohlcv/binance-history.ts:66-128 | From any series the returned candles are the one big query if and only if every page that holds wanted rows is served; when all joints hold they are a prefix of it whatever fails; and pagination never stalls |
| HistoryLaws.CompleteExactlyWhenSpaced | packages/research-signals/src/ohlcv/binance-history.ts:97-107 | Over all page limits together, with enough pages each and no failures, the download is complete if and only if the wanted rows open at least an interval apart |
| HistoryLaws.OneRowPagesAreSpaced | packages/research-signals/src/ohlcv/binance-history.ts:97-107 | With one row per page the walk only yields rows an interval apart, whatever the series |
| HistoryLaws.MonthlyCandlesAreLost | packages/research-signals/src/ohlcv/binance-spot.ts:45-56 | With a page limit of one, the month after February is lost however many pages there are, because a month counts as thirty days; with the default limit the same two months are downloaded whole |
| HistoryLaws.RowsFitThePages | packages/research-signals/src/ohlcv/binance-history.ts:74-108 | A walk yields at most its pages times the page limit |
| History.LastOpenIsLatest | packages/research-signals/src/ohlcv/binance-history.ts:97-97 | Whatever the order of a page, the cursor moves past the latest of its opening times |
| History.PageBudget | packages/research-signals/src/ohlcv/binance-history.ts:68-68 | The page budget is the option, none for a negative one, and eighty without an option |
| HistoryLaws.TurnsOn | packages/research-signals/src/ohlcv/binance-history.ts:74-108 | One turn of the loop: it ends at an empty page, and otherwise goes on an interval after the page's last row with everything else handed on |
| HistoryLaws.StopsForAReason | packages/research-signals/src/ohlcv/binance-history.ts:74-108 | With the joints in order, a walk that reports no failure and has passed the end has the whole query |
| HistoryLaws.FailureIsReported | packages/research-signals/src/ohlcv/binance-history.ts:86-89 | A page that fails when it is asked for ends the walk with its failure, and no failure is reported without such a page |
| HistoryLaws.NothingIsLostSilently | packages/research-signals/src/ohlcv/binance-history.ts:66-128 | With the joints in order, a download that is not the whole query reports a failed page or an early stop, and one without candles reports a reason |
| HistoryLaws.LastRowWins | packages/research-signals/src/ohlcv/binance-history.ts:93-95 | Of the rows that arrive for one opening time exactly the last one is kept, and no opening time is dropped |
| MarketDataKlines.SufficientCoversTheRange | packages/research-signals/src/ohlcv/market-data-klines.ts:321-347 | If the cache counts as sufficient, every instant from one interval after the start to two before the end has a stored candle that opened less than an interval earlier |
| MarketDataKlines.OthersImplyCount | packages/research-signals/src/ohlcv/market-data-klines.ts:341-345 | The first, last and gap rules imply the eighty-percent rule unless the range is exactly three, four or five intervals |
| MarketDataKlines.CountTestExactly | packages/research-signals/src/ohlcv/market-data-klines.ts:341-345 | The eighty-percent rule is implied for every cache content if and only if the range is not exactly three, four or five intervals |
| MarketDataKlines.DefaultPagesExactly | packages/research-signals/src/ohlcv/market-data-klines.ts:42-177 | A request downloads every closed candle of its range, from every series of candles of its interval, if and only if it is not for ten-minute candles over a quarter and, over everything, spans fewer than 80001 intervals |
| MarketDataKlines.FullSeriesIsCut | packages/research-signals/src/ohlcv/market-data-klines.ts:155-177 | From a series without gaps over 80001 intervals or more, the download misses candles |
| MarketDataKlines.OnePageIsWhole | packages/research-signals/src/ohlcv/market-data-klines.ts:155-177 | Of any series, evenly spaced or not, a request for no more than one page of rows is downloaded whole |
| MarketDataKlines.DefaultBudgetCuts | packages/research-signals/src/ohlcv/binance-history.ts:66-74 | With more wanted rows than eighty full pages hold, the default download is not the whole query |
| MarketDataKlines.GaplessCacheExactly | packages/research-signals/src/ohlcv/market-data-klines.ts:321-347 | A cache without a gap, stored in any order, is sufficient if and only if it begins in time, ends in time and holds eighty percent |
| MarketDataKlines.FullCacheCounts | packages/research-signals/src/ohlcv/market-data-klines.ts:321-347 | A cache with every candle of the range is sufficient |
| MarketDataKlines.HoleIsNoticed | packages/research-signals/src/ohlcv/market-data-klines.ts:331-347 | A hole of more than an interval makes a cache insufficient |
| MarketDataKlines.RangesRead | packages/research-signals/src/ohlcv/market-data-klines.ts:155-386 | The ranges in days of the interval table; a request is cut to the longest range of its interval and is otherwise applied as it is |
| RealtimeClient.BinanceSpotRealtimeClient.constructor | packages/research-signals/src/realtime/binance-spot-ws.ts:40-59 | A new client is in the initial state of the step system |
| RealtimeClient.BinanceSpotRealtimeClient.OpenConnection | packages/research-signals/src/realtime/binance-spot-ws.ts:85-92 | Opening reports its status and creates a socket unless the user closed the client |
| RealtimeClient.BinanceSpotRealtimeClient.StartClient | packages/research-signals/src/realtime/binance-spot-ws.ts:61-69 | The start handler is the start step: fields, timers and status log |
| RealtimeClient.BinanceSpotRealtimeClient.StopClient | packages/research-signals/src/realtime/binance-spot-ws.ts:71-83 | The stop handler is the stop step and clears only the timers in its fields |
| RealtimeClient.BinanceSpotRealtimeClient.OnOpen | packages/research-signals/src/realtime/binance-spot-ws.ts:93-95 | An opening socket only reports open |
| RealtimeClient.BinanceSpotRealtimeClient.OnError | packages/research-signals/src/realtime/binance-spot-ws.ts:106-108 | A socket error only reports reconnecting |
| RealtimeClient.BinanceSpotRealtimeClient.OnStaleCheck | packages/research-signals/src/realtime/binance-spot-ws.ts:64-68 | The interval only reports stale, and only when the client has been silent |
| RealtimeClient.BinanceSpotRealtimeClient.OnMessage | packages/research-signals/src/realtime/binance-spot-ws.ts:96-105 | A good message resets the reconnect counter; a bad one only reports stale |
| RealtimeClient.BinanceSpotRealtimeClient.OnClose | packages/research-signals/src/realtime/binance-spot-ws.ts:109-121 | The close handler is the close step, and a scheduled delay is the base delay times the new counter |
| RealtimeClient.BinanceSpotRealtimeClient.OnTimer | packages/research-signals/src/realtime/binance-spot-ws.ts:120-120 | A firing reconnect timer is the timer step |
| RealtimeClient.RunSound | packages/research-signals/src/realtime/binance-spot-ws.ts:61-122 | In every run, with any number of starts, the counter stays within its limit and the sockets created are at most the starts plus the limit times one more than the good messages |
| RealtimeClient.StepSound | packages/research-signals/src/realtime/binance-spot-ws.ts:61-122 | Every possible step keeps the counter bound, the timer bookkeeping and the bound on sockets created |
| RealtimeClient.StepSingle | packages/research-signals/src/realtime/binance-spot-ws.ts:61-122 | Every possible step keeps one connection while the client runs and has not given up, and none once it has, when starts are idle |
| RealtimeClient.QuietUntilStarted | packages/research-signals/src/realtime/binance-spot-ws.ts:85-122 | A client that is stopped, or has given up with no connection left, creates no socket in any continuation without a start |
| RealtimeClient.SingleExactlyWhenStartsIdle | packages/research-signals/src/realtime/binance-spot-ws.ts:61-122 | Live sockets plus pending reconnects never exceed one throughout a run if and only if each start of the run comes when there are none |
| RealtimeClient.OneStartIsIdle | packages/research-signals/src/realtime/binance-spot-ws.ts:61-69 | A run with at most one start satisfies that condition |
| RealtimeClient.RestartTooSoonDoubles | packages/research-signals/src/realtime/binance-spot-ws.ts:61-83 | Start, stop, start before the close event leads to a live socket and a pending reconnect at once |
| RealtimeClient.NoSocketAfterStop | packages/research-signals/src/realtime/binance-spot-ws.ts:71-92 | After a stop at any point of any run, no socket is created until the next start |
| RealtimeClient.NoSocketAfterFailed | packages/research-signals/src/realtime/binance-spot-ws.ts:113-116 | After the failure report of a run with idle starts, no socket is created until the next start |
| RealtimeClient.RunReads | packages/research-signals/src/realtime/binance-spot-ws.ts:61-122 | Over every run the counter is the number of connections lost since the last good message, up to the limit, and the reported statuses and created sockets are those that the event list tells |
| RealtimeClient.StepReads | packages/research-signals/src/realtime/binance-spot-ws.ts:61-122 | Each event keeps that reading; in particular a good message gives all reconnects back |
| RealtimeClient.CloseDecides | packages/research-signals/src/realtime/binance-spot-ws.ts:109-121 | After any run, a lost connection schedules a reconnect if fewer than the limit were lost since the last good message, and reports the failure if that many were |
| RealtimeClient.FailsExactly | packages/research-signals/src/realtime/binance-spot-ws.ts:103-116 | A run ever reports failed if and only if it loses a connection with as many lost since the last good message as the limit allows |
| RealtimeClient.HealthyFeed | packages/research-signals/src/realtime/binance-spot-ws.ts:96-121 | A feed that delivers between its losses can be lost any number of times without a failure, and has one socket each time |
| RealtimeClient.StaleAfterStopExactly | packages/research-signals/src/realtime/binance-spot-ws.ts:61-76 | A client that is not running still has a stale check pending if and only if some start came while it was running |
| RealtimeClient.OverwrittenTimerFires | packages/research-signals/src/realtime/binance-spot-ws.ts:109-121 | Two starts and two losses leave two timers of which the field holds one: both fire, in either order, and two sockets are back |
| CaptureScheduler.Scheduler.constructor | packages/research-signals/src/capture/scheduler.ts:94-104 | A new scheduler has run nothing and has no timer |
| CaptureScheduler.Scheduler.RunDueJobs | packages/research-signals/src/capture/scheduler.ts:106-117 | A call that nothing overlaps runs exactly the jobs due when it began and writes its clock to them |
| CaptureScheduler.Scheduler.Start | packages/research-signals/src/capture/scheduler.ts:123-130 | There is a timer afterwards if there was one or the scheduler is enabled |
| CaptureScheduler.Scheduler.Stop | packages/research-signals/src/capture/scheduler.ts:131-136 | There is no timer afterwards |
| CaptureScheduler.StepKeepsInvariant | packages/research-signals/src/capture/scheduler.ts:106-117 | Every step of any call, also one that throws, keeps the log of writes apart and what each call has settled |
| CaptureScheduler.RunInvariant | packages/research-signals/src/capture/scheduler.ts:106-117 | Under any interleaving of calls the map holds the last written time of each job, and every call has settled the jobs it went past |
| CaptureScheduler.WritesAreApart | packages/research-signals/src/capture/scheduler.ts:111-113 | Under any interleaving two successive times written for a job are at least its period apart, whatever clocks the calls read |
| CaptureScheduler.RunsInWindow | packages/research-signals/src/capture/scheduler.ts:111-113 | A window of a given length holds at most length / period + 1 runs of a job |
| CaptureScheduler.FinishedCallLeavesNothingDue | packages/research-signals/src/capture/scheduler.ts:106-117 | When a call has gone through all jobs, every job ran less than a period before the call's clock |
| CaptureScheduler.AloneIsRunDueJobs | packages/research-signals/src/capture/scheduler.ts:106-117 | In the step system a call that nothing overlaps does what the method does, from any state |
| CaptureScheduler.ThrownCallStops | packages/research-signals/src/capture/scheduler.ts:106-117 | A call whose job throws keeps the run it has written and looks at no further job, whatever other calls do |
| StoreTables.InsertKeepsTable | packages/research-signals/src/store/jsonl-store.ts:88-137 | A batch only appends, keeps ids counting from one and the absence of duplicates, reports counts that add up to the batch, and throws exactly when a record has a refused source |
| StoreTables.ReinsertingChangesNothing | packages/research-signals/src/store/jsonl-store.ts:88-137 | Inserting a batch again skips all of it |
| StoreTables.BatchesCompose | packages/research-signals/src/store/jsonl-store.ts:88-137 | Inserting a ++ b is inserting a and then b, counts included; an exception in a stops both |
| ResearchStore.JsonlResearchStore.constructor | packages/research-signals/src/store/jsonl-store.ts:47-64 | A new store is closed and leaves the files as they are |
| ResearchStore.JsonlResearchStore.Close | packages/research-signals/src/store/jsonl-store.ts:84-86 | Closing changes nothing but the open flag |
| ResearchStore.JsonlResearchStore.Init | packages/research-signals/src/store/jsonl-store.ts:66-82 | After opening, the tables are the contents of the files |
| ResearchStore.JsonlResearchStore.Reopen | packages/research-signals/src/store/jsonl-store.ts:66-86 | Closing and opening again restores the tables as they were |
| ResearchStore.JsonlResearchStore.InsertMarketSnapshots | packages/research-signals/src/store/jsonl-store.ts:88-113 | The loop leaves memory and file equal, at the table and counts of the specification; an exception keeps the records before it |
| ResearchStore.JsonlResearchStore.InsertUnderlyingCandles | packages/research-signals/src/store/jsonl-store.ts:115-137 | The same for candles, with their key as the duplicate rule |
| ResearchStore.JsonlResearchStore.GetUnderlyingCandles | packages/research-signals/src/store/jsonl-store.ts:259-276 | A query answers from the file's contents and changes no file |
| ResearchStore.StoreStaysClean | packages/research-signals/src/store/jsonl-store.ts:66-137 | Over all sequences of operations ids are 1..n, stored snapshots of one key are pairwise more than a minute apart, candle keys are unique, and the tables only grow |
| ResearchStore.BatchLaws | packages/research-signals/src/store/jsonl-store.ts:88-137 | For snapshots and for candles: counts add up to the batch, splitting a batch changes neither table nor counts, and inserting it again inserts nothing |
| ResearchStore.RangeQueryAnswers | packages/research-signals/src/store/sqlite-store.ts:410-430 | On a clean store the stable sort answers exactly the matching candles in the order of opening time and then id, as the SQLite store orders them; of one provider no opening time comes twice |
| ResearchStore.OneCandleExactly | packages/research-signals/src/store/jsonl-store.ts:115-137 | One candle: refused sources throw, a candle whose symbol, interval, opening time and provider are stored is skipped, and any other is appended with the next id |
| ResearchStore.OneSnapshotExactly | packages/research-signals/src/store/jsonl-store.ts:88-113 | One snapshot: the same, with provider, source, symbol, market, hash and a minute as the rule |
| ResearchStore.EveryRecordIsStored | packages/research-signals/src/store/jsonl-store.ts:88-137 | After a batch that does not throw every record is stored under its own key; a batch throws exactly when one of its sources is refused |
| ResearchStore.RunsContinue | packages/research-signals/src/store/jsonl-store.ts:66-137 | Each batch changes its own table only, and a run goes on from where the one before it ended |
| ResearchStore.FullScanTimes | packages/research-signals/src/store/jsonl-store.ts:92-103 | The full scan finds a duplicate if and only if some stored row of the key lies within the window |
| ResearchStore.SqliteResearchStore.InsertMarketSnapshots | packages/research-signals/src/store/sqlite-store.ts:78-117 | The loop leaves the rows and counts of the bounded specification |
| ResearchStore.BoundedScanAgrees | packages/research-signals/src/store/sqlite-store.ts:574-588 | The ten newest matching rows give the verdict of all rows when at most ten match or the record is no more than the window older than the tenth; when it is older, they find nothing |
| ResearchStore.BoundedScanExactly | packages/research-signals/src/store/sqlite-store.ts:574-588 | On a clean table the two scans agree on every record of a key if and only if at most ten of its rows are stored |
| ResearchStore.StoresAgreeInTimeOrder | packages/research-signals/src/store/sqlite-store.ts:78-117 | Both stores end with the same table and counts for every batch in time order |
| ResearchStore.StoresAgreeOnRuns | packages/research-signals/src/store/sqlite-store.ts:78-117 | Over every run of batches whose records arrive in time order, both stores report the same counts for each batch and end with the same table |
| SignalObservations.MergeKeepsLog | apps/web/app/signal-observations.ts:84-171 | A merge keeps the log at a hundred entries, every entry consistent, and successive entries of a stream with equal direction separated by cooldown or score change, by both for NO_SIGNAL |
| SignalObservations.LogStaysInOrder | apps/web/app/signal-observations.ts:84-171 | The same after every sequence of snapshots; in particular a hit or miss was resolved at or after its resolve time |
| SignalObservations.MergeMoves | apps/web/app/signal-observations.ts:84-92 | A merge moves every entry back by the same zero or one place, drops only what falls off the end, and changes only pending entries |
| SignalObservations.SettledStays | apps/web/app/signal-observations.ts:94-142 | An entry that is not pending stays as it is for as long as the log holds it, whatever snapshots follow |
| SignalObservations.BucketBalances | apps/web/app/signal-observations.ts:235-246 | In every bucket of a log in order, pending, resolved and invalidated add up to the directional total, and hits are among the resolved |
| SignalObservations.BucketsAddUp | apps/web/app/signal-observations.ts:183-210 | The buckets by horizon, by direction and by profile each add up to the summary of the whole log |
| SignalObservations.MergeRecords | apps/web/app/signal-observations.ts:84-171 | The candidate is recorded exactly when its stream has no entry or it is separated from the newest one; then it is the newest entry and only what no longer fits falls off |
| SignalObservations.ComparableIsNewest | apps/web/app/signal-observations.ts:144-152 | The entry compared with is the newest of its stream, and missing exactly when the log has none |
| SignalObservations.CandidateIsTracked | apps/web/app/signal-observations.ts:54-82 | A new entry carries the candidate, pending exactly when it is directional and can be observed with price, candle and resolve time |
| SignalObservations.ResolvesExactly | apps/web/app/signal-observations.ts:94-142 | A pending entry is settled exactly when the snapshot concerns it and it is due or cannot be resolved; hit and miss follow the last close on the entry's own side |
| SignalObservations.NothingDueStaysPending | apps/web/app/signal-observations.ts:84-142 | After a merge an entry is pending exactly when the snapshot does not concern it or does not show it due |
| SignalObservations.SummaryCounts | apps/web/app/signal-observations.ts:235-246 | The summary counts the directional entries of its bucket by status |
| SignalObservations.MergesContinue | apps/web/app/signal-observations.ts:84-92 | Over a run of snapshots each is merged into the log that the ones before it left |
| SignalObservations.OthersAreNotCounted | apps/web/app/signal-observations.ts:183-191 | Entries of another horizon or direction are in no count of a bucket |
| Replay.ReplayCandles | packages/research-signals/src/short-window/replay.ts:95-138 | The walk covers consecutive, aligned, disjoint windows from the first boundary on until no further window fits, with the result of each |
| Replay.EngineFindsTheWindow | packages/research-signals/src/short-window/window-engine.ts:9-59 | At signal time the engine's own start and end are the loop's, and its phase is the decision zone, or forming without a start reference |
| Sorting.FirstIsLeast | packages/research-signals/src/short-window/window-engine.ts:116-128 | Taking the first of the sorted matches takes a match with the least key, and nothing exactly when nothing matches |
| WindowEngine.CurrentPriceIsLatest | packages/research-signals/src/short-window/window-engine.ts:116-128 | The current price is that of a latest tick up to now, without ticks the close of a candle opened latest, and missing exactly when there is neither |
| WindowEngine.PhasesAdvance | packages/research-signals/src/short-window/window-engine.ts:159-180 | As time passes, a window never goes back to an earlier phase |
| WindowEngine.PhaseInMilliseconds | packages/research-signals/src/short-window/window-engine.ts:159-180 | Which milliseconds of a window are forming, open, decision zone, no-entry zone and closed, with and without a start reference |
| WindowEngine.StartReferenceIsEarliest | packages/research-signals/src/short-window/window-engine.ts:80-114 | Under an end-price rule the start reference is an earliest tick of the window, else the open of an earliest candle in it, else the open of the newest candle covering its start, else missing |
| WindowEngine.StartAverageReads | packages/research-signals/src/short-window/window-engine.ts:130-157 | The start average is over the ticks of its range if there are any, otherwise over the candles overlapping it, within any bounds of what it averages, and missing exactly when there is nothing |
| WindowEngine.MeanCloseBetween | packages/research-signals/src/short-window/window-engine.ts:145-157 | A mean close lies between any bounds of the closes up to rounding, and is missing exactly for no candles |
| WindowEngine.EventReads | packages/research-signals/src/short-window/window-engine.ts:9-59 | The event is the aligned window around the present, with the distance of the current price from the start reference in basis points |
| Replay.StartReferenceIsSignalPrice | packages/research-signals/src/short-window/window-engine.ts:95-113 | Under an end-price rule the replayed start reference is the price at signal time, so the distance is zero |
| ReplayLookahead.SignalsDoNotLookAhead | packages/research-signals/src/short-window/replay.ts:108-124 | Histories that agree on the candles closed by T give the same events and signals for windows with signal time up to T |
| ReplayLookahead.EndPriceAgrees | packages/research-signals/src/short-window/rule-templates.ts:161-169 | The settlement price at an end time depends only on candles closed by then |
| Replay.EndPriceIsLast | packages/research-signals/src/short-window/rule-templates.ts:161-169 | The settlement price is the close of the candle that opened last among those closed by the end, and missing exactly when none has closed |
| Replay.WinsFollowThePrice | packages/research-signals/src/short-window/rule-templates.ts:99-144 | A result is counted if and only if the signal is directional, the window is over, the rule is not a manual one and both references decide; it wins exactly when the end reference lies on its side of the start, a tie going to the side the rule names |
| Replay.SignalPriceIsLatest | packages/research-signals/src/short-window/replay.ts:360-366 | The price at signal time is the close of a candle that closed last by then, and missing exactly when none has |
| Replay.SettlementAverageReads | packages/research-signals/src/short-window/rule-templates.ts:171-186 | A settlement average lies between any bounds of the overlapping closes, and is missing exactly when no candle overlaps its range |
| Replay.ReferencesRead | packages/research-signals/src/short-window/rule-templates.ts:99-144 | Which references settle a window under each kind of rule, with a minute as the default of both averages |
| Replay.StatusReads | packages/research-signals/src/short-window/replay.ts:248-309 | When a result has the status of its signal, is pending and is unresolved, each exactly |
| Replay.SyntheticSpread | packages/research-signals/src/short-window/replay.ts:337-358 | The synthetic quote of a replay has a spread of a fifth of a basis point |
| ReplayLookahead.OverlapSeesClosedOnly | packages/research-signals/src/short-window/rule-templates.ts:171-186 | A range reads the same candles from the whole history as from the closed part of it if and only if every candle that it reads has closed |
| ReplayLookahead.ResultsDoNotLookAhead | packages/research-signals/src/short-window/replay.ts:248-309 | Histories that agree on the candles closed by T give the same results for windows that end by T: always under an end-price rule, and under an average rule when its two ranges read only candles closed by the end of the window |
| ReplayLookahead.SettledExactlyWhenNoneSpans | packages/research-signals/src/short-window/rule-templates.ts:110-123 | For a start range within the window, the ranges read only closed candles if and only if no candle spans the end of the window |
| ReplayLookahead.MinuteReplayDoesNotLookAhead | packages/research-signals/src/short-window/replay.ts:53-74 | On candles of whole minutes, and with a start average that ends within the window, no result looks past the end of its window, whatever the rule |
| ReplayLookahead.AverageRuleExactly | packages/research-signals/src/short-window/rule-templates.ts:110-123 | Under an average rule, a result is the same for all closes of the candles still open when the window ends if and only if the window is not settled or neither range reads such a candle |
| ReplayLookahead.AverageRuleLooksAhead | packages/research-signals/src/short-window/rule-templates.ts:171-186 | Two histories of fifteen-minute candles that agree on everything closed by the end of a window, and under an average rule the same signal wins on one and loses on the other |
| ReplayMetrics.OppositeSidesOppose | packages/research-signals/src/replay/outcome-labeler.ts:8-75 | On the same evidence one side of a market wins exactly when the other loses, and otherwise both have the same status |
| ReplayMetrics.PriceIsLatest | packages/research-signals/src/replay/outcome-labeler.ts:145-154 | The price at expiry is that of a latest candle up to then, and missing exactly when there is none |
| ReplayMetrics.ThresholdIsSettledByThePrice | packages/research-signals/src/replay/outcome-labeler.ts:36-69 | On an above or below market, a signal of either side wins only with a latest price on its side of the threshold, loses only with one on the other side, and is unresolved at the threshold or without a price |
| ReplayMetrics.LabelStages | packages/research-signals/src/replay/outcome-labeler.ts:8-24 | Signals without a side keep their status, one without expiry is unresolved, and one is pending exactly before its expiry |
| ReplayMetrics.GivenOutcomeSettles | packages/research-signals/src/replay/outcome-labeler.ts:26-33 | A given outcome settles an expired signal, YES for LONG_YES and NO for LONG_NO, whatever comparator, threshold and prices say |
| ReplayMetrics.TouchStaysUnresolved | packages/research-signals/src/replay/outcome-labeler.ts:35-74 | Without an outcome, a market settled by touching, or without comparator or threshold, is unresolved |
| ReplayMetrics.ProfitReads | packages/research-signals/src/replay/outcome-labeler.ts:77-103 | The profit of a settled side is its payout less its own price; nothing else has a profit |
| ReplayMetrics.ProfitSign | packages/research-signals/src/replay/outcome-labeler.ts:77-103 | With an entry price between 0 and 1 no win costs and no loss pays |
| ReplayMetrics.ProfitsCancel | packages/research-signals/src/replay/outcome-labeler.ts:77-103 | The theoretical profits of the two sides add up to what the quoted YES and NO prices together fall short of one, up to the rounding of two numbers to six decimals |
| ReplayMetrics.UnquotedProfitsCancel | packages/research-signals/src/replay/outcome-labeler.ts:77-103 | Without a quoted NO price they cancel up to the rounding of three numbers |
| ReplayMetrics.MetricsAddUp | packages/research-signals/src/replay/metrics.ts:12-46 | Over every list of labelled results: actionable, rejected and no-signal make the total; wins, losses, pending and unresolved make the actionable; wins and losses make the sample, and so do the two long sides |
| ReplayMetrics.AbsentIsNotCounted | packages/research-signals/src/replay/metrics.ts:15-40 | A side or status that no result has is not counted |
| ReplayMetrics.MaxDrawdownFromPnl | packages/research-signals/src/replay/metrics.ts:77-87 | The one-pass drawdown is the largest drop from a running total to a later one |
| ReplayMetrics.MaxDrawdown | packages/research-signals/src/short-window/metrics.ts:74-91 | The short-window drawdown is the largest drop of the win-loss balance and at most the number of losses; there is none without results |
| Indicators.EmaSeries | packages/research-signals/src/indicators.ts:77-87 | The loop yields the recursive average at every index, and an error only for an empty series |
| Indicators.EmaWithinBounds | packages/research-signals/src/indicators.ts:77-87 | Every average lies between any bounds of the values seen so far |
| Indicators.FastDominatesSlow | packages/research-signals/src/indicators.ts:77-87 | On a series that never falls, the average with the larger weight is at least the other one at every index |
| Indicators.MacdNonNegative | packages/research-signals/src/indicators.ts:114-131 | On a series that never falls, the MACD line of a shorter over a longer period is never negative |
| Indicators.EmaReflects | packages/research-signals/src/indicators.ts:77-87 | Reflecting a series reflects its averages at every index |
| Indicators.HistogramReflects | packages/research-signals/src/indicators.ts:114-131 | Reflecting a series negates its MACD histogram at every index |
| Indicators.LastValueMovesEma | packages/research-signals/src/indicators.ts:77-87 | Raising the last value by d raises the average by its weight times d |
| Indicators.LastValueMovesHistogram | packages/research-signals/src/indicators.ts:114-131 | Raising the last price by d raises the MACD line by d times what the fast weight exceeds the slow one, and the histogram by the part of that its own average does not follow |
| Indicators.RsiSnapshot | packages/research-signals/src/indicators.ts:89-112 | The two loops yield the strength of the smoothed average gains and losses, and an error only for too short a series |
| Indicators.RsiInRange | packages/research-signals/src/indicators.ts:89-112 | RSI lies between 0 and 100 |
| Indicators.RsiExtremes | packages/research-signals/src/indicators.ts:89-112 | RSI is 100 on a series that never falls, and 0 on one that never rises and moves |
| Indicators.RsiReflects | packages/research-signals/src/indicators.ts:89-112 | The RSI of a series and of its reflection add up to 100 if and only if the series moves |
| Indicators.RsiRises | packages/research-signals/src/indicators.ts:89-112 | Raising the last value of a series never lowers its RSI |
| Indicators.FlatStepKeepsRsi | packages/research-signals/src/indicators.ts:101-112 | A further value equal to the last one leaves RSI where it is |
| Indicators.SeedIsMean | packages/research-signals/src/indicators.ts:92-99 | With exactly one period of changes the averages are the mean rise and the mean fall, which differ by the mean change |
| ParameterGrid.SanitizeNumberList | packages/research-signals/src/strategy-lab/parameter-grid.ts:135-150 | The loop keeps the accepted values, rounded, once each and ascending; accepted and rejected values make the input |
| ParameterGrid.SanitizedIsDistinct | packages/research-signals/src/strategy-lab/parameter-grid.ts:135-150 | A sanitised list is ascending without repeats, even where rounding makes values equal |
| ParameterGrid.NormalizeMaxCombinations | packages/research-signals/src/strategy-lab/parameter-grid.ts:98-112 | The limit is the floor of the option where that lies between one and a hundred, the nearer bound where it does not, and fifty without an option |
| ParameterGrid.BuildGrid | packages/research-signals/src/strategy-lab/parameter-grid.ts:45-96 | The seven nested loops with their early return push the first combinations of the whole enumeration, up to the limit |
| ParameterGrid.BuildFairValueV1ParameterGrid | packages/research-signals/src/strategy-lab/parameter-grid.ts:16-96 | From options to grid: the cut enumeration over the sanitised lists, the requested product, and a truncation warning exactly when something was cut |
| ParameterGrid.GridIsMixedRadix | packages/research-signals/src/strategy-lab/parameter-grid.ts:45-96 | The grid has the smaller of the limit and the product of the list sizes, and its element k is the mixed-radix decoding of k |
| ParameterGrid.DecodeInjective | packages/research-signals/src/strategy-lab/parameter-grid.ts:45-96 | Over lists without repeats, different positions decode to different combinations |
| ParameterGrid.GridIsDistinct | packages/research-signals/src/strategy-lab/parameter-grid.ts:16-96 | No combination occurs twice in the grid, whatever values the caller repeats |
| ParameterGrid.IdsDistinctExactly | packages/research-signals/src/strategy-lab/parameter-grid.ts:152-171 | The ids of the returned grid, cut at any limit, are distinct if and only if no list prints two values alike of which the grid reaches the later one |
| ParameterGrid.TwoDecimalOptionsHaveDistinctIds | packages/research-signals/src/strategy-lab/parameter-grid.ts:16-96 | Options whose accepted spreads and confidences have at most two decimals, the defaults in particular, get a grid of distinct ids |
| ParameterGrid.CloseSpreadsShareIds | packages/research-signals/src/strategy-lab/parameter-grid.ts:152-171 | Spreads 0.101 and 0.104, with all else at its default, give the returned grid two equal ids |
| ParameterGrid.SanitizedMembers | packages/research-signals/src/strategy-lab/parameter-grid.ts:135-150 | A sanitised list holds exactly the accepted values, rounded to six decimals |
| ParameterGrid.AcceptedValues | packages/research-signals/src/strategy-lab/parameter-grid.ts:20-24 | Which edges, spreads, lookbacks and confidences each list holds, given or by default, and no others |
| ParameterGrid.AcceptedCosts | packages/research-signals/src/strategy-lab/parameter-grid.ts:25-26 | The same for fees and slippage |
| ParameterGrid.ValuesInRange | packages/research-signals/src/strategy-lab/parameter-grid.ts:20-26 | After rounding every value still lies in the range of its parameter, and edges, lookbacks and costs are whole |
| ParameterGrid.IntervalsRead | packages/research-signals/src/strategy-lab/parameter-grid.ts:125-133 | The intervals are the allowed ones given, or five and fifteen minutes when none is |
| ParameterGrid.EveryCombination | packages/research-signals/src/strategy-lab/parameter-grid.ts:45-96 | Every choice of one value per list stands at some position of the enumeration |
| ParameterGrid.UncutGridIsComplete | packages/research-signals/src/strategy-lab/parameter-grid.ts:16-96 | When the limit does not cut, every combination of sanitised values is in the grid |
| ParameterGrid.TwoDecimalsPrintApart | packages/research-signals/src/strategy-lab/parameter-grid.ts:152-171 | Spreads and confidences with at most two decimals stay distinct when printed |

## Left out

- Floating point: prices and scores are reals, so a comparison that binary rounding would turn is not seen; only the decimal rounding of the program is modelled.
- Texts: reasons, warnings, notes and captions are tags or left out; a fail-closed text that happens to equal the text of a filter is not merged with it.
- Square roots and logarithms: the root in the realised volatility is a parameter that is not negative on numbers that are not negative; Bollinger bands, z-scores and ATR are given features.
- HTTP, URL building, timeouts, message parsing, the Fastify server and the web pages: a history server is a function from limit, page and cursor to a page, a message is good or bad.
- Aggregate.AggregateCandlesToInterval: the fields of a candle that are copied from the first candle of a bucket (provider, symbol, product, close time) are not modelled.
- RealtimeClient.BinanceSpotRealtimeClient.OnStaleCheck: the time of the last message is reduced to whether the client has been silent for too long.
- RealtimeClient.SingleExactlyWhenStartsIdle: assumes that a socket delivers one close event and nothing after it, and that the socket factory does not throw.
- CaptureScheduler.RunInvariant: what the jobs do is left out; a job that throws abandons its call.
- ResearchStore.JsonlResearchStore.InsertMarketSnapshots: creation times, JSON text and file-system failures are left out; times are milliseconds, where the range queries and the SQLite order compare ISO texts of one format.
- ResearchStore.SqliteResearchStore.InsertMarketSnapshots: only the duplicate query and its insert loop of the SQLite store are modelled.
- ResearchStore.JsonlResearchStore.Reopen: not a method of the source but the sequence close and init.
- The other six tables of the stores and their status queries: they repeat the dedup pattern of the two modelled ones.
- MarketDataKlines.DefaultPagesExactly: a series of candles opens at least an interval apart and closes each candle right before its interval ends; months do not, and OnePageIsWhole covers them.
- Replay: mock fixtures, markers, provider health and the walk's response envelope.
- ReplayMetrics.MaxDrawdownFromPnl: the rounding of the reported drawdown and the rates and averages beside it.
- ReplayMetrics.MetricsAddUp: the replayed report's warnings and the coverage, rejection and pending rates.
- ParameterGrid.SanitizeNumberList: infinities and NaN, which the source rejects or defaults, do not exist among reals.
- ParameterGrid.IdsDistinctExactly: an id is the tuple of its printed values, not the joined string.
- SignalObservations: reading and writing local storage, the display limits, observation ids and suggested adjustments.
- Applying the display limit and building mock candles in `market-data-klines.ts`, fair-value probabilities, market eligibility, Polymarket parsing, strategy ranking, sweeps and walk-forward: easy, constant or without an exact property.
