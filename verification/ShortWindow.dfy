/** Settlement rules, window events and market states of the short-window research engine. */
module ShortWindow {
  import opened Candles
  import opened Options

  datatype WindowInterval = W5 | W10 | W15

  function WindowMs(i: WindowInterval): int {
    match i case W5 => 300000 case W10 => 600000 case W15 => 900000
  }

  datatype RuleType = EndPrice | EndAverage | UnknownManualReference

  datatype RuleConfidence = High | Medium | Low | Unverified

  datatype TieRule = TieUp | TieDown | TieUnknown

  datatype Rule = Rule(
    interval: WindowInterval,
    ruleType: RuleType,
    confidence: RuleConfidence,
    tieRule: TieRule,
    startAverageSeconds: Option<int>,
    endAverageSeconds: Option<int>)

  datatype Phase = Forming | Open | DecisionZone | NoEntryZone | Closed

  datatype Event = Event(
    startMs: int,
    endMs: int,
    phase: Phase,
    startReference: Option<real>,
    currentPrice: Option<real>,
    distanceBps: Option<real>,
    secondsRemaining: int,
    rule: Rule)

  datatype Tick = Tick(timeMs: int, price: real, bid: Option<real>, ask: Option<real>)

  datatype MarketState = MarketState(
    candles: seq<Candle>,
    tick: Option<Tick>,
    bid: Option<real>,
    ask: Option<real>,
    now: int,
    staleAfterMs: Option<int>,
    minConfidence: Option<real>)

  datatype Side = LONG_UP | LONG_DOWN | WAIT | REJECTED

  datatype Reason =
    | UnverifiedRule
    | MissingStartReference
    | MissingCurrentPrice
    | StalePrice
    | SpreadTooWide
    | WindowForming
    | WindowClosed
    | InNoEntryZone
    | VolatilityTooHigh
    | BelowNoise
    | LowConfidence

  datatype Signal = Signal(side: Side, confidence: real, score: real, rejectReasons: seq<Reason>)
}
