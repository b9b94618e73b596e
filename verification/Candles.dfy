/** Candles. Times are milliseconds since the epoch; volumes are integers in units of 1e-8, so that sums
    rounded to eight decimals are exact. */
module Candles {

  datatype Interval = M1 | M5 | M10 | M15 | M30 | H1 | H4 | D1 | W1 | Month1

  /** The program's table; a month counts as thirty days. */
  function IntervalSeconds(i: Interval): (r: int)
    ensures r > 0
  {
    match i
    case M1 => 60
    case M5 => 300
    case M10 => 600
    case M15 => 900
    case M30 => 1800
    case H1 => 3600
    case H4 => 14400
    case D1 => 86400
    case W1 => 604800
    case Month1 => 2592000
  }

  function IntervalMs(i: Interval): int { IntervalSeconds(i) * 1000 }

  datatype Candle = Candle(
    interval: Interval,
    granularity: int,
    openMs: int,
    open: real,
    high: real,
    low: real,
    close: real,
    volume: int,
    isClosed: bool)

  function OpenMs(c: Candle): int { c.openMs }

  /** `candleCloseMs`: the opening time plus the granularity in seconds. */
  function CloseMs(c: Candle): int { c.openMs + c.granularity * 1000 }

  /** The table in terms of itself: five, ten, fifteen and thirty minutes, an hour, four hours, a day, a week, and
      thirty days for a month. */
  lemma IntervalTable()
    ensures IntervalMs(M1) == 60000
    ensures IntervalSeconds(M1) == 60 && IntervalSeconds(M5) == 5 * IntervalSeconds(M1)
    ensures IntervalSeconds(M10) == 10 * IntervalSeconds(M1) && IntervalSeconds(M15) == 15 * IntervalSeconds(M1)
    ensures IntervalSeconds(M30) == 30 * IntervalSeconds(M1) && IntervalSeconds(H1) == 60 * IntervalSeconds(M1)
    ensures IntervalSeconds(H4) == 4 * IntervalSeconds(H1) && IntervalSeconds(D1) == 24 * IntervalSeconds(H1)
    ensures IntervalSeconds(W1) == 7 * IntervalSeconds(D1) && IntervalSeconds(Month1) == 30 * IntervalSeconds(D1)
  {
  }
}
