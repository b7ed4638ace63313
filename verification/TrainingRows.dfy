/** Training data snapshots and their validation, backend/src/long_invest/modules/strategies/contracts.py. */
module TrainingRows {

  datatype Bar = Bar(tradeDate: int, open: real, high: real, low: real, close: real, volume: real, amount: real)

  /** Positive prices, low and high around the others. */
  predicate BarOk(b: Bar) {
    && b.low > 0.0 && b.open > 0.0 && b.close > 0.0 && b.high > 0.0
    && b.low <= b.open && b.low <= b.close
    && b.open <= b.high && b.close <= b.high && b.low <= b.high
  }

  /** `validate_rows`: rows in strictly ascending dates inside the range, each a proper bar. */
  predicate RowsOk(rows: seq<Bar>, start: int, end: int) {
    && |rows| > 0
    && (forall i, j | 0 <= i < j < |rows| :: rows[i].tradeDate < rows[j].tradeDate)
    && start <= rows[0].tradeDate && rows[|rows| - 1].tradeDate <= end
    && forall i | 0 <= i < |rows| :: BarOk(rows[i])
  }

  predicate Digit(c: char) {
    '0' <= c <= '9'
  }

  /** The declared fields: six digits and an exchange, a version from 1 on, a short source name. */
  predicate HeaderOk(symbol: string, source: string, version: int) {
    && |symbol| == 9 && (forall i | 0 <= i < 6 :: Digit(symbol[i])) && symbol[6] == '.'
    && (symbol[7..] == "SH" || symbol[7..] == "SZ" || symbol[7..] == "BJ")
    && 1 <= |source| <= 64 && version >= 1
  }
}
