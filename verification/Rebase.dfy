/** Point-in-time training data, backend/src/long_invest/bootstrap/strategy_data.py, with prices as exact reals. */
module Rebase {
  import opened Wrappers
  import opened KeyOrder
  import opened TrainingRows

  datatype RawBar = RawBar(tradeDate: int, securityId: nat, source: string, close: real, dataVersion: int, updatedAt: int)

  datatype Window = Window(symbol: string, provider: string, version: int, createdAt: int, isFresh: bool, bars: seq<Bar>)

  datatype Snapshot = Snapshot(symbol: string, source: string, dataVersion: int, fetchedAt: int, rows: seq<Bar>)

  /** Two outcomes are raised: the last raw close is zero, or the snapshot's own validation refuses it. */
  datatype Outcome = Data(snapshot: Snapshot) | Unavailable | DivisionFails | SnapshotRejected

  /** What is asked for; `upper` is the upper-casing of source names. */
  datatype Request = Request(security: nat, start: int, end: int, upper: string -> string)

  function Dates(bars: seq<Bar>): seq<int> {
    seq(|bars|, i requires 0 <= i < |bars| => bars[i].tradeDate)
  }

  function RawDates(raw: seq<RawBar>): seq<int> {
    seq(|raw|, i requires 0 <= i < |raw| => raw[i].tradeDate)
  }

  /** The raw bar of a date; of several the last one, as in a dictionary built in order. */
  function ByDate(raw: seq<RawBar>, date: int): (r: RawBar)
    requires date in RawDates(raw)
    ensures r in raw && r.tradeDate == date
  {
    var last := |raw| - 1;
    if raw[last].tradeDate == date then raw[last]
    else
      assert date in RawDates(raw[..last]) by {
        var i :| 0 <= i < |raw| && RawDates(raw)[i] == date;
        assert RawDates(raw[..last])[i] == date;
      }
      ByDate(raw[..last], date)
  }

  function Scaled(b: Bar, ratio: real): Bar
    requires ratio != 0.0
  {
    b.(open := b.open / ratio, high := b.high / ratio, low := b.low / ratio, close := b.close / ratio)
  }

  function Rows(bars: seq<Bar>, ratio: real): (rows: seq<Bar>)
    requires ratio != 0.0
    ensures |rows| == |bars| && forall i | 0 <= i < |rows| :: rows[i] == Scaled(bars[i], ratio)
  {
    seq(|bars|, i requires 0 <= i < |bars| => Scaled(bars[i], ratio))
  }

  function Newest(first: int, rest: seq<int>): (m: int)
    ensures first <= m && forall x | x in rest :: x <= m
    ensures m == first || m in rest
    decreases |rest|
  {
    if |rest| == 0 then first
    else
      var m := Newest(first, rest[1..]);
      assert rest == [rest[0]] + rest[1..];
      if rest[0] > m then rest[0] else m
  }

  function Versions(raw: seq<RawBar>): seq<int> {
    seq(|raw|, i requires 0 <= i < |raw| => raw[i].dataVersion)
  }

  function Updates(raw: seq<RawBar>): seq<int> {
    seq(|raw|, i requires 0 <= i < |raw| => raw[i].updatedAt)
  }

  /** The guards before the arithmetic. */
  predicate Matches(q: Request, w: Window, raw: seq<RawBar>, total: nat) {
    && w.isFresh && |w.bars| > 0
    && total != 0 && total == |raw| && |raw| == |w.bars|
    && (forall b | b in raw :: b.securityId == q.security && q.upper(b.source) == q.upper(w.provider))
    && Members(RawDates(raw)) == Members(Dates(w.bars))
  }

  lemma LastDateKnown(w: Window, raw: seq<RawBar>)
    requires |w.bars| > 0 && Members(RawDates(raw)) == Members(Dates(w.bars))
    ensures w.bars[|w.bars| - 1].tradeDate in RawDates(raw)
  {
    assert Dates(w.bars)[|w.bars| - 1] in Members(Dates(w.bars));
  }

  /** The close of the last day before adjustment. */
  function AnchorRaw(w: Window, raw: seq<RawBar>): real
    requires |w.bars| > 0 && Members(RawDates(raw)) == Members(Dates(w.bars))
  {
    LastDateKnown(w, raw);
    ByDate(raw, w.bars[|w.bars| - 1].tradeDate).close
  }

  /** The last adjusted close against the last raw close. */
  function AnchorRatio(bars: seq<Bar>, anchorRaw: real): real
    requires |bars| > 0 && anchorRaw != 0.0
  {
    bars[|bars| - 1].close / anchorRaw
  }

  function Rebased(bars: seq<Bar>, ratio: real): Option<seq<Bar>> {
    if ratio <= 0.0 then None else Some(Rows(bars, ratio))
  }

  /** Building the snapshot validates it. */
  function Built(snapshot: Snapshot, start: int, end: int): Outcome {
    if HeaderOk(snapshot.symbol, snapshot.source, snapshot.dataVersion) && RowsOk(snapshot.rows, start, end)
    then Data(snapshot) else SnapshotRejected
  }

  function Answer(q: Request, w: Window, raw: seq<RawBar>, rows: Option<seq<Bar>>): Outcome {
    if rows.None? then Unavailable
    else Built(Snapshot(w.symbol, q.upper(w.provider), DataVersion(w, raw), Newest(w.createdAt, Updates(raw)), rows.value), q.start, q.end)
  }

  function DataVersion(w: Window, raw: seq<RawBar>): int {
    Newest(w.version, Versions(raw))
  }

  /** `window` is None when there is no QFQ data; `total` is the row count the raw query reports. */
  function TrainingData(q: Request, window: Option<Window>, raw: seq<RawBar>, total: nat): Outcome {
    if window.None? || !Matches(q, window.value, raw, total) then Unavailable
    else
      var w := window.value;
      if AnchorRaw(w, raw) == 0.0 then DivisionFails
      else Answer(q, w, raw, Rebased(w.bars, AnchorRatio(w.bars, AnchorRaw(w, raw))))
  }

  // ----- raw and adjusted bars correspond -----

  /** The dates of both lists are the same, each date once in either. */
  predicate SameDatesOnce(bars: seq<Bar>, raw: seq<RawBar>) {
    Distinct(Dates(bars)) && Distinct(RawDates(raw)) && Members(Dates(bars)) == Members(RawDates(raw))
  }

  /** When training data comes back, raw and adjusted bars are in bijection by date: validation forces the
      adjusted dates apart, and the raw ones, as many and the same, then cannot repeat. All raw bars are of the
      security and the source. */
  lemma BarsCorrespond(q: Request, w: Window, raw: seq<RawBar>, total: nat)
    requires TrainingData(q, Some(w), raw, total).Data?
    ensures SameDatesOnce(w.bars, raw)
    ensures |raw| == |w.bars| && forall b | b in raw :: b.securityId == q.security && q.upper(b.source) == q.upper(w.provider)
  {
    OutcomeIff(q, w, raw, total);
    assert Distinct(Dates(w.bars));
    CountMembers(Dates(w.bars));
    CountMembers(RawDates(raw));
  }

  // ----- when data comes back -----

  /** A bar is proper exactly when it is after dividing by a positive ratio. */
  lemma ScaledBarOkIff(b: Bar, ratio: real)
    requires ratio > 0.0
    ensures BarOk(Scaled(b, ratio)) <==> BarOk(b)
  {
    DividingKeepsSign(b.low, ratio);
    DividingKeepsSign(b.open, ratio);
    DividingKeepsSign(b.close, ratio);
    DividingKeepsSign(b.high, ratio);
    DividingKeepsOrder(b.low, b.open, ratio);
    DividingKeepsOrder(b.low, b.close, ratio);
    DividingKeepsOrder(b.open, b.high, ratio);
    DividingKeepsOrder(b.close, b.high, ratio);
  }

  lemma DividingKeepsSign(x: real, a: real)
    requires a > 0.0
    ensures x > 0.0 <==> x / a > 0.0
  {
    DivisionUndone(x, a);
  }

  lemma RebasedRowsOkIff(bars: seq<Bar>, ratio: real, start: int, end: int)
    requires ratio > 0.0
    ensures RowsOk(Rows(bars, ratio), start, end) <==> RowsOk(bars, start, end)
  {
    var rows := Rows(bars, ratio);
    forall i | 0 <= i < |bars| ensures BarOk(rows[i]) <==> BarOk(bars[i]) { ScaledBarOkIff(bars[i], ratio); }
    assert forall i | 0 <= i < |bars| :: rows[i].tradeDate == bars[i].tradeDate;
  }

  lemma RatioSign(x: real, r: real)
    requires r != 0.0
    ensures x / r > 0.0 <==> (x > 0.0 && r > 0.0) || (x < 0.0 && r < 0.0)
  {
    DivisionUndone(x, r);
  }

  /** The last adjusted and raw closes have the same strict sign. */
  predicate SameSign(w: Window, raw: seq<RawBar>)
    requires |w.bars| > 0 && Members(RawDates(raw)) == Members(Dates(w.bars))
  {
    var x, r := w.bars[|w.bars| - 1].close, AnchorRaw(w, raw);
    (x > 0.0 && r > 0.0) || (x < 0.0 && r < 0.0)
  }

  predicate Valid(q: Request, w: Window, raw: seq<RawBar>) {
    HeaderOk(w.symbol, q.upper(w.provider), DataVersion(w, raw)) && RowsOk(w.bars, q.start, q.end)
  }

  lemma OutcomeIff(q: Request, w: Window, raw: seq<RawBar>, total: nat)
    ensures TrainingData(q, Some(w), raw, total).Data? <==> Matches(q, w, raw, total) && SameSign(w, raw) && Valid(q, w, raw)
    ensures TrainingData(q, Some(w), raw, total).SnapshotRejected? <==>
              Matches(q, w, raw, total) && SameSign(w, raw) && !Valid(q, w, raw)
    ensures TrainingData(q, Some(w), raw, total).DivisionFails? <==> Matches(q, w, raw, total) && AnchorRaw(w, raw) == 0.0
  {
    if Matches(q, w, raw, total) && AnchorRaw(w, raw) != 0.0 {
      var ratio := AnchorRatio(w.bars, AnchorRaw(w, raw));
      RatioSign(w.bars[|w.bars| - 1].close, AnchorRaw(w, raw));
      if ratio > 0.0 { RebasedRowsOkIff(w.bars, ratio, q.start, q.end); }
    }
  }

  /** The raw bar at `j` is the last one of its date. */
  predicate LastOfDate(raw: seq<RawBar>, date: int, j: int) {
    0 <= j < |raw| && raw[j].tradeDate == date && forall k | j < k < |raw| :: raw[k].tradeDate != date
  }

  /** `x` is the raw close of the last adjusted date: of the last raw bar of that date. */
  predicate LastRawClose(w: Window, raw: seq<RawBar>, x: real) {
    |w.bars| > 0 && exists j :: 0 <= j < |raw| && LastOfDate(raw, w.bars[|w.bars| - 1].tradeDate, j) && raw[j].close == x
  }

  lemma {:induction false} ByDateIsLast(raw: seq<RawBar>, date: int) returns (j: int)
    requires date in RawDates(raw)
    ensures LastOfDate(raw, date, j) && raw[j] == ByDate(raw, date)
  {
    j := |raw| - 1;
    if raw[j].tradeDate != date {
      var front := raw[..j];
      InFront(raw, date);
      var i := ByDateIsLast(front, date);
      assert forall k | 0 <= k < |front| :: front[k] == raw[k];
      j := i;
    }
  }

  lemma InFront(raw: seq<RawBar>, date: int)
    requires date in RawDates(raw) && raw[|raw| - 1].tradeDate != date
    ensures date in RawDates(raw[..|raw| - 1])
  {
    var i :| 0 <= i < |raw| && RawDates(raw)[i] == date;
    assert RawDates(raw[..|raw| - 1])[i] == date;
  }

  lemma AnchorIsLastClose(w: Window, raw: seq<RawBar>)
    requires |w.bars| > 0 && Members(RawDates(raw)) == Members(Dates(w.bars))
    ensures forall x :: LastRawClose(w, raw, x) <==> x == AnchorRaw(w, raw)
  {
    LastDateKnown(w, raw);
    var j := ByDateIsLast(raw, w.bars[|w.bars| - 1].tradeDate);
    var date := w.bars[|w.bars| - 1].tradeDate;
    forall i | 0 <= i < |raw| && LastOfDate(raw, date, i) ensures i == j { }
  }

  predicate HasDate(bars: seq<Bar>, date: int) {
    exists i :: 0 <= i < |bars| && bars[i].tradeDate == date
  }

  predicate HasRawDate(raw: seq<RawBar>, date: int) {
    exists j :: 0 <= j < |raw| && raw[j].tradeDate == date
  }

  /** The data is fresh and not empty, the raw rows are all there, as many as the adjusted ones, of the security and
      the source, and over the same dates. */
  predicate Comparable(q: Request, w: Window, raw: seq<RawBar>, total: nat) {
    && w.isFresh && |w.bars| > 0 && |raw| == total && |raw| == |w.bars|
    && (forall j | 0 <= j < |raw| :: raw[j].securityId == q.security && q.upper(raw[j].source) == q.upper(w.provider))
    && (forall j | 0 <= j < |raw| :: HasDate(w.bars, raw[j].tradeDate))
    && (forall i | 0 <= i < |w.bars| :: HasRawDate(raw, w.bars[i].tradeDate))
  }

  lemma HasDateIff(bars: seq<Bar>, date: int)
    ensures HasDate(bars, date) <==> date in Members(Dates(bars))
  {
    assert forall i | 0 <= i < |bars| :: Dates(bars)[i] == bars[i].tradeDate;
  }

  lemma HasRawDateIff(raw: seq<RawBar>, date: int)
    ensures HasRawDate(raw, date) <==> date in Members(RawDates(raw))
  {
    assert forall j | 0 <= j < |raw| :: RawDates(raw)[j] == raw[j].tradeDate;
  }

  lemma SameDatesIff(bars: seq<Bar>, raw: seq<RawBar>)
    ensures Members(RawDates(raw)) == Members(Dates(bars)) <==>
            && (forall j | 0 <= j < |raw| :: HasDate(bars, raw[j].tradeDate))
            && (forall i | 0 <= i < |bars| :: HasRawDate(raw, bars[i].tradeDate))
  {
    var ds, rs := Members(Dates(bars)), Members(RawDates(raw));
    forall d ensures HasDate(bars, d) <==> d in ds { HasDateIff(bars, d); }
    forall d ensures HasRawDate(raw, d) <==> d in rs { HasRawDateIff(raw, d); }
    if rs == ds {
      forall j | 0 <= j < |raw| ensures HasDate(bars, raw[j].tradeDate) { assert HasRawDate(raw, raw[j].tradeDate); }
      forall i | 0 <= i < |bars| ensures HasRawDate(raw, bars[i].tradeDate) { assert HasDate(bars, bars[i].tradeDate); }
    } else {
      if d :| d in rs && d !in ds {
        assert HasRawDate(raw, d);
      } else {
        var d :| d in ds && d !in rs;
        assert HasDate(bars, d);
      }
    }
  }

  lemma MatchesIff(q: Request, w: Window, raw: seq<RawBar>, total: nat)
    ensures Matches(q, w, raw, total) <==> Comparable(q, w, raw, total)
  {
    SameDatesIff(w.bars, raw);
    assert forall j | 0 <= j < |raw| :: raw[j] in raw;
  }

  /** Training data comes back exactly when raw and adjusted bars are comparable, the raw close of the last adjusted
      date is positive, and the adjusted bars would make a valid snapshot as they are. It is raised, not answered
      with nothing, exactly when that raw close is zero, or it agrees in sign with the last adjusted close and the
      snapshot would not be valid. */
  lemma DataComesBackIff(q: Request, w: Window, raw: seq<RawBar>, total: nat)
    ensures var outcome := TrainingData(q, Some(w), raw, total);
            && (outcome.Data? <==>
                Comparable(q, w, raw, total) && Valid(q, w, raw) && exists x :: LastRawClose(w, raw, x) && x > 0.0)
            && (outcome.DivisionFails? <==> Comparable(q, w, raw, total) && LastRawClose(w, raw, 0.0))
            && (outcome.SnapshotRejected? <==>
                && Comparable(q, w, raw, total) && !Valid(q, w, raw)
                && exists x :: LastRawClose(w, raw, x) && w.bars[|w.bars| - 1].close * x > 0.0)
  {
    OutcomeIff(q, w, raw, total);
    MatchesIff(q, w, raw, total);
    if Matches(q, w, raw, total) {
      AnchorSigns(w, raw);
      if Valid(q, w, raw) { assert BarOk(w.bars[|w.bars| - 1]); }
    }
  }

  lemma AnchorSigns(w: Window, raw: seq<RawBar>)
    requires |w.bars| > 0 && Members(RawDates(raw)) == Members(Dates(w.bars))
    ensures (exists x :: LastRawClose(w, raw, x) && x > 0.0) <==> AnchorRaw(w, raw) > 0.0
    ensures LastRawClose(w, raw, 0.0) <==> AnchorRaw(w, raw) == 0.0
    ensures (exists x :: LastRawClose(w, raw, x) && w.bars[|w.bars| - 1].close * x > 0.0) <==> SameSign(w, raw)
  {
    AnchorIsLastClose(w, raw);
    assert LastRawClose(w, raw, AnchorRaw(w, raw));
    SignsAgree(w.bars[|w.bars| - 1].close, AnchorRaw(w, raw));
  }

  lemma SignsAgree(a: real, b: real)
    ensures a * b > 0.0 <==> (a > 0.0 && b > 0.0) || (a < 0.0 && b < 0.0)
  {
  }

  /** What a caller gets: the window's symbol and its source in capitals, a version and a time that are the newest of
      the window's and the raw bars', and rows in strictly ascending dates inside the range, each with positive prices
      between its low and its high. */
  lemma SnapshotDelivers(q: Request, w: Window, raw: seq<RawBar>, total: nat)
    requires TrainingData(q, Some(w), raw, total).Data?
    ensures var d := TrainingData(q, Some(w), raw, total).snapshot;
            && d.symbol == w.symbol && d.source == q.upper(w.provider)
            && w.version <= d.dataVersion && (d.dataVersion == w.version || exists j :: 0 <= j < |raw| && raw[j].dataVersion == d.dataVersion)
            && (forall j | 0 <= j < |raw| :: raw[j].dataVersion <= d.dataVersion)
            && w.createdAt <= d.fetchedAt && (d.fetchedAt == w.createdAt || exists j :: 0 <= j < |raw| && raw[j].updatedAt == d.fetchedAt)
            && (forall j | 0 <= j < |raw| :: raw[j].updatedAt <= d.fetchedAt)
    ensures var rows := TrainingData(q, Some(w), raw, total).snapshot.rows;
            && |rows| > 0 && (forall i | 0 < i < |rows| :: rows[i - 1].tradeDate < rows[i].tradeDate)
            && (forall i | 0 <= i < |rows| ::
                  && q.start <= rows[i].tradeDate <= q.end
                  && 0.0 < rows[i].low <= rows[i].open <= rows[i].high && rows[i].low <= rows[i].close <= rows[i].high)
  {
    VersionIsNewest(w, raw);
    TimeIsNewest(w, raw);
    ValidRows(TrainingData(q, Some(w), raw, total).snapshot.rows, q.start, q.end);
  }

  lemma VersionIsNewest(w: Window, raw: seq<RawBar>)
    ensures var v := DataVersion(w, raw);
            && w.version <= v && (v == w.version || exists j :: 0 <= j < |raw| && raw[j].dataVersion == v)
            && forall j | 0 <= j < |raw| :: raw[j].dataVersion <= v
  {
    var vs := Versions(raw);
    assert forall j | 0 <= j < |raw| :: vs[j] == raw[j].dataVersion && vs[j] in vs;
  }

  lemma TimeIsNewest(w: Window, raw: seq<RawBar>)
    ensures var v := Newest(w.createdAt, Updates(raw));
            && w.createdAt <= v && (v == w.createdAt || exists j :: 0 <= j < |raw| && raw[j].updatedAt == v)
            && forall j | 0 <= j < |raw| :: raw[j].updatedAt <= v
  {
    var us := Updates(raw);
    assert forall j | 0 <= j < |raw| :: us[j] == raw[j].updatedAt && us[j] in us;
  }

  lemma ValidRows(rows: seq<Bar>, start: int, end: int)
    requires RowsOk(rows, start, end)
    ensures |rows| > 0 && (forall i | 0 < i < |rows| :: rows[i - 1].tradeDate < rows[i].tradeDate)
    ensures forall i | 0 <= i < |rows| ::
              && start <= rows[i].tradeDate <= end
              && 0.0 < rows[i].low <= rows[i].open <= rows[i].high && rows[i].low <= rows[i].close <= rows[i].high
  {
    forall i | 0 <= i < |rows|
      ensures start <= rows[i].tradeDate <= end
      ensures 0.0 < rows[i].low <= rows[i].open <= rows[i].high && rows[i].low <= rows[i].close <= rows[i].high
    {
      InRange(rows, start, end, i);
      assert BarOk(rows[i]);
    }
  }

  lemma InRange(rows: seq<Bar>, start: int, end: int, i: nat)
    requires RowsOk(rows, start, end) && i < |rows|
    ensures start <= rows[i].tradeDate <= end
  {
    assert i > 0 ==> rows[0].tradeDate < rows[i].tradeDate;
    assert i < |rows| - 1 ==> rows[i].tradeDate < rows[|rows| - 1].tradeDate;
  }

  /** Why valid-looking bars are refused: two neighbouring dates do not ascend, a date lies outside the range, a price
      is not positive or outside low and high, or symbol, source or version are out of shape. */
  lemma RejectedHasFault(q: Request, w: Window, raw: seq<RawBar>, total: nat)
    requires TrainingData(q, Some(w), raw, total).SnapshotRejected?
    ensures || (exists i :: 0 < i < |w.bars| && w.bars[i - 1].tradeDate >= w.bars[i].tradeDate)
            || (exists i :: 0 <= i < |w.bars| && (w.bars[i].tradeDate < q.start || q.end < w.bars[i].tradeDate))
            || (exists i :: 0 <= i < |w.bars| && BadPrices(w.bars[i]))
            || |w.symbol| != 9 || w.symbol[6] != '.' || w.symbol[7..] !in ["SH", "SZ", "BJ"]
            || (exists i :: 0 <= i < 6 && !('0' <= w.symbol[i] <= '9'))
            || |q.upper(w.provider)| == 0 || |q.upper(w.provider)| > 64
            || (w.version < 1 && forall j | 0 <= j < |raw| :: raw[j].dataVersion < 1)
  {
    OutcomeIff(q, w, raw, total);
    if forall i | 0 < i < |w.bars| :: w.bars[i - 1].tradeDate < w.bars[i].tradeDate { NeighboursAscend(w.bars); }
    VersionIsNewest(w, raw);
    if forall i | 0 <= i < |w.bars| :: !BadPrices(w.bars[i]) {
      assert forall i | 0 <= i < |w.bars| :: BarOk(w.bars[i]);
    }
  }

  predicate BadPrices(b: Bar) {
    || b.low <= 0.0 || b.open <= 0.0 || b.close <= 0.0 || b.high <= 0.0
    || b.low > b.open || b.low > b.close || b.high < b.open || b.high < b.close
  }

  lemma {:induction false} NeighboursAscend(bars: seq<Bar>)
    requires forall i | 0 < i < |bars| :: bars[i - 1].tradeDate < bars[i].tradeDate
    ensures forall i, j | 0 <= i < j < |bars| :: bars[i].tradeDate < bars[j].tradeDate
  {
    if |bars| > 0 {
      var front := bars[..|bars| - 1];
      NeighboursAscend(front);
      assert forall i | 0 <= i < |front| :: front[i] == bars[i];
      assert |front| > 0 ==> bars[|bars| - 1 - 1].tradeDate < bars[|bars| - 1].tradeDate;
    }
  }

  /** One date given twice in both lists passes every guard of the port and is raised by the snapshot. */
  lemma RepeatedDateRaises()
    ensures var bar := Bar(1, 1.0, 1.0, 1.0, 1.0, 0.0, 0.0);
            var raw := RawBar(1, 1, "X", 1.0, 1, 0);
            TrainingData(Request(1, 0, 9, s => s), Some(Window("000001.SZ", "X", 1, 0, true, [bar, bar])), [raw, raw], 2)
              == SnapshotRejected
  {
    var q := Request(1, 0, 9, s => s);
    var bar := Bar(1, 1.0, 1.0, 1.0, 1.0, 0.0, 0.0);
    var raw := RawBar(1, 1, "X", 1.0, 1, 0);
    var w := Window("000001.SZ", "X", 1, 0, true, [bar, bar]);
    assert Dates(w.bars) == RawDates([raw, raw]);
    OutcomeIff(q, w, [raw, raw], 2);
    assert !RowsOk(w.bars, 0, 9) by { assert w.bars[0].tradeDate == w.bars[1].tradeDate; }
  }

  /** So is a day whose closes are both negative. */
  lemma NegativeClosesRaise()
    ensures var bar := Bar(1, -1.0, -1.0, -1.0, -1.0, 0.0, 0.0);
            TrainingData(Request(1, 0, 9, s => s), Some(Window("000001.SZ", "X", 1, 0, true, [bar])), [RawBar(1, 1, "X", -1.0, 1, 0)], 1)
              == SnapshotRejected
  {
    var q := Request(1, 0, 9, s => s);
    var raw := [RawBar(1, 1, "X", -1.0, 1, 0)];
    var w := Window("000001.SZ", "X", 1, 0, true, [Bar(1, -1.0, -1.0, -1.0, -1.0, 0.0, 0.0)]);
    assert Dates(w.bars) == RawDates(raw);
    OutcomeIff(q, w, raw, 1);
    assert !RowsOk(w.bars, 0, 9) by { assert !BarOk(w.bars[0]); }
  }

  // ----- what rebasing does to prices -----

  lemma DivisionUndone(x: real, a: real)
    requires a != 0.0
    ensures x / a * a == x && x * a / a == x
  {
  }

  lemma QuotientUnique(q: real, x: real, a: real)
    requires a != 0.0 && q * a == x
    ensures q == x / a
  {
    DivisionUndone(q, a);
  }

  /** (c x) / (c a) = x / a. */
  lemma FactorCancels(c: real, x: real, a: real)
    requires c != 0.0 && a != 0.0
    ensures c * a != 0.0 && (c * x) / (c * a) == x / a
  {
    DivisionUndone(x, a);
    var q := x / a;
    assert q * (c * a) == c * (q * a);
    QuotientUnique(q, c * x, c * a);
  }

  function Times(b: Bar, c: real): Bar {
    b.(open := c * b.open, high := c * b.high, low := c * b.low, close := c * b.close)
  }

  function AllTimes(bars: seq<Bar>, c: real): (r: seq<Bar>)
    ensures |r| == |bars| && forall i | 0 <= i < |r| :: r[i] == Times(bars[i], c)
  {
    seq(|bars|, i requires 0 <= i < |bars| => Times(bars[i], c))
  }

  /** One positive factor on all adjusted prices changes nothing, not even whether data comes back. */
  lemma FactorDoesNotMatter(q: Request, w: Window, raw: seq<RawBar>, total: nat, c: real)
    requires c > 0.0
    ensures TrainingData(q, Some(w.(bars := AllTimes(w.bars, c))), raw, total)
            == TrainingData(q, Some(w), raw, total)
  {
    var v := w.(bars := AllTimes(w.bars, c));
    SameDates(w, c);
    assert Matches(q, v, raw, total) <==> Matches(q, w, raw, total);
    if Matches(q, w, raw, total) {
      SameAnchor(w, raw, c);
      if AnchorRaw(w, raw) != 0.0 {
        FactorInAnchored(w.bars, AnchorRaw(w, raw), c);
      }
    }
  }

  lemma SameDates(w: Window, c: real)
    ensures Dates(AllTimes(w.bars, c)) == Dates(w.bars)
  {
  }

  lemma SameAnchor(w: Window, raw: seq<RawBar>, c: real)
    requires |w.bars| > 0 && Members(RawDates(raw)) == Members(Dates(w.bars))
    ensures Members(RawDates(raw)) == Members(Dates(AllTimes(w.bars, c)))
    ensures AnchorRaw(w.(bars := AllTimes(w.bars, c)), raw) == AnchorRaw(w, raw)
  {
    SameDates(w, c);
  }

  lemma FactorInAnchored(bars: seq<Bar>, anchorRaw: real, c: real)
    requires |bars| > 0 && anchorRaw != 0.0 && c > 0.0
    ensures Rebased(AllTimes(bars, c), AnchorRatio(AllTimes(bars, c), anchorRaw)) == Rebased(bars, AnchorRatio(bars, anchorRaw))
  {
    var ratio := AnchorRatio(bars, anchorRaw);
    FactorInRatio(bars, anchorRaw, c);
    FactorInRebased(bars, ratio, AnchorRatio(AllTimes(bars, c), anchorRaw), c);
  }

  lemma FactorInRatio(bars: seq<Bar>, anchorRaw: real, c: real)
    requires |bars| > 0 && anchorRaw != 0.0
    ensures AnchorRatio(AllTimes(bars, c), anchorRaw) == c * AnchorRatio(bars, anchorRaw)
  {
    FactorOfRatio(c, bars[|bars| - 1].close, anchorRaw);
  }

  lemma FactorInRebased(bars: seq<Bar>, ratio: real, scaled: real, c: real)
    requires c > 0.0 && scaled == c * ratio
    ensures Rebased(AllTimes(bars, c), scaled) == Rebased(bars, ratio)
  {
    assert scaled > 0.0 <==> ratio > 0.0;
    if ratio > 0.0 {
      forall i | 0 <= i < |bars| ensures Scaled(Times(bars[i], c), scaled) == Scaled(bars[i], ratio) {
        FactorInBar(bars[i], c, ratio);
      }
      assert Rows(AllTimes(bars, c), scaled) == Rows(bars, ratio);
    }
  }

  lemma FactorInBar(b: Bar, c: real, ratio: real)
    requires c > 0.0 && ratio > 0.0 && c * ratio != 0.0
    ensures Scaled(Times(b, c), c * ratio) == Scaled(b, ratio)
  {
    FactorCancels(c, b.open, ratio);
    FactorCancels(c, b.high, ratio);
    FactorCancels(c, b.low, ratio);
    FactorCancels(c, b.close, ratio);
  }

  lemma FactorOfRatio(c: real, q: real, r: real)
    requires r != 0.0
    ensures (c * q) / r == c * (q / r)
  {
    DivisionUndone(q, r);
    assert (c * (q / r)) * r == c * (q / r * r);
    QuotientUnique(c * (q / r), c * q, r);
  }

  lemma DividingKeepsOrder(x: real, y: real, a: real)
    requires a > 0.0
    ensures x <= y <==> x / a <= y / a
  {
    DivisionUndone(x, a);
    DivisionUndone(y, a);
    var u, v := x / a, y / a;
    assert u <= v ==> u * a <= v * a;
    assert u > v ==> u * a > v * a;
  }

  lemma DividingKeepsRatio(x: real, y: real, a: real)
    requires a > 0.0 && y != 0.0
    ensures y / a != 0.0 && (x / a) / (y / a) == x / y
  {
    DivisionUndone(x, a);
    DivisionUndone(y, a);
    FactorCancels(a, x / a, y / a);
  }

  /** A price of a bar by its place in the bar. */
  datatype Field = Open | High | Low | Close

  function Price(b: Bar, f: Field): real {
    match f case Open => b.open case High => b.high case Low => b.low case Close => b.close
  }

  /** The last close is the raw one; any two prices, of the same day or of different days, keep their order and
      their ratio; dates, volumes and amounts stay. */
  lemma RebasingKeepsShape(q: Request, w: Window, raw: seq<RawBar>, total: nat)
    requires TrainingData(q, Some(w), raw, total).Data?
    ensures var rows := TrainingData(q, Some(w), raw, total).snapshot.rows;
            && |rows| == |w.bars|
            && (forall j | 0 <= j < |raw| && raw[j].tradeDate == w.bars[|w.bars| - 1].tradeDate :: rows[|rows| - 1].close == raw[j].close)
            && (forall i | 0 <= i < |rows| ::
                  rows[i].tradeDate == w.bars[i].tradeDate && rows[i].volume == w.bars[i].volume && rows[i].amount == w.bars[i].amount)
            && forall i, j, f, g | 0 <= i < |rows| && 0 <= j < |rows| ::
                 && (Price(rows[i], f) <= Price(rows[j], g) <==> Price(w.bars[i], f) <= Price(w.bars[j], g))
                 && (Price(w.bars[j], g) != 0.0 ==>
                       Price(rows[j], g) != 0.0 && Price(rows[i], f) / Price(rows[j], g) == Price(w.bars[i], f) / Price(w.bars[j], g))
  {
    var rows, ratio := TrainingData(q, Some(w), raw, total).snapshot.rows, AnchorRatio(w.bars, AnchorRaw(w, raw));
    AnchorClose(w.bars[|w.bars| - 1].close, AnchorRaw(w, raw));
    OneRawBar(q, w, raw, total);
    forall i, j, f, g | 0 <= i < |rows| && 0 <= j < |rows|
      ensures Price(rows[i], f) <= Price(rows[j], g) <==> Price(w.bars[i], f) <= Price(w.bars[j], g)
      ensures Price(w.bars[j], g) != 0.0 ==>
                Price(rows[j], g) != 0.0 && Price(rows[i], f) / Price(rows[j], g) == Price(w.bars[i], f) / Price(w.bars[j], g)
    {
      PricesKept(w.bars[i], w.bars[j], f, g, ratio);
    }
  }

  /** When data comes back, the raw bar of the last adjusted date is the only one of its date. */
  lemma OneRawBar(q: Request, w: Window, raw: seq<RawBar>, total: nat)
    requires TrainingData(q, Some(w), raw, total).Data?
    ensures forall j | 0 <= j < |raw| && raw[j].tradeDate == w.bars[|w.bars| - 1].tradeDate :: raw[j].close == AnchorRaw(w, raw)
  {
    BarsCorrespond(q, w, raw, total);
    LastDateKnown(w, raw);
    var r := ByDate(raw, w.bars[|w.bars| - 1].tradeDate);
    var i :| 0 <= i < |raw| && raw[i] == r;
    forall j | 0 <= j < |raw| && raw[j].tradeDate == r.tradeDate ensures j == i {
      assert RawDates(raw)[j] == RawDates(raw)[i];
    }
  }

  lemma AnchorClose(x: real, r: real)
    requires r != 0.0 && x / r != 0.0
    ensures x / (x / r) == r
  {
    DivisionUndone(x, r);
    QuotientUnique(r, x, x / r);
  }

  lemma PricesKept(b: Bar, c: Bar, f: Field, g: Field, ratio: real)
    requires ratio > 0.0
    ensures Price(Scaled(b, ratio), f) <= Price(Scaled(c, ratio), g) <==> Price(b, f) <= Price(c, g)
    ensures Price(c, g) != 0.0 ==>
              && Price(Scaled(c, ratio), g) != 0.0
              && Price(Scaled(b, ratio), f) / Price(Scaled(c, ratio), g) == Price(b, f) / Price(c, g)
  {
    PriceScaled(b, f, ratio);
    PriceScaled(c, g, ratio);
    DividingKeepsOrder(Price(b, f), Price(c, g), ratio);
    if Price(c, g) != 0.0 { DividingKeepsRatio(Price(b, f), Price(c, g), ratio); }
  }

  lemma PriceScaled(b: Bar, f: Field, ratio: real)
    requires ratio != 0.0
    ensures Price(Scaled(b, ratio), f) == Price(b, f) / ratio
  {
  }

  /** Rebasing rebased prices changes nothing. */
  lemma RebasingIsIdempotent(q: Request, w: Window, raw: seq<RawBar>, total: nat)
    requires TrainingData(q, Some(w), raw, total).Data?
    ensures var rows := TrainingData(q, Some(w), raw, total).snapshot.rows;
            TrainingData(q, Some(w.(bars := rows)), raw, total) == TrainingData(q, Some(w), raw, total)
  {
    var ratio := AnchorRatio(w.bars, AnchorRaw(w, raw));
    DividingKeepsSign(1.0, ratio);
    RowsAsFactor(w.bars, ratio);
    FactorDoesNotMatter(q, w, raw, total, 1.0 / ratio);
  }

  lemma RowsAsFactor(bars: seq<Bar>, ratio: real)
    requires ratio > 0.0
    ensures Rows(bars, ratio) == AllTimes(bars, 1.0 / ratio)
  {
    forall i | 0 <= i < |bars| ensures Scaled(bars[i], ratio) == Times(bars[i], 1.0 / ratio) {
      BarAsFactor(bars[i], ratio);
    }
  }

  lemma BarAsFactor(b: Bar, ratio: real)
    requires ratio > 0.0
    ensures Scaled(b, ratio) == Times(b, 1.0 / ratio)
  {
    AsFactor(b.open, ratio);
    AsFactor(b.high, ratio);
    AsFactor(b.low, ratio);
    AsFactor(b.close, ratio);
  }

  lemma AsFactor(x: real, a: real)
    requires a > 0.0
    ensures x / a == (1.0 / a) * x
  {
    DivisionUndone(1.0, a);
    assert ((1.0 / a) * x) * a == x * (1.0 / a * a);
    QuotientUnique((1.0 / a) * x, x, a);
  }
}
