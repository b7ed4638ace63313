/** Loading a daily price series page by page, frontend/src/features/market-data/gateway.ts. The collation of
    `localeCompare` is a rank given to every date text; two texts compare equal when their ranks do. */
module Series {
  import opened Wrappers
  import opened KeyOrder
  import Paging

  datatype Bar = Bar(tradeDate: string, content: string)

  /** A parsed answer: its items and the total it reports. */
  datatype Page = Page(items: seq<Bar>, total: nat)

  /** QFQ answers may come without a pagination block; the total is then the number of items. */
  datatype Response = Daily(items: seq<Bar>, total: nat) | Qfq(items: seq<Bar>, pagination: Option<nat>)

  datatype LoadError = RequestFailed(page: nat) | SeriesIncomplete

  datatype DailySeries = DailySeries(items: seq<Bar>, total: nat)

  const PAGE_SIZE := 500

  function Parsed(r: Response): Page {
    match r
    case Daily(items, total) => Page(items, total)
    case Qfq(items, pagination) => Page(items, if pagination.Some? then pagination.value else |items|)
  }

  function Flatten(pages: seq<Page>): seq<Bar> {
    if |pages| == 0 then [] else pages[0].items + Flatten(pages[1..])
  }

  predicate DistinctDates(items: seq<Bar>) {
    forall i, j | 0 <= i < j < |items| :: items[i].tradeDate != items[j].tradeDate
  }

  function Dates(items: seq<Bar>): seq<string> {
    seq(|items|, i requires 0 <= i < |items| => items[i].tradeDate)
  }

  /** What the guards let through. */
  predicate Whole(pages: seq<Page>) {
    && |pages| > 0 && (forall i | 0 <= i < |pages| :: pages[i].total == pages[0].total)
    && |Flatten(pages)| == pages[0].total && DistinctDates(Flatten(pages))
  }

  // ----- sorting by date -----

  predicate InOrder(items: seq<Bar>, rank: string -> int) {
    forall i, j | 0 <= i < j < |items| :: rank(items[i].tradeDate) <= rank(items[j].tradeDate)
  }

  function InsertByDate(items: seq<Bar>, b: Bar, rank: string -> int): seq<Bar> {
    if |items| == 0 then [b]
    else
      var front, last := items[..|items| - 1], items[|items| - 1];
      if rank(last.tradeDate) <= rank(b.tradeDate) then items + [b] else InsertByDate(front, b, rank) + [last]
  }

  lemma {:induction false} InsertKeepsBars(items: seq<Bar>, b: Bar, rank: string -> int)
    ensures multiset(InsertByDate(items, b, rank)) == multiset(items) + multiset{b}
  {
    if |items| > 0 {
      var front, last := items[..|items| - 1], items[|items| - 1];
      assert items == front + [last];
      InsertKeepsBars(front, b, rank);
    }
  }

  lemma {:induction false} InsertKeepsOrder(items: seq<Bar>, b: Bar, rank: string -> int)
    requires InOrder(items, rank)
    ensures InOrder(InsertByDate(items, b, rank), rank)
  {
    if |items| > 0 {
      var front, last := items[..|items| - 1], items[|items| - 1];
      InsertKeepsOrder(front, b, rank);
      if rank(last.tradeDate) > rank(b.tradeDate) {
        var r := InsertByDate(front, b, rank);
        InsertKeepsBars(front, b, rank);
        forall i | 0 <= i < |r| ensures rank(r[i].tradeDate) <= rank(last.tradeDate) {
          assert r[i] in multiset(r);
          assert r[i] == b || r[i] in front;
        }
      }
    }
  }

  function SortByDate(items: seq<Bar>, rank: string -> int): seq<Bar> {
    if |items| == 0 then []
    else InsertByDate(SortByDate(items[..|items| - 1], rank), items[|items| - 1], rank)
  }

  lemma {:induction false} SortIsOrdered(items: seq<Bar>, rank: string -> int)
    ensures multiset(SortByDate(items, rank)) == multiset(items) && InOrder(SortByDate(items, rank), rank)
  {
    if |items| > 0 {
      assert items == items[..|items| - 1] + [items[|items| - 1]];
      SortIsOrdered(items[..|items| - 1], rank);
      InsertKeepsBars(SortByDate(items[..|items| - 1], rank), items[|items| - 1], rank);
      InsertKeepsOrder(SortByDate(items[..|items| - 1], rank), items[|items| - 1], rank);
    }
  }

  /** The bars whose date has rank `k`, in their order. */
  function OfRank(items: seq<Bar>, k: int, rank: string -> int): seq<Bar> {
    if |items| == 0 then []
    else
      var last := items[|items| - 1];
      OfRank(items[..|items| - 1], k, rank) + if rank(last.tradeDate) == k then [last] else []
  }

  lemma {:induction false} InsertIsStable(items: seq<Bar>, b: Bar, k: int, rank: string -> int)
    ensures OfRank(InsertByDate(items, b, rank), k, rank) == OfRank(items, k, rank) + if rank(b.tradeDate) == k then [b] else []
  {
    if |items| > 0 {
      var front, last := items[..|items| - 1], items[|items| - 1];
      if rank(last.tradeDate) <= rank(b.tradeDate) {
        assert (items + [b])[..|items|] == items;
      } else {
        InsertIsStable(front, b, k, rank);
        var r := InsertByDate(front, b, rank);
        assert (r + [last])[..|r|] == r;
      }
    }
  }

  /** The sort is stable: bars whose dates collate alike keep their order. */
  lemma {:induction false} SortIsStable(items: seq<Bar>, k: int, rank: string -> int)
    ensures OfRank(SortByDate(items, rank), k, rank) == OfRank(items, k, rank)
  {
    if |items| > 0 {
      SortIsStable(items[..|items| - 1], k, rank);
      InsertIsStable(SortByDate(items[..|items| - 1], rank), items[|items| - 1], k, rank);
    }
  }

  /** Where an insertion lands: behind the last bar that is not later. */
  lemma {:induction false} InsertionPlace(items: seq<Bar>, b: Bar, rank: string -> int, p: nat)
    requires p <= |items| && forall k | p <= k < |items| :: rank(items[k].tradeDate) > rank(b.tradeDate)
    requires p > 0 ==> rank(items[p - 1].tradeDate) <= rank(b.tradeDate)
    ensures InsertByDate(items, b, rank) == items[..p] + [b] + items[p..]
  {
    if p < |items| {
      var front, last := items[..|items| - 1], items[|items| - 1];
      InsertionPlace(front, b, rank, p);
      assert front[p..] + [last] == items[p..] && front[..p] == items[..p];
    } else {
      assert items[..p] == items && items[p..] == [];
    }
  }

  lemma ShiftedUp(was: seq<Bar>, now: seq<Bar>, b: Bar, j: nat)
    requires j <= |was| && |now| == |was| + 1 && now[j] == b
    requires forall k | 0 <= k < j :: now[k] == was[k]
    requires forall k | j <= k < |was| :: now[k + 1] == was[k]
    ensures now == was[..j] + [b] + was[j..]
  {
    assert now[j + 1..] == was[j..];
    assert now == now[..j] + [now[j]] + now[j + 1..];
  }

  /** Moves the later bars of `a[..n]` up by one and returns the place this frees. */
  method MoveUp(a: array<Bar>, n: nat, b: Bar, rank: string -> int) returns (j: nat)
    requires n < a.Length
    modifies a
    ensures j <= n && (j > 0 ==> rank(old(a[j - 1]).tradeDate) <= rank(b.tradeDate))
    ensures forall k | 0 <= k < j || n < k < a.Length :: a[k] == old(a[k])
    ensures forall k | j <= k < n :: a[k + 1] == old(a[k]) && rank(old(a[k]).tradeDate) > rank(b.tradeDate)
  {
    j := n;
    while j > 0 && rank(a[j - 1].tradeDate) > rank(b.tradeDate)
      invariant 0 <= j <= n
      invariant forall k | 0 <= k < j || n < k < a.Length :: a[k] == old(a[k])
      invariant forall k | j <= k < n :: a[k + 1] == old(a[k]) && rank(old(a[k]).tradeDate) > rank(b.tradeDate)
    {
      a[j] := a[j - 1];
      j := j - 1;
    }
  }

  method InsertInPlace(a: array<Bar>, n: nat, rank: string -> int)
    requires n < a.Length
    modifies a
    ensures a[..n + 1] == InsertByDate(old(a[..n]), old(a[n]), rank)
    ensures forall k | n < k < a.Length :: a[k] == old(a[k])
  {
    ghost var was := a[..n];
    var b := a[n];
    var j := MoveUp(a, n, b, rank);
    a[j] := b;
    InsertionPlace(was, b, rank, j);
    ShiftedUp(was, a[..n + 1], b, j);
  }

  lemma SortStep(items: seq<Bar>, n: nat, rank: string -> int)
    requires n < |items|
    ensures SortByDate(items[..n + 1], rank) == InsertByDate(SortByDate(items[..n], rank), items[n], rank)
  {
    assert items[..n + 1][..n] == items[..n];
  }

  method SortInPlace(a: array<Bar>, rank: string -> int)
    modifies a
    ensures a[..] == SortByDate(old(a[..]), rank)
  {
    ghost var was := a[..];
    var n := 0;
    while n < a.Length
      invariant 0 <= n <= a.Length
      invariant a[..n] == SortByDate(was[..n], rank)
      invariant forall k | n <= k < a.Length :: a[k] == was[k]
    {
      SortStep(was, n, rank);
      InsertInPlace(a, n, rank);
      n := n + 1;
    }
    assert a[..] == a[..n] && was == was[..n];
  }

  // ----- the guards -----

  lemma CountDates(items: seq<Bar>)
    ensures |Members(Dates(items))| == |items| <==> DistinctDates(items)
  {
    CountMembers(Dates(items));
    assert forall i | 0 <= i < |items| :: Dates(items)[i] == items[i].tradeDate;
  }

  method EnsureCompleteSeries(pages: seq<Page>, rank: string -> int) returns (r: Result<DailySeries, LoadError>)
    requires |pages| > 0
    ensures r == if Whole(pages) then Ok(DailySeries(SortByDate(Flatten(pages), rank), pages[0].total)) else Err(SeriesIncomplete)
  {
    var total := pages[0].total;
    var items := Flatten(pages);
    CountDates(items);
    if (exists i | 0 <= i < |pages| :: pages[i].total != total) || |items| != total || |Members(Dates(items))| != |items| {
      return Err(SeriesIncomplete);
    }
    var sorted := new Bar[|items|](i requires 0 <= i < |items| => items[i]);
    assert sorted[..] == items;
    SortInPlace(sorted, rank);
    return Ok(DailySeries(sorted[..], total));
  }

  // ----- soundness -----

  lemma SameDateSameBar(items: seq<Bar>, b: Bar, c: Bar)
    requires DistinctDates(items) && b in items && c in items && b.tradeDate == c.tradeDate
    ensures b == c
  {
  }

  lemma DistinctMeansOnce(items: seq<Bar>)
    requires DistinctDates(items)
    ensures forall b, c :: b in multiset(items) && c in multiset(items) && b.tradeDate == c.tradeDate ==> b == c
    ensures forall b :: multiset(items)[b] <= 1
  {
    forall b, c | b in multiset(items) && c in multiset(items) && b.tradeDate == c.tradeDate ensures b == c {
      SameDateSameBar(items, b, c);
    }
    assert Distinct(items);
    forall b ensures multiset(items)[b] <= 1 { DistinctCount(items, b); }
  }

  lemma TwiceCounts(items: seq<Bar>, i: nat, j: nat)
    requires i < j < |items|
    ensures items[i] == items[j] ==> multiset(items)[items[i]] >= 2
  {
    assert items == items[..i] + [items[i]] + items[i + 1..j] + [items[j]] + items[j + 1..];
  }

  lemma OnceMeansDistinct(items: seq<Bar>)
    requires forall b, c :: b in multiset(items) && c in multiset(items) && b.tradeDate == c.tradeDate ==> b == c
    requires forall b :: multiset(items)[b] <= 1
    ensures DistinctDates(items)
  {
    forall i, j | 0 <= i < j < |items| ensures items[i].tradeDate != items[j].tradeDate {
      assert items[i] in multiset(items) && items[j] in multiset(items);
      TwiceCounts(items, i, j);
    }
  }

  /** `r` holds exactly the fetched bars, as many as every page reported, no date twice, in the collation's
      order, strictly so if it tells all dates apart. */
  predicate SoundSeries(r: DailySeries, fetched: seq<Page>, rank: string -> int) {
    && multiset(r.items) == multiset(Flatten(fetched)) && |r.items| == r.total
    && (forall i | 0 <= i < |fetched| :: fetched[i].total == r.total)
    && DistinctDates(r.items) && InOrder(r.items, rank)
    && ((forall b, c | b in r.items && c in r.items && rank(b.tradeDate) == rank(c.tradeDate) :: b.tradeDate == c.tradeDate) ==>
        forall i, j | 0 <= i < j < |r.items| :: rank(r.items[i].tradeDate) < rank(r.items[j].tradeDate))
  }

  /** Whatever the pages hold: what the guards let through is sound. */
  lemma AcceptedSeriesIsSound(pages: seq<Page>, rank: string -> int)
    requires Whole(pages)
    ensures SoundSeries(DailySeries(SortByDate(Flatten(pages), rank), pages[0].total), pages, rank)
  {
    var items := SortByDate(Flatten(pages), rank);
    SortIsOrdered(Flatten(pages), rank);
    assert |multiset(items)| == |multiset(Flatten(pages))|;
    DistinctMeansOnce(Flatten(pages));
    OnceMeansDistinct(items);
  }

  // ----- loading -----

  /** How many pages the total of the first one asks for; the first is always read. */
  function PagesAsked(total: nat): (n: nat)
    ensures n > 0
  {
    var n := (total + PAGE_SIZE - 1) / PAGE_SIZE;
    if n > 1 then n else 1
  }

  predicate Asked(server: nat -> Option<Response>, page: nat) {
    page == 1 || (page > 1 && server(1).Some? && page <= PagesAsked(Parsed(server(1).value).total))
  }

  predicate AllAnswer(server: nat -> Option<Response>) {
    server(1).Some? && forall page | 1 <= page <= PagesAsked(Parsed(server(1).value).total) :: server(page).Some?
  }

  /** `p` is the answer to the request for the page after the first `i`. */
  predicate PageIs(server: nat -> Option<Response>, i: nat, p: Page) {
    server(i + 1).Some? && p == Parsed(server(i + 1).value)
  }

  function Fetched(server: nat -> Option<Response>): seq<Page>
    requires AllAnswer(server)
  {
    seq(PagesAsked(Parsed(server(1).value).total), i requires 0 <= i < PagesAsked(Parsed(server(1).value).total) => Parsed(server(i + 1).value))
  }

  /** The server cuts one list into pages, in either mode; only the pages the list has are ever asked for. */
  predicate Serves(server: nat -> Option<Response>, list: seq<Bar>) {
    forall page: nat | 1 <= page <= PagesAsked(|list|) ::
      server(page).Some? && Parsed(server(page).value) == Page(Paging.Page(list, page, PAGE_SIZE), |list|)
  }

  /** Against any server the answer is sound, or names a page that was asked for and failed, or the fetched pages
      are not whole. Against one that serves a list it is that list, sorted, exactly when no date repeats in it. */
  method LoadDailyPrices(server: nat -> Option<Response>, rank: string -> int) returns (r: Result<DailySeries, LoadError>)
    ensures r.Ok? ==> AllAnswer(server) && SoundSeries(r.value, Fetched(server), rank)
    ensures r.Err? && r.error.RequestFailed? ==> Asked(server, r.error.page) && server(r.error.page).None?
    ensures r == Err(SeriesIncomplete) ==> AllAnswer(server) && !Whole(Fetched(server))
    ensures forall list | Serves(server, list) ::
              && (r.Ok? <==> DistinctDates(list))
              && (r.Ok? ==> r.value.items == SortByDate(list, rank))
  {
    var firstAnswer := server(1);
    if firstAnswer.None? {
      return Err(RequestFailed(1));
    }
    var first := Parsed(firstAnswer.value);
    var pageCount := (first.total + PAGE_SIZE - 1) / PAGE_SIZE;
    var pages := [first];
    var page := 2;
    while page <= pageCount
      invariant 2 <= page && page - 1 == |pages| <= PagesAsked(first.total)
      invariant forall i | 0 <= i < |pages| :: PageIs(server, i, pages[i])
    {
      var answer := server(page);
      if answer.None? {
        return Err(RequestFailed(page));
      }
      pages := pages + [Parsed(answer.value)];
      page := page + 1;
    }
    AllFetched(server, pages);
    r := EnsureCompleteSeries(pages, rank);
    if Whole(pages) { AcceptedSeriesIsSound(pages, rank); }
    forall list | Serves(server, list) ensures Flatten(pages) == list && (Whole(pages) <==> DistinctDates(list)) {
      ServedListIsFetched(server, list);
    }
  }

  lemma AllFetched(server: nat -> Option<Response>, pages: seq<Page>)
    requires server(1).Some? && |pages| == PagesAsked(Parsed(server(1).value).total)
    requires forall i | 0 <= i < |pages| :: PageIs(server, i, pages[i])
    ensures AllAnswer(server) && Fetched(server) == pages
  {
    forall page | 1 <= page <= |pages| ensures server(page).Some? {
      assert PageIs(server, page - 1, pages[page - 1]);
    }
  }

  // ----- completeness -----

  lemma {:induction false} FlattenServed(server: nat -> Option<Response>, list: seq<Bar>, pages: seq<Page>, from: nat)
    requires Serves(server, list) && from <= |pages| <= PagesAsked(|list|)
    requires forall i | 0 <= i < |pages| :: PageIs(server, i, pages[i])
    ensures Flatten(pages[from..]) == Paging.Pages(list, from + 1, |pages|, PAGE_SIZE)
    decreases |pages| - from
  {
    if from < |pages| {
      FlattenServed(server, list, pages, from + 1);
      assert pages[from..][1..] == pages[from + 1..];
    }
  }

  /** A server that serves a list is read completely, and its list is accepted exactly when no date occurs twice. */
  lemma ServedListIsFetched(server: nat -> Option<Response>, list: seq<Bar>)
    requires Serves(server, list)
    ensures AllAnswer(server) && Flatten(Fetched(server)) == list
    ensures Whole(Fetched(server)) <==> DistinctDates(list)
  {
    assert Parsed(server(1).value).total == |list|;
    var pages := Fetched(server);
    FlattenServed(server, list, pages, 0);
    assert pages[0..] == pages;
    Paging.PagesFrom(list, 1, |pages|, PAGE_SIZE);
    assert forall i | 0 <= i < |pages| :: pages[i].total == |list|;
  }

  lemma {:induction false} FlattenCount(pages: seq<Page>, n: nat)
    requires forall i | 0 <= i < |pages| :: |pages[i].items| == n
    ensures |Flatten(pages)| == |pages| * n
  {
    if |pages| > 0 {
      FlattenCount(pages[1..], n);
      assert |pages| * n == n + (|pages| - 1) * n;
    }
  }

  /** A server that knows no pages and answers every request with the whole list, without a pagination block, is
      accepted exactly when the list fits on one page and repeats no date. */
  lemma UnpagedListLoadsIff(server: nat -> Option<Response>, list: seq<Bar>)
    requires forall page: nat :: server(page) == Some(Qfq(list, None))
    ensures AllAnswer(server) && (Whole(Fetched(server)) <==> |list| <= PAGE_SIZE && DistinctDates(list))
  {
    var pages := Fetched(server);
    FlattenCount(pages, |list|);
    if |list| > PAGE_SIZE {
      assert |pages| >= 2 && |pages| * |list| >= 2 * |list|;
    } else {
      assert Parsed(server(1).value).items == Paging.Page(list, 1, PAGE_SIZE);
      ServedListIsFetched(server, list);
    }
  }

  // ----- in the answers' own terms -----

  /** A page beyond the first is asked for exactly when the first answer's total reaches into it. */
  lemma AskedIff(server: nat -> Option<Response>, page: nat)
    requires page > 1 && server(1).Some?
    ensures Asked(server, page) <==>
              (page - 1) * 500 < match server(1).value
                                 case Daily(_, total) => total
                                 case Qfq(items, Some(total)) => total
                                 case Qfq(items, None) => |items|
  {
  }

  /** Rows `(page - 1) * 500` and on of a list, at most 500. */
  predicate IsPage(items: seq<Bar>, list: seq<Bar>, page: nat)
    requires page > 0
  {
    && |items| <= 500
    && (forall k | 0 <= k < |items| :: (page - 1) * 500 + k < |list| && items[k] == list[(page - 1) * 500 + k])
    && (|items| < 500 ==> (page - 1) * 500 + |items| >= |list|)
  }

  lemma IsPageIff(items: seq<Bar>, list: seq<Bar>, page: nat)
    requires page > 0
    ensures IsPage(items, list, page) <==> items == Paging.Page(list, page, PAGE_SIZE)
  {
    var p, from := Paging.Page(list, page, PAGE_SIZE), (page - 1) * PAGE_SIZE;
    assert |p| == if from >= |list| then 0 else if |list| - from <= PAGE_SIZE then |list| - from else PAGE_SIZE;
    assert forall k | 0 <= k < |p| :: p[k] == list[from + k];
    if IsPage(items, list, page) {
      assert |items| == |p| by {
        if |items| > 0 { assert items[|items| - 1] == list[from + (|items| - 1)]; }
      }
      assert items == p;
    }
  }

  /** An unadjusted server whose answers for the pages of a list are its rows and its length is loaded completely,
      exactly when no date repeats; so is an adjusted one with a pagination block. */
  lemma AnswersLoadIff(server: nat -> Option<Response>, list: seq<Bar>)
    requires forall page: nat | page == 1 || (page > 1 && (page - 1) * 500 < |list|) :: AnswersPage(server(page), list, page)
    ensures AllAnswer(server) && Flatten(Fetched(server)) == list && (Whole(Fetched(server)) <==> DistinctDates(list))
  {
    forall page: nat | 1 <= page <= PagesAsked(|list|)
      ensures server(page).Some? && Parsed(server(page).value) == Page(Paging.Page(list, page, PAGE_SIZE), |list|)
    {
      assert AnswersPage(server(page), list, page);
      IsPageIff(server(page).value.items, list, page);
    }
    ServedListIsFetched(server, list);
  }

  predicate AnswersPage(answer: Option<Response>, list: seq<Bar>, page: nat)
    requires page > 0
  {
    match answer
    case None => false
    case Some(Daily(items, total)) => total == |list| && IsPage(items, list, page)
    case Some(Qfq(items, pagination)) => pagination == Some(|list|) && IsPage(items, list, page)
  }
}
