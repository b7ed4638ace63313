/** Reading a newest-first list page by page, backend/src/long_invest/bootstrap/dashboard.py, over a list that
    does not change between the requests. */
module Paging {

  const PAGE_SIZE := 200

  /** Page `page`, counted from 1, of a list cut into pages of `size`. */
  function Page<T>(list: seq<T>, page: nat, size: nat): (items: seq<T>)
    requires page > 0
    ensures |items| <= size
  {
    var from := (page - 1) * size;
    if from >= |list| then []
    else if |list| - from <= size then list[from..]
    else list[from..from + size]
  }

  // ----- every page -----

  function Pages<T>(list: seq<T>, page: nat, last: nat, size: nat): seq<T>
    requires page > 0
    decreases last + 1 - page
  {
    if page > last then [] else Page(list, page, size) + Pages(list, page + 1, last, size)
  }

  /** The first page, then the others the total asks for. */
  function AllPages<T>(list: seq<T>, size: nat): seq<T>
    requires size > 0
  {
    Page(list, 1, size) + Pages(list, 2, (|list| + size - 1) / size, size)
  }

  lemma {:induction false} PagesFrom<T>(list: seq<T>, page: nat, last: nat, size: nat)
    requires 0 < page <= last + 1 && last * size >= |list|
    ensures Pages(list, page, last, size) == if (page - 1) * size >= |list| then [] else list[(page - 1) * size..]
    decreases last + 1 - page
  {
    var from := (page - 1) * size;
    assert page * size == from + size;
    if page <= last {
      PagesFrom(list, page + 1, last, size);
      JoinPage(list, from, size);
    }
  }

  lemma JoinPage<T>(list: seq<T>, from: nat, size: nat)
    ensures from + size < |list| ==> list[from..from + size] + list[from + size..] == list[from..]
  {
  }

  /** The page count taken from the first answer is neither too small nor too large: the whole list comes back, in order. */
  lemma AllPagesAreRead<T>(list: seq<T>, size: nat)
    requires size > 0
    ensures AllPages(list, size) == list
  {
    var last := (|list| + size - 1) / size;
    RoundedUp(|list|, size);
    if last > 0 { PagesFrom(list, 1, last, size); }
  }

  lemma RoundedUp(n: nat, size: nat)
    requires size > 0
    ensures var last := (n + size - 1) / size; last * size >= n && (last == 0 <==> n == 0)
  {
    var last := (n + size - 1) / size;
    assert n + size - 1 == last * size + (n + size - 1) % size;
  }

  // ----- today's events -----

  datatype Event = Event(createdAt: int, content: string)

  /** The date in UTC+8 of a moment in seconds. */
  function DayOf(seconds: int): int {
    (seconds + 8 * 3600) / 86400
  }

  function Today(events: seq<Event>, today: int): seq<Event> {
    if |events| == 0 then []
    else (if DayOf(events[0].createdAt) == today then [events[0]] else []) + Today(events[1..], today)
  }

  predicate NewestFirst(events: seq<Event>) {
    forall i, j | 0 <= i < j < |events| :: events[i].createdAt >= events[j].createdAt
  }

  lemma Associative<T>(a: seq<T>, b: seq<T>, c: seq<T>)
    ensures a + (b + c) == a + b + c
  {
  }

  lemma {:induction false} TodaySplits(a: seq<Event>, b: seq<Event>, today: int)
    ensures Today(a + b, today) == Today(a, today) + Today(b, today)
  {
    if |a| == 0 {
      assert a + b == b;
    } else {
      TodaySplits(a[1..], b, today);
      var head := if DayOf(a[0].createdAt) == today then [a[0]] else [];
      assert (a + b)[1..] == a[1..] + b;
      Associative(head, Today(a[1..], today), Today(b, today));
    }
  }

  lemma {:induction false} TodayCount(events: seq<Event>, today: int)
    ensures |Today(events, today)| <= |events|
    ensures |Today(events, today)| == |events| <==> forall i | 0 <= i < |events| :: DayOf(events[i].createdAt) == today
    ensures |Today(events, today)| == 0 <==> forall i | 0 <= i < |events| :: DayOf(events[i].createdAt) != today
  {
    if |events| > 0 {
      TodayCount(events[1..], today);
      assert events == [events[0]] + events[1..];
    }
  }

  /** An event dated after today. It makes the first page end the search. */
  predicate FromTheFuture(events: seq<Event>, today: int) {
    |events| > 0 && DayOf(events[0].createdAt) > today
  }

  /** The loop stops at a short page, at a page that is not all of today, or at the reported total. What it
      returns are today's events of the whole list, or of the first page when that begins in the future. */
  method TodaySignalEvents(events: seq<Event>, now: int) returns (result: seq<Event>)
    requires NewestFirst(events)
    ensures result == TodayRead(events, DayOf(now))
  {
    var today, total := DayOf(now), |events|;
    result := [];
    var page := 1;
    while true
      invariant page > 0 && Reached(events, page, today)
      invariant result == Today(events[..(page - 1) * PAGE_SIZE], today)
      decreases |events| - (page - 1) * PAGE_SIZE
    {
      var items := Page(events, page, PAGE_SIZE);
      var current := Today(items, today);
      result := result + current;
      PageRead(events, page, today);
      if |items| < PAGE_SIZE || |current| < |items| || page * PAGE_SIZE >= total {
        SearchOver(events, page, today);
        return;
      }
      page := page + 1;
    }
  }

  function TodayRead(events: seq<Event>, today: int): seq<Event> {
    Today(if FromTheFuture(events, today) then Page(events, 1, PAGE_SIZE) else events, today)
  }

  /** A page is requested only while the list goes on, and a second one only without a future event. */
  predicate Reached(events: seq<Event>, page: nat, today: int) {
    page == 1 || (page > 1 && (page - 1) * PAGE_SIZE < |events| && !FromTheFuture(events, today))
  }

  lemma PageRead(events: seq<Event>, page: nat, today: int)
    requires page > 0 && Reached(events, page, today)
    ensures var items, from := Page(events, page, PAGE_SIZE), (page - 1) * PAGE_SIZE;
            && from + |items| <= |events| && items == events[from..from + |items|]
            && Today(events[..from], today) + Today(items, today) == Today(events[..from + |items|], today)
            && |Today(items, today)| <= |items|
            && (|Today(items, today)| == |items| > 0 ==> !FromTheFuture(events, today))
            && (|items| < PAGE_SIZE ==> from + |items| == |events|)
  {
    var items, from := Page(events, page, PAGE_SIZE), (page - 1) * PAGE_SIZE;
    TodaySplits(events[..from], items, today);
    TodayCount(items, today);
    assert events[..from] + items == events[..from + |items|];
    if page == 1 && |items| > 0 { assert items[0] == events[0]; }
  }

  lemma SearchOver(events: seq<Event>, page: nat, today: int)
    requires NewestFirst(events) && page > 0 && Reached(events, page, today)
    requires var items := Page(events, page, PAGE_SIZE);
             |items| < PAGE_SIZE || |Today(items, today)| < |items| || page * PAGE_SIZE >= |events|
    ensures Today(events[..(page - 1) * PAGE_SIZE], today) + Today(Page(events, page, PAGE_SIZE), today) == TodayRead(events, today)
  {
    var items, from := Page(events, page, PAGE_SIZE), (page - 1) * PAGE_SIZE;
    PageRead(events, page, today);
    RestIsNotToday(events, from + |items|, today, items);
    if FromTheFuture(events, today) { assert events[..|items|] == items; }
  }

  /** Once a page is short, or holds an event that is not of today, or reaches the end, nothing of today follows. */
  lemma RestIsNotToday(events: seq<Event>, read: nat, today: int, items: seq<Event>)
    requires NewestFirst(events) && |items| <= read <= |events| && items == events[read - |items|..read]
    requires read == |events| || |Today(items, today)| < |items|
    ensures !FromTheFuture(events, today) ==> Today(events, today) == Today(events[..read], today)
  {
    assert events == events[..read] + events[read..];
    TodaySplits(events[..read], events[read..], today);
    if !FromTheFuture(events, today) && read < |events| {
      TodayCount(items, today);
      var i :| 0 <= i < |items| && DayOf(items[i].createdAt) != today;
      LaterIsNotToday(events, read - |items| + i, read, today);
      NoneOfToday(events, read, today);
    }
  }

  /** In a newest-first list that does not begin in the future, nothing behind an event that is not of today is. */
  lemma LaterIsNotToday(events: seq<Event>, i: nat, read: nat, today: int)
    requires NewestFirst(events) && i < read <= |events| && !FromTheFuture(events, today) && DayOf(events[i].createdAt) != today
    ensures forall j | read <= j < |events| :: DayOf(events[j].createdAt) != today
  {
    if i > 0 { DayMonotone(events[0].createdAt, events[i].createdAt); }
    forall j | read <= j < |events| ensures DayOf(events[j].createdAt) != today {
      DayMonotone(events[i].createdAt, events[j].createdAt);
    }
  }

  /** A day lasts from 16:00 UTC of the day before, eight hours ahead of it. */
  lemma DayInHours(seconds: int, day: int)
    ensures DayOf(seconds) == day <==> day * 86400 - 28800 <= seconds < day * 86400 + 57600
  {
  }

  /** Today's events are the events of the day, in their order and no others. */
  lemma {:induction false} TodayIsFilter(events: seq<Event>, today: int)
    ensures forall e :: e in Today(events, today) <==> e in events && today * 86400 - 28800 <= e.createdAt < today * 86400 + 57600
    ensures multiset(Today(events, today)) <= multiset(events)
  {
    if |events| > 0 {
      TodayIsFilter(events[1..], today);
      DayInHours(events[0].createdAt, today);
      assert events == [events[0]] + events[1..];
    }
  }

  lemma DayMonotone(a: int, b: int)
    requires a >= b
    ensures DayOf(a) >= DayOf(b)
  {
  }

  /** All of today's events come back exactly when none is dated in the future or the first page holds
      all that are of today. */
  lemma TodayIsCompleteIff(events: seq<Event>, today: int)
    requires NewestFirst(events)
    ensures TodayRead(events, today) == Today(events, today) <==>
              !FromTheFuture(events, today) || forall i | PAGE_SIZE <= i < |events| :: DayOf(events[i].createdAt) != today
  {
    if FromTheFuture(events, today) {
      var first := Page(events, 1, PAGE_SIZE);
      var rest := events[|first|..];
      assert events == first + rest;
      TodaySplits(first, rest, today);
      assert TodayRead(events, today) == Today(events, today) <==> |Today(rest, today)| == 0;
      NoneOfToday(events, |first|, today);
    }
  }

  lemma NoneOfToday(events: seq<Event>, from: nat, today: int)
    requires from <= |events|
    ensures |Today(events[from..], today)| == 0 <==> forall i | from <= i < |events| :: DayOf(events[i].createdAt) != today
  {
    var rest := events[from..];
    TodayCount(rest, today);
    assert forall i | from <= i < |events| :: events[i] == rest[i - from];
  }

  /** One event of tomorrow, then `n` of today. */
  function TomorrowFirst(n: nat): seq<Event> {
    [Event(86400, "")] + seq(n, _ => Event(0, ""))
  }

  /** It happens: behind one event of tomorrow, the last of a page full of today's is lost. */
  lemma FutureEventHidesToday()
    ensures var events := TomorrowFirst(PAGE_SIZE);
            && NewestFirst(events) && Today(events, 0) == events[1..]
            && TodayRead(events, 0) == events[1..PAGE_SIZE]
  {
    var events := TomorrowFirst(PAGE_SIZE);
    var today, read := events[1..], events[1..PAGE_SIZE];
    assert DayOf(86400) == 1 && DayOf(0) == 0;
    assert Page(events, 1, PAGE_SIZE) == [events[0]] + read && ([events[0]] + read)[1..] == read;
    AllOfToday(today);
    AllOfToday(read);
  }

  lemma {:induction false} AllOfToday(events: seq<Event>)
    requires forall i | 0 <= i < |events| :: DayOf(events[i].createdAt) == 0
    ensures Today(events, 0) == events
  {
    if |events| > 0 { AllOfToday(events[1..]); }
  }
}
