/** The dashboard timeline merged from several sources, backend/src/long_invest/bootstrap/dashboard.py. */
module Timeline {
  import opened Wrappers
  import opened KeyOrder

  datatype Entry = Entry(occurredAt: int, id: string, content: string)

  /** Strictly greater in the key `(occurred_at, id)`. */
  predicate Newer(a: Entry, b: Entry) {
    a.occurredAt > b.occurredAt || (a.occurredAt == b.occurredAt && a.id != b.id && Le(b.id, a.id))
  }

  predicate Descending(es: seq<Entry>) {
    forall i, j | 0 <= i < j < |es| :: Newer(es[i], es[j])
  }

  predicate UniqueIds(es: seq<Entry>) {
    forall i, j | 0 <= i < j < |es| :: es[i].id != es[j].id
  }

  lemma NewerTransitive(a: Entry, b: Entry, c: Entry)
    requires Newer(a, b) && Newer(b, c)
    ensures Newer(a, c)
  {
    if a.occurredAt == c.occurredAt {
      LeTransitive(c.id, b.id, a.id);
      if a.id == c.id { LeAntisymmetric(a.id, b.id); }
    }
  }

  lemma NewerTotal(a: Entry, b: Entry)
    requires a.id != b.id
    ensures Newer(a, b) != Newer(b, a)
  {
    LeTotal(a.id, b.id);
    if Le(a.id, b.id) && Le(b.id, a.id) { LeAntisymmetric(a.id, b.id); }
  }

  // ----- the merge -----

  function InsertEntry(e: Entry, es: seq<Entry>): (r: seq<Entry>)
    ensures Members(r) == Members(es) + {e} && |r| == |es| + 1
  {
    if |es| == 0 || Newer(e, es[0]) then [e] + es
    else
      var tail := InsertEntry(e, es[1..]);
      assert Members(es) == {es[0]} + Members(es[1..]);
      assert Members([es[0]] + tail) == {es[0]} + Members(tail);
      [es[0]] + tail
  }

  /** `sorted(entries, key=(occurred_at, id), reverse=True)`. */
  function NewestFirst(es: seq<Entry>): (r: seq<Entry>)
    ensures Members(r) == Members(es) && |r| == |es|
  {
    if |es| == 0 then []
    else
      assert Members(es) == {es[0]} + Members(es[1..]);
      InsertEntry(es[0], NewestFirst(es[1..]))
  }

  function Take<T>(es: seq<T>, limit: nat): seq<T> {
    if |es| <= limit then es else es[..limit]
  }

  function Concat(lists: seq<seq<Entry>>): seq<Entry> {
    if |lists| == 0 then [] else lists[0] + Concat(lists[1..])
  }

  predicate Passes(e: Entry, before: Option<int>) {
    before.None? || e.occurredAt < before.value
  }

  function Matching(es: seq<Entry>, before: Option<int>): seq<Entry> {
    if |es| == 0 then [] else (if Passes(es[0], before) then [es[0]] else []) + Matching(es[1..], before)
  }

  /** The lists of the sources that answered. */
  function Answered(sources: seq<Option<seq<Entry>>>): seq<seq<Entry>> {
    if |sources| == 0 then [] else (if sources[0].Some? then [sources[0].value] else []) + Answered(sources[1..])
  }

  /** What each source hands over: the first page of its list. */
  function FirstPages(lists: seq<seq<Entry>>, limit: nat): seq<seq<Entry>> {
    if |lists| == 0 then [] else [Take(lists[0], limit)] + FirstPages(lists[1..], limit)
  }

  datatype TimelineError = SourcesUnavailable

  /** `sources` are the full lists; None stands for one that raised. */
  function Timeline(sources: seq<Option<seq<Entry>>>, limit: nat, before: Option<int>): Result<seq<Entry>, TimelineError> {
    var entries := Matching(Concat(FirstPages(Answered(sources), limit)), before);
    if |entries| == 0 && forall i | 0 <= i < |sources| :: sources[i].None? then Err(SourcesUnavailable)
    else Ok(Take(NewestFirst(entries), limit))
  }

  // ----- what it should show -----

  /** `r` lists the newest `limit` entries of `all`, newest first. */
  predicate IsNewest(limit: nat, all: set<Entry>, r: seq<Entry>) {
    && Descending(r) && Members(r) <= all && |r| == (if |all| <= limit then |all| else limit)
    && forall x, y | x in all && x !in r && y in r :: Newer(y, x)
  }

  predicate SetUniqueIds(all: set<Entry>) {
    forall a, b | a in all && b in all && a != b :: a.id != b.id
  }

  /** There is only one such list. */
  lemma {:induction false} NewestIsUnique(limit: nat, all: set<Entry>, r: seq<Entry>, s: seq<Entry>)
    requires SetUniqueIds(all) && IsNewest(limit, all, r) && IsNewest(limit, all, s)
    ensures r == s
  {
    forall i | 0 <= i < |r| ensures r[i] == s[i] { SamePlace(limit, all, r, s, i); }
  }

  /** Two listings that agree up to place `i` agree there too: either entry would have to be newer than the other. */
  lemma {:induction false} SamePlace(limit: nat, all: set<Entry>, r: seq<Entry>, s: seq<Entry>, i: nat)
    requires SetUniqueIds(all) && IsNewest(limit, all, r) && IsNewest(limit, all, s) && i < |r|
    ensures r[i] == s[i]
  {
    if i > 0 {
      forall k: nat | k < i ensures r[k] == s[k] { SamePlace(limit, all, r, s, k); }
    }
    if r[i] != s[i] {
      assert r[i] in Members(r) && s[i] in Members(s);
      AtMostPlace(limit, all, r, s, i);
      AtMostPlace(limit, all, s, r, i);
      NewerTotal(r[i], s[i]);
    }
  }

  lemma AtMostPlace(limit: nat, all: set<Entry>, r: seq<Entry>, s: seq<Entry>, i: nat)
    requires SetUniqueIds(all) && IsNewest(limit, all, r) && IsNewest(limit, all, s) && i < |r|
    requires forall k: nat | k < i :: r[k] == s[k]
    requires r[i] != s[i]
    ensures Newer(s[i], r[i])
  {
    assert r[i] in Members(r) && s[i] in Members(s);
    if r[i] !in s { return; }
    forall k: nat | k < i ensures s[k] != r[i] { assert Newer(r[k], r[i]); }
    var j :| 0 <= j < |s| && s[j] == r[i];
  }


  // ----- the merge shows the newest -----

  lemma InsertKeepsDescending(e: Entry, es: seq<Entry>)
    requires Descending(es) && forall x | x in es :: x.id != e.id
    ensures Descending(InsertEntry(e, es))
  {
    if |es| > 0 && !Newer(e, es[0]) {
      NewerTotal(e, es[0]);
      var tail := InsertEntry(e, es[1..]);
      InsertKeepsDescending(e, es[1..]);
      forall j | 0 <= j < |tail| ensures Newer(es[0], tail[j]) {
        assert tail[j] in Members(tail);
      }
    } else if |es| > 0 {
      forall j | 0 <= j < |es| ensures Newer(e, es[j]) {
        if j > 0 { NewerTransitive(e, es[0], es[j]); }
      }
    }
  }

  lemma {:induction false} SortDescends(es: seq<Entry>)
    requires UniqueIds(es)
    ensures Descending(NewestFirst(es))
  {
    if |es| > 0 {
      SortDescends(es[1..]);
      forall x | x in NewestFirst(es[1..]) ensures x.id != es[0].id {
        assert x in Members(NewestFirst(es[1..]));
      }
      InsertKeepsDescending(es[0], NewestFirst(es[1..]));
    }
  }

  lemma CountEntries(es: seq<Entry>)
    requires UniqueIds(es)
    ensures |Members(es)| == |es| && SetUniqueIds(Members(es))
  {
    assert Distinct(es);
    CountMembers(es);
  }

  lemma SortAndCutIsNewest(es: seq<Entry>, limit: nat)
    requires UniqueIds(es)
    ensures IsNewest(limit, Members(es), Take(NewestFirst(es), limit))
  {
    SortDescends(es);
    CountEntries(es);
    CutOfDescending(NewestFirst(es), limit);
  }

  lemma CutOfDescending(all: seq<Entry>, limit: nat)
    requires Descending(all) && |Members(all)| == |all|
    ensures IsNewest(limit, Members(all), Take(all, limit))
  {
    var r := Take(all, limit);
    assert forall i | 0 <= i < |r| :: all[i] == r[i] && r[i] in r;
    forall x, y | x in all && x !in r && y in r ensures Newer(y, x) {
      var i :| 0 <= i < |all| && all[i] == x;
      var j :| 0 <= j < |r| && r[j] == y;
    }
  }

  /** Cutting the newest entries from a part of all entries gives the newest of all exactly when every entry
      outside the part is older than everything shown and nothing shown could be missing. */
  lemma PartSufficesIff(limit: nat, all: set<Entry>, part: set<Entry>, r: seq<Entry>)
    requires SetUniqueIds(all) && part <= all && IsNewest(limit, part, r)
    ensures IsNewest(limit, all, r) <==>
            forall u | u in all && u !in part :: |r| == limit && forall y | y in r :: Newer(y, u)
  {
    PartSize(all, part);
    assert forall u | u in r :: u in Members(r);
    if IsNewest(limit, all, r) {
      forall u | u in all && u !in part ensures |r| == limit && forall y | y in r :: Newer(y, u) {
        PartSize(all - {u}, part);
      }
    }
    if forall u | u in all && u !in part :: |r| == limit && forall y | y in r :: Newer(y, u) {
      assert part == all || exists u :: u in all && u !in part;
      forall x, y | x in all && x !in r && y in r ensures Newer(y, x) {
        assert x in part || x !in part;
      }
    }
  }

  lemma PartSize(all: set<Entry>, part: set<Entry>)
    requires part <= all
    ensures |part| <= |all|
  {
    assert all == part + (all - part);
  }

  // ----- from the sources to the merge -----

  lemma {:induction false} InConcat(lists: seq<seq<Entry>>, x: Entry)
    ensures x in Concat(lists) <==> exists i :: 0 <= i < |lists| && x in lists[i]
  {
    if |lists| > 0 {
      InConcat(lists[1..], x);
      assert forall i | 1 <= i < |lists| :: lists[i] == lists[1..][i - 1];
      if x in Concat(lists[1..]) {
        var i :| 0 <= i < |lists[1..]| && x in lists[1..][i];
        assert x in lists[i + 1];
      }
    }
  }

  lemma {:induction false} InMatching(es: seq<Entry>, before: Option<int>, x: Entry)
    ensures x in Matching(es, before) <==> x in es && Passes(x, before)
  {
    if |es| > 0 {
      InMatching(es[1..], before, x);
      assert x in es <==> x == es[0] || x in es[1..];
    }
  }

  lemma {:induction false} MatchingUnique(es: seq<Entry>, before: Option<int>)
    requires UniqueIds(es)
    ensures UniqueIds(Matching(es, before))
  {
    if |es| > 0 {
      MatchingUnique(es[1..], before);
      forall x | x in Matching(es[1..], before) ensures x.id != es[0].id { InMatching(es[1..], before, x); }
    }
  }

  lemma {:induction false} FirstPagesRead(lists: seq<seq<Entry>>, limit: nat)
    ensures |FirstPages(lists, limit)| == |lists|
    ensures forall i | 0 <= i < |lists| :: FirstPages(lists, limit)[i] == Take(lists[i], limit)
  {
    if |lists| > 0 { FirstPagesRead(lists[1..], limit); }
  }

  lemma ReadFromConcat(lists: seq<seq<Entry>>, limit: nat, x: Entry)
    requires x in Concat(FirstPages(lists, limit))
    ensures x in Concat(lists)
  {
    FirstPagesRead(lists, limit);
    InConcat(FirstPages(lists, limit), x);
    var i :| 0 <= i < |lists| && x in FirstPages(lists, limit)[i];
    assert x in lists[i];
    InConcat(lists, x);
  }

  lemma {:induction false} ReadUnique(lists: seq<seq<Entry>>, limit: nat)
    requires UniqueIds(Concat(lists))
    ensures UniqueIds(Concat(FirstPages(lists, limit)))
  {
    if |lists| > 0 {
      var head, tail := lists[0], Concat(lists[1..]);
      var head', tail' := Take(head, limit), Concat(FirstPages(lists[1..], limit));
      assert forall i | 0 <= i < |head| :: Concat(lists)[i] == head[i];
      assert forall i | 0 <= i < |tail| :: Concat(lists)[|head| + i] == tail[i];
      ReadUnique(lists[1..], limit);
      forall i, j | 0 <= i < |head'| && 0 <= j < |tail'| ensures head'[i].id != tail'[j].id {
        ReadFromConcat(lists[1..], limit, tail'[j]);
        var k :| 0 <= k < |tail| && tail[k] == tail'[j];
        assert Concat(lists)[i].id != Concat(lists)[|head| + k].id;
      }
      assert Concat(FirstPages(lists, limit)) == head' + tail';
    }
  }

  /** All entries of the sources that answered which pass the cursor. */
  function Candidates(sources: seq<Option<seq<Entry>>>, before: Option<int>): set<Entry> {
    Members(Matching(Concat(Answered(sources)), before))
  }

  function Read(sources: seq<Option<seq<Entry>>>, limit: nat, before: Option<int>): set<Entry> {
    Members(Matching(Concat(FirstPages(Answered(sources), limit)), before))
  }

  lemma ReadIsPart(sources: seq<Option<seq<Entry>>>, limit: nat, before: Option<int>)
    requires UniqueIds(Concat(Answered(sources))) && Timeline(sources, limit, before).Ok?
    ensures IsNewest(limit, Read(sources, limit, before), Timeline(sources, limit, before).value)
    ensures Read(sources, limit, before) <= Candidates(sources, before) && SetUniqueIds(Candidates(sources, before))
  {
    var lists := Answered(sources);
    ReadUnique(lists, limit);
    MatchingUnique(Concat(FirstPages(lists, limit)), before);
    MatchingUnique(Concat(lists), before);
    CountEntries(Matching(Concat(lists), before));
    SortAndCutIsNewest(Matching(Concat(FirstPages(lists, limit)), before), limit);
    forall x | x in Read(sources, limit, before) ensures x in Candidates(sources, before) {
      InMatching(Concat(FirstPages(lists, limit)), before, x);
      ReadFromConcat(lists, limit, x);
      InMatching(Concat(lists), before, x);
    }
  }

  /** Seen from the result: every unread candidate is older than a full list of shown ones. */
  lemma UnreadAreOlderIff(sources: seq<Option<seq<Entry>>>, limit: nat, before: Option<int>)
    requires UniqueIds(Concat(Answered(sources))) && Timeline(sources, limit, before).Ok?
    ensures var shown := Timeline(sources, limit, before).value;
            IsNewest(limit, Candidates(sources, before), shown) <==>
              forall u | u in Candidates(sources, before) && u !in Read(sources, limit, before) ::
                |shown| == limit && forall y | y in shown :: Newer(y, u)
  {
    ReadIsPart(sources, limit, before);
    PartSufficesIff(limit, Candidates(sources, before), Read(sources, limit, before), Timeline(sources, limit, before).value);
  }

  /** For any sources in any order and any cursor: the timeline shows the newest `limit` candidates of all
      sources exactly when the sources hand over, for every candidate they keep back, `limit` newer ones. */
  lemma TimelineIsNewestIff(sources: seq<Option<seq<Entry>>>, limit: nat, before: Option<int>)
    requires UniqueIds(Concat(Answered(sources))) && Timeline(sources, limit, before).Ok?
    ensures IsNewest(limit, Candidates(sources, before), Timeline(sources, limit, before).value) <==>
              forall u | u in Candidates(sources, before) && u !in Read(sources, limit, before) ::
                |NewerThan(Read(sources, limit, before), u)| >= limit
  {
    var shown, part := Timeline(sources, limit, before).value, Read(sources, limit, before);
    ReadIsPart(sources, limit, before);
    UnreadAreOlderIff(sources, limit, before);
    forall u | u in Candidates(sources, before) && u !in part
      ensures |NewerThan(part, u)| >= limit <==> |shown| == limit && forall y | y in shown :: Newer(y, u)
    {
      EnoughNewerIff(limit, part, shown, u);
    }
  }

  function NewerThan(part: set<Entry>, u: Entry): set<Entry> {
    set x | x in part && Newer(x, u)
  }

  /** A part has `limit` entries newer than `u` exactly when its newest ones fill the list and are all newer. */
  lemma EnoughNewerIff(limit: nat, part: set<Entry>, r: seq<Entry>, u: Entry)
    requires IsNewest(limit, part, r) && u !in part && forall x | x in part :: x.id != u.id
    ensures |NewerThan(part, u)| >= limit <==> |r| == limit && forall y | y in r :: Newer(y, u)
  {
    var top := NewerThan(part, u);
    PartSize(part, top);
    if |top| >= limit {
      forall y | y in r ensures Newer(y, u) { EnoughOutrank(limit, part, r, u, y); }
    }
    if |r| == limit && forall y | y in r :: Newer(y, u) {
      DescendingCount(r);
      assert forall y | y in r :: y in Members(r);
      PartSize(top, Members(r));
    }
  }

  lemma EnoughOutrank(limit: nat, part: set<Entry>, r: seq<Entry>, u: Entry, y: Entry)
    requires IsNewest(limit, part, r) && u !in part && forall x | x in part :: x.id != u.id
    requires |NewerThan(part, u)| >= limit && y in r
    ensures Newer(y, u)
  {
    assert y in Members(r);
    if !Newer(y, u) {
      NewerTotal(y, u);
      var top := NewerThan(part, u);
      forall x | x in top ensures x in r && x != y {
        NewerTransitive(x, u, y);
        NewerOneWay(x, y);
      }
      ElementsFit(r, top + {y});
    }
  }

  lemma DescendingCount(r: seq<Entry>)
    requires Descending(r)
    ensures |Members(r)| == |r|
  {
    assert Distinct(r);
    CountMembers(r);
  }

  lemma NewerOneWay(a: Entry, b: Entry)
    requires Newer(a, b)
    ensures !Newer(b, a)
  {
    if a.id != b.id { NewerTotal(a, b); }
  }

  lemma {:induction false} ElementsFit(es: seq<Entry>, part: set<Entry>)
    requires forall x | x in part :: x in es
    ensures |part| <= |es|
  {
    if |es| > 0 {
      ElementsFit(es[1..], part - {es[0]});
      PartSize({es[0]} + (part - {es[0]}), part);
    } else {
      assert part == {};
    }
  }

  /** Without a cursor, and with every source listed newest first, the timeline is the newest of everything. */
  lemma FirstTimelineIsNewest(sources: seq<Option<seq<Entry>>>, limit: nat)
    requires UniqueIds(Concat(Answered(sources))) && Timeline(sources, limit, None).Ok?
    requires forall i | 0 <= i < |Answered(sources)| :: Descending(Answered(sources)[i])
    ensures IsNewest(limit, Candidates(sources, None), Timeline(sources, limit, None).value)
  {
    var part := Read(sources, limit, None);
    TimelineIsNewestIff(sources, limit, None);
    forall u | u in Candidates(sources, None) && u !in part ensures |NewerThan(part, u)| >= limit {
      var i := SourceOfUnread(sources, limit, u);
      var top := Take(Answered(sources)[i], limit);
      ListUnique(Answered(sources), i);
      CountEntries(top);
      PartSize(NewerThan(part, u), Members(top));
    }
  }

  /** An entry that was not read lies behind a full page of its source. */
  lemma SourceOfUnread(sources: seq<Option<seq<Entry>>>, limit: nat, u: Entry) returns (i: nat)
    requires forall i | 0 <= i < |Answered(sources)| :: Descending(Answered(sources)[i])
    requires u in Candidates(sources, None) && u !in Read(sources, limit, None)
    ensures i < |Answered(sources)|
    ensures var top := Take(Answered(sources)[i], limit);
            |top| == limit && Members(top) <= Read(sources, limit, None) && forall x | x in top :: Newer(x, u)
  {
    var lists := Answered(sources);
    InMatching(Concat(lists), None, u);
    InConcat(lists, u);
    i :| 0 <= i < |lists| && u in lists[i];
    PageIsRead(sources, limit, i);
    var top := Take(lists[i], limit);
    assert forall k | 0 <= k < |top| :: lists[i][k] == top[k] && top[k] in Members(top);
    var k :| 0 <= k < |lists[i]| && lists[i][k] == u;
  }

  lemma {:induction false} ListUnique(lists: seq<seq<Entry>>, i: nat)
    requires UniqueIds(Concat(lists)) && i < |lists|
    ensures UniqueIds(lists[i])
  {
    var head, tail := lists[0], Concat(lists[1..]);
    assert forall k | 0 <= k < |head| :: Concat(lists)[k] == head[k];
    assert forall k | 0 <= k < |tail| :: Concat(lists)[|head| + k] == tail[k];
    if i > 0 { ListUnique(lists[1..], i - 1); }
  }

  lemma PageIsRead(sources: seq<Option<seq<Entry>>>, limit: nat, i: nat)
    requires i < |Answered(sources)|
    ensures Members(Take(Answered(sources)[i], limit)) <= Read(sources, limit, None)
  {
    var pages := FirstPages(Answered(sources), limit);
    FirstPagesRead(Answered(sources), limit);
    forall x | x in Take(Answered(sources)[i], limit) ensures x in Read(sources, limit, None) {
      assert x in pages[i];
      InConcat(pages, x);
      InMatching(Concat(pages), None, x);
    }
  }

  /** It fails exactly when every source does. */
  lemma {:induction false} TimelineFailsIff(sources: seq<Option<seq<Entry>>>, limit: nat, before: Option<int>)
    ensures Timeline(sources, limit, before).Err? <==> forall i | 0 <= i < |sources| :: sources[i].None?
  {
    if forall i | 0 <= i < |sources| :: sources[i].None? { NothingAnswered(sources); }
  }

  lemma {:induction false} NothingAnswered(sources: seq<Option<seq<Entry>>>)
    requires forall i | 0 <= i < |sources| :: sources[i].None?
    ensures Answered(sources) == []
  {
    if |sources| > 0 { NothingAnswered(sources[1..]); }
  }

  /** The cursor is applied after each source was cut, so a second page can come back empty with entries left. */
  lemma CursorLosesEntries()
    ensures var sources, before := [Some([Entry(2, "b", ""), Entry(1, "a", "")])], Some(2);
            Timeline(sources, 1, before) == Ok([]) && Entry(1, "a", "") in Candidates(sources, before)
  {
    var list := [Entry(2, "b", ""), Entry(1, "a", "")];
    var sources := [Some(list)];
    assert Answered(sources) == [list] + Answered([]);
    assert Concat([list]) == list + [];
    assert Take(list, 1) == [list[0]] && [list][1..] == [];
    assert FirstPages([list], 1) == [[list[0]]] + FirstPages([], 1);
    assert Concat([[list[0]]]) == [list[0]];
    assert Matching([list[0]], Some(2)) == [];
    assert list[1] in Matching(list, Some(2)) by { InMatching(list, Some(2), list[1]); }
  }

  /** Jobs are read in order of creation but shown at their last update: a fresh update of an old job goes missing. */
  lemma UnorderedSourceHidesNewest()
    ensures var sources := [Some([Entry(1, "b", ""), Entry(2, "a", "")])];
            Timeline(sources, 1, None) == Ok([Entry(1, "b", "")]) && Entry(2, "a", "") in Candidates(sources, None)
  {
    var list := [Entry(1, "b", ""), Entry(2, "a", "")];
    var sources := [Some(list)];
    assert Answered(sources) == [list] + Answered([]);
    assert Concat([list]) == list + [];
    assert Take(list, 1) == [list[0]] && [list][1..] == [];
    assert FirstPages([list], 1) == [[list[0]]] + FirstPages([], 1);
    assert Concat([[list[0]]]) == [list[0]];
    assert Matching([list[0]], None) == [list[0]];
    assert list[1] in Matching(list, None) by { InMatching(list, None, list[1]); }
  }

  // ----- in the reader's terms -----

  lemma {:induction false} InAnswered(sources: seq<Option<seq<Entry>>>, e: Entry)
    ensures e in Concat(Answered(sources)) <==> exists i :: 0 <= i < |sources| && sources[i].Some? && e in sources[i].value
  {
    if |sources| > 0 {
      var rest := sources[1..];
      InAnswered(rest, e);
      assert forall i | 1 <= i < |sources| :: sources[i] == rest[i - 1];
      assert forall i | 0 <= i < |rest| :: rest[i] == sources[i + 1];
      if sources[0].Some? {
        assert Answered(sources) == [sources[0].value] + Answered(rest);
        assert Concat(Answered(sources)) == sources[0].value + Concat(Answered(rest));
      } else {
        assert Answered(sources) == Answered(rest);
      }
    }
  }

  /** The candidates are the entries of the sources that answered which happened before the cursor, if there is one. */
  lemma CandidateIff(sources: seq<Option<seq<Entry>>>, before: Option<int>, e: Entry)
    ensures e in Candidates(sources, before) <==>
              && (exists i :: 0 <= i < |sources| && sources[i].Some? && e in sources[i].value)
              && (before.Some? ==> e.occurredAt < before.value)
  {
    InAnswered(sources, e);
    InMatching(Concat(Answered(sources)), before, e);
  }

  /** Of the sources that answered, the read entries are those among their first `limit`. */
  lemma ReadIff(sources: seq<Option<seq<Entry>>>, limit: nat, before: Option<int>, e: Entry)
    ensures e in Read(sources, limit, before) <==>
              && (exists i :: 0 <= i < |sources| && sources[i].Some? && exists k :: 0 <= k < limit && k < |sources[i].value| && sources[i].value[k] == e)
              && (before.Some? ==> e.occurredAt < before.value)
  {
    var cut := Cut(sources, limit);
    CutAnswered(sources, limit);
    InAnswered(cut, e);
    InMatching(Concat(FirstPages(Answered(sources), limit)), before, e);
    if exists i :: 0 <= i < |sources| && sources[i].Some? && exists k :: 0 <= k < limit && k < |sources[i].value| && sources[i].value[k] == e {
      var i :| 0 <= i < |sources| && sources[i].Some? && exists k :: 0 <= k < limit && k < |sources[i].value| && sources[i].value[k] == e;
      var k :| 0 <= k < limit && k < |sources[i].value| && sources[i].value[k] == e;
      assert cut[i].value[k] == e;
    }
    if i :| 0 <= i < |cut| && cut[i].Some? && e in cut[i].value {
      var k :| 0 <= k < |cut[i].value| && cut[i].value[k] == e;
      assert sources[i].value[k] == e;
    }
  }

  function Cut(sources: seq<Option<seq<Entry>>>, limit: nat): (r: seq<Option<seq<Entry>>>)
    ensures |r| == |sources|
    ensures forall i | 0 <= i < |r| :: r[i] == if sources[i].Some? then Some(Take(sources[i].value, limit)) else None
  {
    seq(|sources|, i requires 0 <= i < |sources| => if sources[i].Some? then Some(Take(sources[i].value, limit)) else None)
  }

  lemma {:induction false} CutAnswered(sources: seq<Option<seq<Entry>>>, limit: nat)
    ensures Answered(Cut(sources, limit)) == FirstPages(Answered(sources), limit)
  {
    if |sources| > 0 {
      CutAnswered(sources[1..], limit);
      assert Cut(sources, limit)[1..] == Cut(sources[1..], limit);
      if sources[0].Some? {
        assert ([sources[0].value] + Answered(sources[1..]))[1..] == Answered(sources[1..]);
      } else {
        assert Answered(sources) == Answered(sources[1..]);
      }
    }
  }

  /** What is shown goes back in time, and within one moment back in the ids' code point order; there is no more of it
      than asked for, and all of it was read. */
  lemma ShownGoesBack(sources: seq<Option<seq<Entry>>>, limit: nat, before: Option<int>)
    requires UniqueIds(Concat(Answered(sources))) && Timeline(sources, limit, before).Ok?
    ensures var shown := Timeline(sources, limit, before).value;
            && |shown| <= limit
            && (forall i | 0 < i < |shown| ::
                  || shown[i - 1].occurredAt > shown[i].occurredAt
                  || (shown[i - 1].occurredAt == shown[i].occurredAt && shown[i - 1].id != shown[i].id && Le(shown[i].id, shown[i - 1].id)))
            && (forall i | 0 <= i < |shown| :: shown[i] in Read(sources, limit, before))
  {
    ReadIsPart(sources, limit, before);
    var shown := Timeline(sources, limit, before).value;
    assert forall i | 0 <= i < |shown| :: shown[i] in Members(shown);
  }
}
