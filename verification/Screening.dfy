/** Screening batches and their children: the row triggers and keys of
    backend/alembic/versions/20260804_0041_strategy_screening_models.py, with the nullable test dates of
    backend/alembic/versions/20260804_0043_split_screening_backtest_dates.py. */
module Screening {
  import opened Wrappers

  datatype BatchStatus = Pending | Running | Pausing | Paused | Succeeded | Partial | Failed | Canceling | Canceled

  datatype Batch = Batch(status: BatchStatus, createdAt: int, completedAt: Option<int>, content: string)

  datatype Period = Period(batch: nat, sequenceNo: int, trainingStart: int, trainingEnd: int, testStart: Option<int>, testEnd: Option<int>)

  datatype ScopeItem = ScopeItem(batch: nat, security: nat, content: string)

  datatype Outcome = Outcome(batch: nat, period: nat, scopeItem: nat, content: string)

  datatype Tables = Tables(
    batches: map<nat, Batch>, periods: map<nat, Period>, scope: map<nat, ScopeItem>, results: map<nat, Outcome>)

  /** An update names the row it changes and may give it a new id. */
  datatype Statement =
    | InsertBatch(id: nat, batch: Batch)
    | UpdateBatch(old_: nat, id: nat, batch: Batch)
    | DeleteBatch(old_: nat)
    | InsertPeriod(id: nat, period: Period)
    | UpdatePeriod(old_: nat, id: nat, period: Period)
    | DeletePeriod(old_: nat)
    | InsertScope(id: nat, item: ScopeItem)
    | UpdateScope(old_: nat, id: nat, item: ScopeItem)
    | DeleteScope(old_: nat)
    | InsertResult(id: nat, result: Outcome)
    | UpdateResult(old_: nat, id: nat, result: Outcome)
    | DeleteResult(old_: nat)

  // ----- three-valued logic -----

  datatype Truth = True | False | Unknown

  function And(a: Truth, b: Truth): Truth {
    if a == False || b == False then False else if a == True && b == True then True else Unknown
  }

  function Or(a: Truth, b: Truth): Truth {
    if a == True || b == True then True else if a == False && b == False then False else Unknown
  }

  function Greater(a: Option<int>, b: Option<int>): Truth {
    if a.None? || b.None? then Unknown else if a.value > b.value then True else False
  }

  function Less(a: Option<int>, b: Option<int>): Truth {
    Greater(b, a)
  }

  function Differs(a: nat, b: nat): Truth {
    if a != b then True else False
  }

  // ----- constraints -----

  predicate BatchChecks(b: Batch) {
    && (if b.status == Succeeded || b.status == Partial || b.status == Failed || b.status == Canceled
        then b.completedAt.Some? else b.completedAt.None?)
    && (b.completedAt.Some? ==> b.createdAt <= b.completedAt.value)
  }

  predicate PeriodChecks(p: Period) {
    p.sequenceNo > 0 && p.trainingStart <= p.trainingEnd
  }

  predicate UniqueKeys(t: Tables) {
    && (forall a, b | a in t.periods && b in t.periods && a != b ::
          t.periods[a].batch != t.periods[b].batch || t.periods[a].sequenceNo != t.periods[b].sequenceNo)
    && (forall a, b | a in t.scope && b in t.scope && a != b ::
          t.scope[a].batch != t.scope[b].batch || t.scope[a].security != t.scope[b].security)
    && (forall a, b | a in t.results && b in t.results && a != b ::
          t.results[a].period != t.results[b].period || t.results[a].scopeItem != t.results[b].scopeItem)
  }

  predicate ForeignKeys(t: Tables) {
    && (forall a | a in t.periods :: t.periods[a].batch in t.batches)
    && (forall a | a in t.scope :: t.scope[a].batch in t.batches)
    && (forall a | a in t.results ::
          && t.results[a].period in t.periods && t.periods[t.results[a].period].batch == t.results[a].batch
          && t.results[a].scopeItem in t.scope && t.scope[t.results[a].scopeItem].batch == t.results[a].batch)
  }

  // ----- trigger functions -----

  predicate Completed(b: Batch) {
    b.status == Succeeded || b.status == Canceled
  }

  /** `longinvest_screening_child_mutable` on the batch id it looks at. */
  predicate ChildMutable(t: Tables, batch: nat) {
    !(batch in t.batches && Completed(t.batches[batch]))
  }

  /** The WHERE condition of `longinvest_screening_period_ordered` for the stored row `p` and the new row. */
  function OutOfOrder(pid: nat, p: Period, nid: nat, n: Period): Truth {
    var before := And(Less(Some(p.sequenceNo), Some(n.sequenceNo)),
      Or(Greater(Some(p.trainingStart), Some(n.trainingStart)),
      Or(Greater(Some(p.trainingEnd), Some(n.trainingEnd)),
      Or(Greater(p.testStart, n.testStart), Greater(p.testEnd, n.testEnd)))));
    var after := And(Greater(Some(p.sequenceNo), Some(n.sequenceNo)),
      Or(Less(Some(p.trainingStart), Some(n.trainingStart)),
      Or(Less(Some(p.trainingEnd), Some(n.trainingEnd)),
      Or(Less(p.testStart, n.testStart), Less(p.testEnd, n.testEnd)))));
    And(Differs(pid, nid), Or(before, after))
  }

  predicate PeriodOrdered(t: Tables, id: nat, n: Period) {
    !exists a :: a in t.periods && t.periods[a].batch == n.batch && OutOfOrder(a, t.periods[a], id, n) == True
  }

  // ----- statements -----

  predicate RowAllowed(t: Tables, s: Statement) {
    match s
    case InsertBatch(id, b) => id !in t.batches && BatchChecks(b)
    case UpdateBatch(o, id, b) => o in t.batches && (id != o ==> id !in t.batches) && BatchChecks(b) && !Completed(t.batches[o])
    case DeleteBatch(_) => false
    case InsertPeriod(id, p) => id !in t.periods && PeriodChecks(p) && ChildMutable(t, p.batch) && PeriodOrdered(t, id, p)
    case UpdatePeriod(o, id, p) =>
      && o in t.periods && (id != o ==> id !in t.periods) && PeriodChecks(p)
      && ChildMutable(t, p.batch) && PeriodOrdered(t, id, p)
    case DeletePeriod(o) => o in t.periods && ChildMutable(t, t.periods[o].batch)
    case InsertScope(id, i) => id !in t.scope && ChildMutable(t, i.batch)
    case UpdateScope(o, id, i) => o in t.scope && (id != o ==> id !in t.scope) && ChildMutable(t, i.batch)
    case DeleteScope(o) => o in t.scope && ChildMutable(t, t.scope[o].batch)
    case InsertResult(id, r) => id !in t.results && ChildMutable(t, r.batch)
    case UpdateResult(o, id, r) => o in t.results && (id != o ==> id !in t.results) && ChildMutable(t, r.batch)
    case DeleteResult(o) => o in t.results && ChildMutable(t, t.results[o].batch)
  }

  /** The tables the statement would leave. Deleting a period or a scope item cascades to its results.
      Deleting a batch does nothing: its trigger raises or returns the null NEW row. */
  function Effect(t: Tables, s: Statement): Tables {
    match s
    case InsertBatch(id, b) => t.(batches := t.batches[id := b])
    case UpdateBatch(o, id, b) => t.(batches := (t.batches - {o})[id := b])
    case DeleteBatch(_) => t
    case InsertPeriod(id, p) => t.(periods := t.periods[id := p])
    case UpdatePeriod(o, id, p) => t.(periods := (t.periods - {o})[id := p])
    case DeletePeriod(o) =>
      t.(periods := t.periods - {o}, results := t.results - set a | a in t.results && t.results[a].period == o)
    case InsertScope(id, i) => t.(scope := t.scope[id := i])
    case UpdateScope(o, id, i) => t.(scope := (t.scope - {o})[id := i])
    case DeleteScope(o) =>
      t.(scope := t.scope - {o}, results := t.results - set a | a in t.results && t.results[a].scopeItem == o)
    case InsertResult(id, r) => t.(results := t.results[id := r])
    case UpdateResult(o, id, r) => t.(results := (t.results - {o})[id := r])
    case DeleteResult(o) => t.(results := t.results - {o})
  }

  predicate Accepted(t: Tables, s: Statement) {
    RowAllowed(t, s) && ForeignKeys(Effect(t, s)) && UniqueKeys(Effect(t, s))
  }

  function Execute(t: Tables, s: Statement): Tables {
    if Accepted(t, s) then Effect(t, s) else t
  }

  function Run(t: Tables, ss: seq<Statement>): Tables
    decreases |ss|
  {
    if |ss| == 0 then t else Run(Execute(t, ss[0]), ss[1..])
  }

  const EMPTY := Tables(map[], map[], map[], map[])

  // ----- the stateful form -----

  class Database {
    var batches: map<nat, Batch>
    var periods: map<nat, Period>
    var scope: map<nat, ScopeItem>
    var results: map<nat, Outcome>

    ghost function View(): Tables
      reads this
    {
      Tables(batches, periods, scope, results)
    }

    constructor ()
      ensures View() == EMPTY
    {
      batches, periods, scope, results := map[], map[], map[], map[];
    }

    method Write(s: Statement)
      requires RowAllowed(View(), s)
      modifies this
      ensures View() == Effect(old(View()), s)
    {
      match s
      case InsertBatch(id, b) => batches := batches[id := b];
      case UpdateBatch(o, id, b) => batches := (batches - {o})[id := b];
      case InsertPeriod(id, p) => periods := periods[id := p];
      case UpdatePeriod(o, id, p) => periods := (periods - {o})[id := p];
      case DeletePeriod(o) =>
        periods := periods - {o};
        results := results - set a | a in results && results[a].period == o;
      case InsertScope(id, i) => scope := scope[id := i];
      case UpdateScope(o, id, i) => scope := (scope - {o})[id := i];
      case DeleteScope(o) =>
        scope := scope - {o};
        results := results - set a | a in results && results[a].scopeItem == o;
      case InsertResult(id, r) => results := results[id := r];
      case UpdateResult(o, id, r) => results := (results - {o})[id := r];
      case DeleteResult(o) => results := results - {o};
    }

    /** Row triggers and CHECKs first, then the write, then the keys; a violation undoes the write. */
    method ExecuteStatement(s: Statement) returns (ok: bool)
      modifies this
      ensures ok == Accepted(old(View()), s)
      ensures View() == Execute(old(View()), s)
    {
      var before := Tables(batches, periods, scope, results);
      if !RowAllowed(before, s) {
        return false;
      }
      Write(s);
      var after := Tables(batches, periods, scope, results);
      ok := ForeignKeys(after) && UniqueKeys(after);
      if !ok {
        batches, periods, scope, results := before.batches, before.periods, before.scope, before.results;
      }
    }
  }

  // ----- periods never move backward -----

  predicate NotAfter(a: Option<int>, b: Option<int>) {
    a.Some? && b.Some? ==> a.value <= b.value
  }

  predicate DatesInOrder(p: Period, q: Period) {
    && p.trainingStart <= q.trainingStart && p.trainingEnd <= q.trainingEnd
    && NotAfter(p.testStart, q.testStart) && NotAfter(p.testEnd, q.testEnd)
  }

  /** Any two periods of one batch, adjacent or not, agree in all four dates with their sequence numbers,
      wherever both dates are known. */
  predicate AllPeriodsOrdered(t: Tables) {
    forall a, b | a in t.periods && b in t.periods && t.periods[a].batch == t.periods[b].batch
                  && t.periods[a].sequenceNo < t.periods[b].sequenceNo ::
      DatesInOrder(t.periods[a], t.periods[b])
  }

  /** What the three-valued condition lets through, in two-valued terms. */
  lemma OutOfOrderMeans(pid: nat, p: Period, nid: nat, n: Period)
    ensures OutOfOrder(pid, p, nid, n) != True <==>
            (pid != nid ==>
               && (p.sequenceNo < n.sequenceNo ==> DatesInOrder(p, n))
               && (n.sequenceNo < p.sequenceNo ==> DatesInOrder(n, p)))
  {
  }

  /** SQL's logic: a comparison with NULL is unknown, and unknown gives way to what decides. */
  lemma ThreeValued(a: Option<int>, b: Option<int>, x: Truth)
    ensures Greater(a, b) == Unknown <==> a.None? || b.None?
    ensures Greater(a, b) == True <==> a.Some? && b.Some? && a.value > b.value
    ensures And(False, x) == And(x, False) == False && Or(True, x) == Or(x, True) == True
    ensures And(True, x) == And(x, True) == x && Or(False, x) == Or(x, False) == x
    ensures And(Unknown, Unknown) == Unknown && Or(Unknown, Unknown) == Unknown
  {
  }

  lemma WrittenPeriodKeepsOrder(t: Tables, ps: map<nat, Period>, id: nat, n: Period)
    requires AllPeriodsOrdered(t) && PeriodOrdered(t, id, n)
    requires id in ps && ps[id] == n
    requires forall a | a in ps && a != id :: a in t.periods && ps[a] == t.periods[a]
    ensures AllPeriodsOrdered(t.(periods := ps))
  {
    forall a, b | a in ps && b in ps && ps[a].batch == ps[b].batch && ps[a].sequenceNo < ps[b].sequenceNo
      ensures DatesInOrder(ps[a], ps[b])
    {
      if a == id { OutOfOrderMeans(b, ps[b], id, n); }
      if b == id { OutOfOrderMeans(a, ps[a], id, n); }
    }
  }

  lemma StatementKeepsOrder(t: Tables, s: Statement)
    requires AllPeriodsOrdered(t)
    ensures AllPeriodsOrdered(Execute(t, s))
  {
    if Accepted(t, s) {
      match s
      case InsertPeriod(id, p) => WrittenPeriodKeepsOrder(t, t.periods[id := p], id, p);
      case UpdatePeriod(o, id, p) => WrittenPeriodKeepsOrder(t, (t.periods - {o})[id := p], id, p);
      case _ =>
    }
  }

  /** In every state reachable by single-row inserts, updates and deletes. */
  lemma {:induction false} PeriodsAlwaysOrdered(t: Tables, ss: seq<Statement>)
    requires AllPeriodsOrdered(t)
    ensures AllPeriodsOrdered(Run(t, ss))
    decreases |ss|
  {
    if |ss| > 0 {
      StatementKeepsOrder(t, ss[0]);
      PeriodsAlwaysOrdered(Execute(t, ss[0]), ss[1..]);
    }
  }

  /** The guard is exact: a period may be written under an id, free or taken, exactly when the table with it in
      that place is ordered. */
  lemma GuardIsExact(t: Tables, id: nat, n: Period)
    requires AllPeriodsOrdered(t)
    ensures PeriodOrdered(t, id, n) <==> AllPeriodsOrdered(t.(periods := t.periods[id := n]))
  {
    var ps := t.periods[id := n];
    if PeriodOrdered(t, id, n) { WrittenPeriodKeepsOrder(t, ps, id, n); }
    if AllPeriodsOrdered(t.(periods := ps)) {
      forall a | a in t.periods && t.periods[a].batch == n.batch ensures OutOfOrder(a, t.periods[a], id, n) != True {
        if a != id { assert ps[a] == t.periods[a] && ps[id] == n; }
        OutOfOrderMeans(a, t.periods[a], id, n);
      }
    }
  }

  // ----- completed batches are frozen -----

  predicate Frozen(t: Tables, b: nat) {
    b in t.batches && Completed(t.batches[b])
  }

  function PeriodsOf(t: Tables, b: nat): map<nat, Period> {
    map a | a in t.periods && t.periods[a].batch == b :: t.periods[a]
  }

  function ScopeOf(t: Tables, b: nat): map<nat, ScopeItem> {
    map a | a in t.scope && t.scope[a].batch == b :: t.scope[a]
  }

  function ResultsOf(t: Tables, b: nat): map<nat, Outcome> {
    map a | a in t.results && t.results[a].batch == b :: t.results[a]
  }

  predicate SameBatch(t: Tables, u: Tables, b: nat) {
    && b in t.batches && b in u.batches && t.batches[b] == u.batches[b]
    && PeriodsOf(t, b) == PeriodsOf(u, b) && ScopeOf(t, b) == ScopeOf(u, b) && ResultsOf(t, b) == ResultsOf(u, b)
  }

  /** The update takes a child away from batch `b`; the trigger looks only at the batch it goes to. */
  predicate MovesChildOut(t: Tables, s: Statement, b: nat) {
    match s
    case UpdatePeriod(o, _, p) => o in t.periods && t.periods[o].batch == b && p.batch != b
    case UpdateScope(o, _, i) => o in t.scope && t.scope[o].batch == b && i.batch != b
    case UpdateResult(o, _, r) => o in t.results && t.results[o].batch == b && r.batch != b
    case _ => false
  }

  /** A completed batch and its periods, scope items and results stay as they are under an accepted
      statement exactly when the statement does not move one of its children to another batch. */
  lemma FrozenUnlessChildMovesOut(t: Tables, s: Statement, b: nat)
    requires ForeignKeys(t) && Frozen(t, b) && Accepted(t, s)
    ensures SameBatch(t, Execute(t, s), b) <==> !MovesChildOut(t, s, b)
  {
    if MovesChildOut(t, s, b) { ChildLeaves(t, s, b); } else { NothingLeaves(t, s, b); }
  }

  lemma ChildLeaves(t: Tables, s: Statement, b: nat)
    requires Accepted(t, s) && MovesChildOut(t, s, b)
    ensures !SameBatch(t, Execute(t, s), b)
  {
    var u := Execute(t, s);
    match s
    case UpdatePeriod(o, _, _) => assert o in PeriodsOf(t, b) && o !in PeriodsOf(u, b);
    case UpdateScope(o, _, _) => assert o in ScopeOf(t, b) && o !in ScopeOf(u, b);
    case UpdateResult(o, _, _) => assert o in ResultsOf(t, b) && o !in ResultsOf(u, b);
  }

  lemma NothingLeaves(t: Tables, s: Statement, b: nat)
    requires ForeignKeys(t) && Frozen(t, b) && RowAllowed(t, s) && !MovesChildOut(t, s, b)
    ensures SameBatch(t, Effect(t, s), b)
  {
    PeriodsStay(t, s, b);
    ScopeStays(t, s, b);
    ResultsStay(t, s, b);
  }

  lemma PeriodsStay(t: Tables, s: Statement, b: nat)
    requires Frozen(t, b) && RowAllowed(t, s) && !MovesChildOut(t, s, b)
    ensures PeriodsOf(Effect(t, s), b) == PeriodsOf(t, b)
  {
  }

  lemma ScopeStays(t: Tables, s: Statement, b: nat)
    requires Frozen(t, b) && RowAllowed(t, s) && !MovesChildOut(t, s, b)
    ensures ScopeOf(Effect(t, s), b) == ScopeOf(t, b)
  {
  }

  lemma ResultsStay(t: Tables, s: Statement, b: nat)
    requires ForeignKeys(t) && Frozen(t, b) && RowAllowed(t, s) && !MovesChildOut(t, s, b)
    ensures ResultsOf(Effect(t, s), b) == ResultsOf(t, b)
  {
  }

  lemma StatementKeepsKeys(t: Tables, s: Statement)
    requires ForeignKeys(t) && UniqueKeys(t)
    ensures ForeignKeys(Execute(t, s)) && UniqueKeys(Execute(t, s))
  {
  }

  predicate KeepsChildren(t: Tables, ss: seq<Statement>, b: nat)
    decreases |ss|
  {
    |ss| == 0 || (!MovesChildOut(t, ss[0], b) && KeepsChildren(Execute(t, ss[0]), ss[1..], b))
  }

  /** Once succeeded or canceled, a batch and everything in it never change again in any continuation
      whose child updates keep their batch. */
  lemma {:induction false} CompletedBatchIsFrozen(t: Tables, ss: seq<Statement>, b: nat)
    requires ForeignKeys(t) && UniqueKeys(t) && Frozen(t, b) && KeepsChildren(t, ss, b)
    ensures SameBatch(t, Run(t, ss), b)
    decreases |ss|
  {
    if |ss| > 0 {
      StatementKeepsKeys(t, ss[0]);
      if Accepted(t, ss[0]) { FrozenUnlessChildMovesOut(t, ss[0], b); }
      CompletedBatchIsFrozen(Execute(t, ss[0]), ss[1..], b);
    }
  }

  /** The row of a completed batch itself never changes, whatever happens to its children. */
  lemma {:induction false} CompletedRowIsFrozen(t: Tables, ss: seq<Statement>, b: nat)
    requires Frozen(t, b)
    ensures b in Run(t, ss).batches && Run(t, ss).batches[b] == t.batches[b]
    decreases |ss|
  {
    if |ss| > 0 { CompletedRowIsFrozen(Execute(t, ss[0]), ss[1..], b); }
  }

  lemma RenameKeepsCount<K, V>(m: map<K, V>, o: K, k: K, v: V)
    requires o in m && (k != o ==> k !in m)
    ensures |(m - {o})[k := v]| == |m|
  {
    assert ((m - {o})[k := v]).Keys == (m.Keys - {o}) + {k};
  }

  lemma InsertAddsOne<K, V>(m: map<K, V>, k: K, v: V)
    requires k !in m
    ensures |m[k := v]| == |m| + 1
  {
    assert m[k := v].Keys == m.Keys + {k};
  }

  lemma BatchCountNeverFalls(t: Tables, s: Statement)
    requires RowAllowed(t, s)
    ensures |t.batches| <= |Effect(t, s).batches|
  {
    match s
    case InsertBatch(id, b) => InsertAddsOne(t.batches, id, b);
    case UpdateBatch(o, id, b) => RenameKeepsCount(t.batches, o, id, b);
    case _ =>
  }

  /** Batch rows are only ever renamed while unfinished, never removed: the number of batches never falls. */
  lemma {:induction false} BatchesNeverDisappear(t: Tables, ss: seq<Statement>)
    ensures |t.batches| <= |Run(t, ss).batches|
    decreases |ss|
  {
    if |ss| > 0 {
      if Accepted(t, ss[0]) { BatchCountNeverFalls(t, ss[0]); }
      BatchesNeverDisappear(Execute(t, ss[0]), ss[1..]);
    }
  }

  /** A period of a succeeded batch can be moved into a running one. */
  lemma CompletedBatchCanLosePeriod()
    ensures exists t: Tables, s: Statement :: ForeignKeys(t) && UniqueKeys(t) && AllPeriodsOrdered(t) && Frozen(t, 1)
              && Accepted(t, s) && PeriodsOf(t, 1) != map[] && PeriodsOf(Execute(t, s), 1) == map[]
  {
    var p := Period(1, 1, 0, 0, None, None);
    var t := Tables(map[1 := Batch(Succeeded, 0, Some(0), ""), 2 := Batch(Running, 0, None, "")], map[7 := p], map[], map[]);
    var s := UpdatePeriod(7, 7, p.(batch := 2));
    assert Effect(t, s).periods == map[7 := p.(batch := 2)];
    assert 7 in PeriodsOf(t, 1);
    assert PeriodsOf(Effect(t, s), 1) == map[];
    assert Differs(7, 7) == False;
    assert Accepted(t, s);
    assert ForeignKeys(t) && UniqueKeys(t) && AllPeriodsOrdered(t) && Frozen(t, 1);
  }
}
