/** Which statements on the screening tables are accepted, column by column, and what they leave
    (backend/alembic/versions/20260804_0041_strategy_screening_models.py,
    backend/alembic/versions/20260804_0043_split_screening_backtest_dates.py). */
module ScreeningStatements {
  import opened Wrappers
  import opened Screening

  /** The keys hold and the periods are in order: every reachable state. */
  predicate Sound(t: Tables) {
    ForeignKeys(t) && UniqueKeys(t) && AllPeriodsOrdered(t)
  }

  /** Batches whose row and contents may change. */
  predicate Open(b: Batch) {
    match b.status
    case Pending | Running | Pausing | Paused | Partial | Failed | Canceling => true
    case Succeeded | Canceled => false
  }

  predicate OpenBatch(t: Tables, b: nat) {
    b in t.batches && Open(t.batches[b])
  }

  // ----- batches -----

  /** Finished batches, and no others, have a completion time, and it is not before their creation. */
  predicate BatchRowOk(b: Batch) {
    match b.status
    case Succeeded | Partial | Failed | Canceled => b.completedAt.Some? && b.createdAt <= b.completedAt.value
    case Pending | Running | Pausing | Paused | Canceling => b.completedAt.None?
  }

  predicate BatchReferenced(t: Tables, b: nat) {
    (exists a :: a in t.periods && t.periods[a].batch == b) || (exists a :: a in t.scope && t.scope[a].batch == b)
  }

  lemma InsertBatchAcceptedIff(t: Tables, id: nat, b: Batch)
    requires Sound(t)
    ensures Accepted(t, InsertBatch(id, b)) <==> id !in t.batches && BatchRowOk(b)
    ensures Effect(t, InsertBatch(id, b)) == Tables(t.batches[id := b], t.periods, t.scope, t.results)
  {
  }

  /** A batch row may change exactly while it is open, under its own id or, without children, a free one. */
  lemma UpdateBatchAcceptedIff(t: Tables, o: nat, id: nat, b: Batch)
    requires Sound(t)
    ensures Accepted(t, UpdateBatch(o, id, b)) <==>
              OpenBatch(t, o) && BatchRowOk(b) && (id == o || (id !in t.batches && !BatchReferenced(t, o)))
    ensures Effect(t, UpdateBatch(o, id, b)) == Tables((t.batches - {o})[id := b], t.periods, t.scope, t.results)
  {
    if o in t.batches && id != o && id !in t.batches { RenamedBatchIff(t, o, id, b); }
  }

  lemma RenamedBatchIff(t: Tables, o: nat, id: nat, b: Batch)
    requires ForeignKeys(t) && o in t.batches && id !in t.batches
    ensures ForeignKeys(Tables((t.batches - {o})[id := b], t.periods, t.scope, t.results)) <==> !BatchReferenced(t, o)
  {
    assert forall a | a in t.results :: t.results[a].period in t.periods;
  }

  /** No batch is ever deleted. */
  lemma DeleteBatchRefused(t: Tables, b: nat)
    ensures !Accepted(t, DeleteBatch(b)) && Execute(t, DeleteBatch(b)) == t
  {
  }

  // ----- periods -----

  predicate PeriodFits(t: Tables, p: Period, without: Option<nat>) {
    && p.sequenceNo >= 1 && p.trainingStart <= p.trainingEnd && OpenBatch(t, p.batch)
    && forall a | a in t.periods && Some(a) != without ::
         t.periods[a].batch != p.batch || t.periods[a].sequenceNo != p.sequenceNo
  }

  lemma InsertPeriodAcceptedIff(t: Tables, id: nat, p: Period)
    requires Sound(t)
    ensures Accepted(t, InsertPeriod(id, p)) <==>
              && id !in t.periods && PeriodFits(t, p, None)
              && AllPeriodsOrdered(Tables(t.batches, t.periods[id := p], t.scope, t.results))
    ensures Effect(t, InsertPeriod(id, p)) == Tables(t.batches, t.periods[id := p], t.scope, t.results)
  {
    if id !in t.periods {
      GuardIsExact(t, id, p);
      WrittenPeriodKeys(t, t.periods[id := p], id, p, None);
    }
  }

  /** `ps` holds the periods of `t` but for `without`, and the new row `p` under `id`. */
  lemma WrittenPeriodKeys(t: Tables, ps: map<nat, Period>, id: nat, p: Period, without: Option<nat>)
    requires ForeignKeys(t) && UniqueKeys(t) && id in ps && ps[id] == p
    requires id in t.periods ==> without == Some(id)
    requires forall a | a != id :: a in ps <==> a in t.periods && Some(a) != without
    requires forall a | a in ps && a != id :: ps[a] == t.periods[a]
    ensures UniqueKeys(t.(periods := ps)) <==>
              forall a | a in t.periods && Some(a) != without ::
                t.periods[a].batch != p.batch || t.periods[a].sequenceNo != p.sequenceNo
    ensures ForeignKeys(t.(periods := ps)) <==>
              && p.batch in t.batches
              && forall a | a in t.results && Some(t.results[a].period) == without :: id == t.results[a].period && p.batch == t.results[a].batch
  {
    WrittenPeriodUnique(t, ps, id, p, without);
    WrittenPeriodForeign(t, ps, id, p, without);
  }

  lemma WrittenPeriodUnique(t: Tables, ps: map<nat, Period>, id: nat, p: Period, without: Option<nat>)
    requires UniqueKeys(t) && id in ps && ps[id] == p
    requires id in t.periods ==> without == Some(id)
    requires forall a | a != id :: a in ps <==> a in t.periods && Some(a) != without
    requires forall a | a in ps && a != id :: ps[a] == t.periods[a]
    ensures UniqueKeys(t.(periods := ps)) <==>
              forall a | a in t.periods && Some(a) != without ::
                t.periods[a].batch != p.batch || t.periods[a].sequenceNo != p.sequenceNo
  {
    if UniqueKeys(t.(periods := ps)) {
      forall a | a in t.periods && Some(a) != without
        ensures t.periods[a].batch != p.batch || t.periods[a].sequenceNo != p.sequenceNo
      {
        assert a in ps && ps[a] == t.periods[a];
      }
    }
  }

  lemma WrittenPeriodForeign(t: Tables, ps: map<nat, Period>, id: nat, p: Period, without: Option<nat>)
    requires ForeignKeys(t) && id in ps && ps[id] == p
    requires id in t.periods ==> without == Some(id)
    requires forall a | a != id :: a in ps <==> a in t.periods && Some(a) != without
    requires forall a | a in ps && a != id :: ps[a] == t.periods[a]
    ensures ForeignKeys(t.(periods := ps)) <==>
              && p.batch in t.batches
              && forall a | a in t.results && Some(t.results[a].period) == without :: id == t.results[a].period && p.batch == t.results[a].batch
  {
    var u := t.(periods := ps);
    if ForeignKeys(u) {
      assert u.periods[id].batch in u.batches;
      forall a | a in t.results && Some(t.results[a].period) == without ensures id == t.results[a].period && p.batch == t.results[a].batch {
        assert u.results[a].period in u.periods;
      }
    }
  }

  /** A period may be rewritten exactly into an open batch, in order with every stored period (its own old row
      included, if it changes its id), and without leaving its results behind. That its old batch is completed does
      not matter. */
  lemma UpdatePeriodAcceptedIff(t: Tables, o: nat, id: nat, p: Period)
    requires Sound(t)
    ensures Accepted(t, UpdatePeriod(o, id, p)) <==>
              && o in t.periods && (id == o || id !in t.periods) && PeriodFits(t, p, Some(o))
              && (forall a | a in t.results && t.results[a].period == o :: id == o && p.batch == t.results[a].batch)
              && AllPeriodsOrdered(Tables(t.batches, t.periods[id := p], t.scope, t.results))
    ensures Effect(t, UpdatePeriod(o, id, p)) == Tables(t.batches, (t.periods - {o})[id := p], t.scope, t.results)
  {
    if o in t.periods && (id == o || id !in t.periods) {
      GuardIsExact(t, id, p);
      RewrittenPeriodKeys(t, o, id, p);
    }
  }

  lemma RewrittenPeriodKeys(t: Tables, o: nat, id: nat, p: Period)
    requires ForeignKeys(t) && UniqueKeys(t) && o in t.periods && (id == o || id !in t.periods)
    ensures var u := t.(periods := (t.periods - {o})[id := p]);
            UniqueKeys(u) && ForeignKeys(u) <==>
              && p.batch in t.batches
              && (forall a | a in t.periods && Some(a) != Some(o) :: t.periods[a].batch != p.batch || t.periods[a].sequenceNo != p.sequenceNo)
              && (forall a | a in t.results && t.results[a].period == o :: id == o && p.batch == t.results[a].batch)
  {
    WrittenPeriodKeys(t, (t.periods - {o})[id := p], id, p, Some(o));
  }

  /** A period of an open batch may be deleted, and takes its results along. */
  lemma DeletePeriodAcceptedIff(t: Tables, o: nat)
    requires Sound(t)
    ensures Accepted(t, DeletePeriod(o)) <==> o in t.periods && OpenBatch(t, t.periods[o].batch)
    ensures var u := Effect(t, DeletePeriod(o));
            && u.batches == t.batches && u.scope == t.scope && u.periods == t.periods - {o}
            && (forall a :: a in u.results <==> a in t.results && t.results[a].period != o)
            && (forall a | a in u.results :: u.results[a] == t.results[a])
  {
    if o in t.periods { CascadeKeepsKeys(t, DeletePeriod(o)); }
  }

  // ----- scope items -----

  lemma InsertScopeAcceptedIff(t: Tables, id: nat, i: ScopeItem)
    requires Sound(t)
    ensures Accepted(t, InsertScope(id, i)) <==>
              && id !in t.scope && OpenBatch(t, i.batch)
              && (forall a | a in t.scope :: t.scope[a].batch != i.batch || t.scope[a].security != i.security)
    ensures Effect(t, InsertScope(id, i)) == Tables(t.batches, t.periods, t.scope[id := i], t.results)
  {
    if id !in t.scope { WrittenScopeKeys(t, t.scope[id := i], id, i, None); }
  }

  lemma WrittenScopeKeys(t: Tables, ps: map<nat, ScopeItem>, id: nat, i: ScopeItem, without: Option<nat>)
    requires ForeignKeys(t) && UniqueKeys(t) && id in ps && ps[id] == i
    requires id in t.scope ==> without == Some(id)
    requires forall a | a != id :: a in ps <==> a in t.scope && Some(a) != without
    requires forall a | a in ps && a != id :: ps[a] == t.scope[a]
    ensures UniqueKeys(t.(scope := ps)) <==>
              forall a | a in t.scope && Some(a) != without :: t.scope[a].batch != i.batch || t.scope[a].security != i.security
    ensures ForeignKeys(t.(scope := ps)) <==>
              && i.batch in t.batches
              && forall a | a in t.results && Some(t.results[a].scopeItem) == without :: id == t.results[a].scopeItem && i.batch == t.results[a].batch
  {
    WrittenScopeUnique(t, ps, id, i, without);
    WrittenScopeForeign(t, ps, id, i, without);
  }

  lemma WrittenScopeUnique(t: Tables, ps: map<nat, ScopeItem>, id: nat, i: ScopeItem, without: Option<nat>)
    requires UniqueKeys(t) && id in ps && ps[id] == i
    requires id in t.scope ==> without == Some(id)
    requires forall a | a != id :: a in ps <==> a in t.scope && Some(a) != without
    requires forall a | a in ps && a != id :: ps[a] == t.scope[a]
    ensures UniqueKeys(t.(scope := ps)) <==>
              forall a | a in t.scope && Some(a) != without :: t.scope[a].batch != i.batch || t.scope[a].security != i.security
  {
    if UniqueKeys(t.(scope := ps)) {
      forall a | a in t.scope && Some(a) != without ensures t.scope[a].batch != i.batch || t.scope[a].security != i.security {
        assert a in ps && ps[a] == t.scope[a];
      }
    }
  }

  lemma WrittenScopeForeign(t: Tables, ps: map<nat, ScopeItem>, id: nat, i: ScopeItem, without: Option<nat>)
    requires ForeignKeys(t) && id in ps && ps[id] == i
    requires id in t.scope ==> without == Some(id)
    requires forall a | a != id :: a in ps <==> a in t.scope && Some(a) != without
    requires forall a | a in ps && a != id :: ps[a] == t.scope[a]
    ensures ForeignKeys(t.(scope := ps)) <==>
              && i.batch in t.batches
              && forall a | a in t.results && Some(t.results[a].scopeItem) == without :: id == t.results[a].scopeItem && i.batch == t.results[a].batch
  {
    var u := t.(scope := ps);
    if ForeignKeys(u) {
      assert u.scope[id].batch in u.batches;
      forall a | a in t.results && Some(t.results[a].scopeItem) == without ensures id == t.results[a].scopeItem && i.batch == t.results[a].batch {
        assert u.results[a].scopeItem in u.scope;
      }
    }
  }

  lemma UpdateScopeAcceptedIff(t: Tables, o: nat, id: nat, i: ScopeItem)
    requires Sound(t)
    ensures Accepted(t, UpdateScope(o, id, i)) <==>
              && o in t.scope && (id == o || id !in t.scope) && OpenBatch(t, i.batch)
              && (forall a | a in t.scope && a != o :: t.scope[a].batch != i.batch || t.scope[a].security != i.security)
              && (forall a | a in t.results && t.results[a].scopeItem == o :: id == o && i.batch == t.results[a].batch)
    ensures Effect(t, UpdateScope(o, id, i)) == Tables(t.batches, t.periods, (t.scope - {o})[id := i], t.results)
  {
    if o in t.scope && (id == o || id !in t.scope) { WrittenScopeKeys(t, (t.scope - {o})[id := i], id, i, Some(o)); }
  }

  lemma DeleteScopeAcceptedIff(t: Tables, o: nat)
    requires Sound(t)
    ensures Accepted(t, DeleteScope(o)) <==> o in t.scope && OpenBatch(t, t.scope[o].batch)
    ensures var u := Effect(t, DeleteScope(o));
            && u.batches == t.batches && u.periods == t.periods && u.scope == t.scope - {o}
            && (forall a :: a in u.results <==> a in t.results && t.results[a].scopeItem != o)
            && (forall a | a in u.results :: u.results[a] == t.results[a])
  {
    if o in t.scope { CascadeKeepsKeys(t, DeleteScope(o)); }
  }

  /** The cascade leaves no result behind, so no key is broken. */
  lemma CascadeKeepsKeys(t: Tables, s: Statement)
    requires ForeignKeys(t) && UniqueKeys(t) && (s.DeletePeriod? || s.DeleteScope?)
    ensures ForeignKeys(Effect(t, s)) && UniqueKeys(Effect(t, s))
  {
    CascadeKeepsForeign(t, s);
  }

  lemma CascadeKeepsForeign(t: Tables, s: Statement)
    requires ForeignKeys(t) && (s.DeletePeriod? || s.DeleteScope?)
    ensures ForeignKeys(Effect(t, s))
  {
  }

  // ----- results -----

  /** The period and the scope item exist and are of the result's open batch, and have no other result together. */
  predicate ResultFits(t: Tables, r: Outcome, without: Option<nat>) {
    && OpenBatch(t, r.batch)
    && r.period in t.periods && t.periods[r.period].batch == r.batch
    && r.scopeItem in t.scope && t.scope[r.scopeItem].batch == r.batch
    && forall a | a in t.results && Some(a) != without ::
         t.results[a].period != r.period || t.results[a].scopeItem != r.scopeItem
  }

  lemma WrittenResultUnique(t: Tables, rs: map<nat, Outcome>, id: nat, r: Outcome, without: Option<nat>)
    requires UniqueKeys(t) && id in rs && rs[id] == r
    requires id in t.results ==> without == Some(id)
    requires forall a | a != id :: a in rs <==> a in t.results && Some(a) != without
    requires forall a | a in rs && a != id :: rs[a] == t.results[a]
    ensures UniqueKeys(t.(results := rs)) <==>
              forall a | a in t.results && Some(a) != without :: t.results[a].period != r.period || t.results[a].scopeItem != r.scopeItem
  {
    if UniqueKeys(t.(results := rs)) {
      forall a | a in t.results && Some(a) != without
        ensures t.results[a].period != r.period || t.results[a].scopeItem != r.scopeItem
      {
        assert a in rs && rs[a] == t.results[a];
      }
    }
  }

  lemma WrittenResultForeign(t: Tables, rs: map<nat, Outcome>, id: nat, r: Outcome)
    requires ForeignKeys(t) && id in rs && rs[id] == r
    requires forall a | a in rs && a != id :: a in t.results && rs[a] == t.results[a]
    ensures ForeignKeys(t.(results := rs)) <==>
              && r.period in t.periods && t.periods[r.period].batch == r.batch
              && r.scopeItem in t.scope && t.scope[r.scopeItem].batch == r.batch
  {
    if ForeignKeys(t.(results := rs)) { assert rs[id] == r; }
  }

  lemma BatchKnown(t: Tables, r: Outcome)
    requires ForeignKeys(t) && r.period in t.periods && t.periods[r.period].batch == r.batch
    ensures r.batch in t.batches
  {
  }

  lemma InsertResultAcceptedIff(t: Tables, id: nat, r: Outcome)
    requires Sound(t)
    ensures Accepted(t, InsertResult(id, r)) <==> id !in t.results && ResultFits(t, r, None)
    ensures Effect(t, InsertResult(id, r)) == Tables(t.batches, t.periods, t.scope, t.results[id := r])
  {
    if id !in t.results { ResultWritten(t, t.results[id := r], id, r, None); }
  }

  lemma ResultWritten(t: Tables, rs: map<nat, Outcome>, id: nat, r: Outcome, without: Option<nat>)
    requires ForeignKeys(t) && UniqueKeys(t) && id in rs && rs[id] == r
    requires id in t.results ==> without == Some(id)
    requires forall a | a != id :: a in rs <==> a in t.results && Some(a) != without
    requires forall a | a in rs && a != id :: rs[a] == t.results[a]
    ensures ChildMutable(t, r.batch) && ForeignKeys(t.(results := rs)) && UniqueKeys(t.(results := rs)) <==> ResultFits(t, r, without)
  {
    WrittenResultUnique(t, rs, id, r, without);
    WrittenResultForeign(t, rs, id, r);
    if r.period in t.periods && t.periods[r.period].batch == r.batch { BatchKnown(t, r); }
  }

  lemma UpdateResultAcceptedIff(t: Tables, o: nat, id: nat, r: Outcome)
    requires Sound(t)
    ensures Accepted(t, UpdateResult(o, id, r)) <==>
              o in t.results && (id == o || id !in t.results) && ResultFits(t, r, Some(o))
    ensures Effect(t, UpdateResult(o, id, r)) == Tables(t.batches, t.periods, t.scope, (t.results - {o})[id := r])
  {
    if o in t.results && (id == o || id !in t.results) { ResultWritten(t, (t.results - {o})[id := r], id, r, Some(o)); }
  }

  lemma DeleteResultAcceptedIff(t: Tables, o: nat)
    requires Sound(t)
    ensures Accepted(t, DeleteResult(o)) <==> o in t.results && OpenBatch(t, t.results[o].batch)
    ensures Effect(t, DeleteResult(o)) == Tables(t.batches, t.periods, t.scope, t.results - {o})
  {
    if o in t.results { BatchKnown(t, t.results[o]); }
  }

  /** Soundness holds in every reachable state, so these conditions decide every statement of a run. */
  lemma {:induction false} ReachableIsSound(t: Tables, ss: seq<Statement>)
    requires Sound(t)
    ensures Sound(Run(t, ss))
    decreases |ss|
  {
    if |ss| > 0 {
      StatementKeepsOrder(t, ss[0]);
      StatementKeepsKeys(t, ss[0]);
      ReachableIsSound(Execute(t, ss[0]), ss[1..]);
    }
  }
}
