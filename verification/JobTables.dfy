/** The job, item and batch tables with the transactions that update them in place; a raised error rolls
    the transaction back (backend/src/long_invest/platform/jobs/service.py,
    backend/src/long_invest/bootstrap/backtest_jobs.py, backend/src/long_invest/bootstrap/jobs.py). */
module JobTables {
  import opened Wrappers
  import opened KeyOrder
  import opened JobStore

  lemma OneMorePending(before: map<(string, string), ItemStatus>, parent: string, keys: seq<string>, i: nat, existing: set<string>)
    requires i < |keys|
    ensures var now := before + PendingItems(parent, Members(keys[..i]) - existing);
            before + PendingItems(parent, Members(keys[..i + 1]) - existing)
            == if keys[i] in existing then now else now[(parent, keys[i]) := Pending]
  {
    var old_, new_ := Members(keys[..i]) - existing, Members(keys[..i + 1]) - existing;
    assert new_ == if keys[i] in existing then old_ else old_ + {keys[i]};
    assert keys[i] !in existing ==>
        PendingItems(parent, new_) == PendingItems(parent, old_)[(parent, keys[i]) := Pending];
  }

  class Tables {
    var jobs: map<Slot, Command>
    var items: map<(string, string), ItemStatus>
    var batches: map<string, string>

    ghost function View(): Store
      reads this
    {
      Store(jobs, items, batches)
    }

    constructor ()
      ensures View() == EMPTY
    {
      jobs, items, batches := map[], map[], map[];
    }

    /** `JobService.submit`. */
    method SubmitJob(c: Command) returns (raised: Option<JobError>)
      modifies this
      ensures match Submit(old(View()), c)
              case Ok(t) => raised.None? && View() == t
              case Err(e) => raised == Some(e) && View() == old(View())
    {
      if SlotOf(c) in jobs {
        if Content(jobs[SlotOf(c)]) != Content(c) {
          return Some(KeyReused);
        }
      } else {
        jobs := jobs[SlotOf(c) := c];
      }
      raised := None;
    }

    /** `JobService.initialize_items`. */
    method InitializeJobItems(parent: string, keys: seq<string>) returns (raised: Option<JobError>)
      modifies this
      ensures match InitializeItems(old(View()), parent, keys)
              case Ok(t) => raised.None? && View() == t
              case Err(e) => raised == Some(e) && View() == old(View())
    {
      if |keys| == 0 || !Distinct(keys) {
        return Some(ScopeInvalid);
      }
      var existing := ItemKeys(Store(jobs, items, batches), parent);
      if existing != {} && existing != Members(keys) {
        return Some(ScopeConflict);
      }
      ghost var before := items;
      var i := 0;
      while i < |keys|
        invariant 0 <= i <= |keys|
        invariant jobs == old(jobs) && batches == old(batches)
        invariant items == before + PendingItems(parent, Members(keys[..i]) - existing)
      {
        if keys[i] !in existing {
          items := items[(parent, keys[i]) := Pending];
        }
        OneMorePending(before, parent, keys, i, existing);
        i := i + 1;
      }
      assert keys[..i] == keys;
      raised := None;
    }

    /** `backtest_bulk_coordinate` and `_daily_coordinate`: one transaction for the batch, the items and the
        children. */
    method CoordinateParent(plan: Plan, parent: string, newBatch: string) returns (raised: Option<JobError>)
      modifies this
      ensures match Coordinate(old(View()), plan, parent, newBatch)
              case Ok(t) => raised.None? && View() == t
              case Err(e) => raised == Some(e) && View() == old(View())
    {
      if !PlanValid(plan) {
        return Some(ScopeInvalid);
      }
      var savedJobs, savedItems, savedBatches := jobs, items, batches;
      var batch := BatchOf(Store(jobs, items, batches), plan, parent, newBatch);
      if plan.DailyPlan? {
        batches := batches[parent := batch];
      }
      raised := InitializeJobItems(parent, plan.requested);
      if raised.Some? {
        jobs, items, batches := savedJobs, savedItems, savedBatches;
        return;
      }
      raised := SubmitChildJobs(plan, parent, batch, plan.requested);
      if raised.Some? {
        jobs, items, batches := savedJobs, savedItems, savedBatches;
      }
    }

    /** The loop over the children; the caller undoes what it did when a submission raises. */
    method SubmitChildJobs(plan: Plan, parent: string, batch: string, symbols: seq<string>) returns (raised: Option<JobError>)
      requires forall k | k in symbols :: k in plan.universe
      modifies this
      ensures match SubmitChildren(old(View()), plan, parent, batch, symbols)
              case Ok(t) => raised.None? && View() == t
              case Err(e) => raised == Some(e)
    {
      var i := 0;
      assert symbols[0..] == symbols;
      while i < |symbols|
        invariant 0 <= i <= |symbols|
        invariant SubmitChildren(old(View()), plan, parent, batch, symbols)
               == SubmitChildren(View(), plan, parent, batch, symbols[i..])
      {
        assert symbols[i..][0] == symbols[i] && symbols[i..][1..] == symbols[i + 1..];
        raised := SubmitJob(ChildCommand(plan, parent, batch, symbols[i]));
        if raised.Some? {
          return;
        }
        i := i + 1;
      }
      raised := None;
    }

    /** `finish_item` and the submission that follows it in the same transaction. */
    method FinishAndSubmit(parent: string, key: string, st: ItemStatus, completion: Command)
      returns (raised: Option<JobError>)
      modifies this
      ensures match FinishWith(old(View()), parent, key, st, completion)
              case Ok(t) => raised.None? && View() == t
              case Err(e) => raised == Some(e) && View() == old(View())
    {
      if !Terminal(st) {
        return Some(StatusInvalid);
      }
      if (parent, key) !in items {
        return Some(ItemNotFound);
      }
      var savedItems := items;
      var changed := false;
      if !Settled(items[(parent, key)]) {
        items := items[(parent, key) := st];
        changed := true;
      }
      var completed := |ClosedKeys(Store(jobs, items, batches), parent)|;
      var total := |ItemKeys(Store(jobs, items, batches), parent)|;
      raised := None;
      if changed && total > 0 && completed == total {
        raised := SubmitJob(completion);
        if raised.Some? {
          items := savedItems;
        }
      }
    }

    /** The watchdog's `abandon_item` for a child lost twice, and the submission that follows it. */
    method AbandonAndSubmit(job: Slot) returns (raised: Option<JobError>)
      modifies this
      ensures match AbandonChild(old(View()), job)
              case Ok(t) => raised.None? && View() == t
              case Err(e) => raised == Some(e) && View() == old(View())
    {
      if job !in jobs || !(jobs[job].config.BacktestChild? || jobs[job].config.DailyChild?) {
        return Some(NotAChild);
      }
      var linked := jobs[job].config.linked;
      var key := (linked.parent, linked.itemKey);
      if key !in items {
        return Some(ItemNotFound);
      }
      var savedItems := items;
      if !Settled(items[key]) {
        items := items[key := Failed];
      }
      raised := None;
      if AllTerminal(Store(jobs, items, batches), linked.parent) {
        raised := SubmitJob(linked.completion);
        if raised.Some? {
          items := savedItems;
        }
      }
    }
  }
}
