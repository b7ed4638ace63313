/** What each step of a bulk job does to the tables, entry by entry: the jobs it creates and their contents, and
    the one item it sets (backend/src/long_invest/bootstrap/backtest_jobs.py,
    backend/src/long_invest/bootstrap/jobs.py, backend/src/long_invest/platform/jobs/service.py). */
module FanInSteps {
  import opened Wrappers
  import opened KeyOrder
  import opened JobStore
  import opened FanIn
  import LinkedJob

  // ----- submitting -----

  /** A free key adds the command; a used one is a replay exactly when type, queue, object, timeouts and configuration
      are those of the first submission, and then changes nothing. */
  lemma SubmitMeans(s: Store, c: Command)
    ensures var slot := Slot(c.scope, c.key);
            Submit(s, c) ==
              if slot !in s.jobs then Ok(Store(s.jobs[slot := c], s.items, s.batches))
              else if && s.jobs[slot].jobType == c.jobType && s.jobs[slot].queue == c.queue && s.jobs[slot].config == c.config
                      && s.jobs[slot].objectType == c.objectType && s.jobs[slot].objectId == c.objectId
                      && s.jobs[slot].softTimeout == c.softTimeout && s.jobs[slot].hardTimeout == c.hardTimeout
              then Ok(s) else Err(KeyReused)
  {
  }

  // ----- coordinating -----

  /** What a plan must be: a list of different symbols of the universe, and for daily data different corporate
      actions among them. */
  lemma PlanValidMeans(plan: Plan)
    ensures PlanValid(plan) <==>
              && plan.requested != []
              && (forall i, j | 0 <= i < j < |plan.requested| :: plan.requested[i] != plan.requested[j])
              && (forall i | 0 <= i < |plan.requested| :: plan.requested[i] in plan.universe)
              && (plan.DailyPlan? ==>
                  && (forall i, j | 0 <= i < j < |plan.actions| :: plan.actions[i] != plan.actions[j])
                  && (forall i | 0 <= i < |plan.actions| :: plan.actions[i] in plan.requested))
  {
  }

  /** The first coordination of a parent in a reachable store: one pending item and one child job for each requested
      symbol, for daily data a batch, and nothing else. */
  lemma CoordinationCreates(plans: Plans, s: Store, p: string, newBatch: string)
    requires Inv(plans, s) && p in plans && PlanValid(plans[p]) && forall k :: (p, k) !in s.items
    ensures var plan, r := plans[p], Attempt(plans, s, Coordinated(p, newBatch));
            && r.Ok?
            && (forall pk :: pk in r.value.items <==> pk in s.items || (pk.0 == p && pk.1 in plan.requested))
            && (forall pk | pk in r.value.items :: r.value.items[pk] == if pk in s.items then s.items[pk] else Pending)
            && (forall slot :: slot in r.value.jobs <==>
                  || slot in s.jobs
                  || (slot.scope == (if plan.BacktestPlan? then BacktestItem(p) else DailyItem(p))
                      && slot.key.SymbolKey? && slot.key.symbol in plan.requested))
            && (forall slot | slot in s.jobs :: slot in r.value.jobs && r.value.jobs[slot] == s.jobs[slot])
            && r.value.batches == if plan.BacktestPlan? || p in s.batches then s.batches else s.batches[p := newBatch]
  {
    var plan := plans[p];
    ItemsSpelledOut(s, p);
    var cs := ChildJobs(plan, p, BatchOf(s, plan, p, newBatch), plan.requested);
    forall job | job in cs ensures job !in s.jobs { NoJobsBeforeStart(plans, s, p, job); }
    CoordinateIs(s, plan, p, newBatch);
    CreatedJobs(plan, p, BatchOf(s, plan, p, newBatch));
    CreatedItems(s, p, plan.requested);
  }

  lemma CreatedJobs(plan: Plan, p: string, batch: string)
    requires PlanValid(plan)
    ensures forall slot :: slot in ChildJobs(plan, p, batch, plan.requested) <==>
              && slot.scope == (if plan.BacktestPlan? then BacktestItem(p) else DailyItem(p))
              && slot.key.SymbolKey? && slot.key.symbol in plan.requested
  {
    forall slot: Slot ensures slot in ChildJobs(plan, p, batch, plan.requested) <==>
      && slot.scope == (if plan.BacktestPlan? then BacktestItem(p) else DailyItem(p))
      && slot.key.SymbolKey? && slot.key.symbol in plan.requested
    {
      ChildJobAt(plan, p, batch, plan.requested, slot);
    }
  }

  lemma CreatedItems(s: Store, p: string, requested: seq<string>)
    requires ItemKeys(s, p) == {}
    ensures var items := s.items + PendingItems(p, Members(requested) - ItemKeys(s, p));
            && (forall pk :: pk in items <==> pk in s.items || (pk.0 == p && pk.1 in requested))
            && (forall pk | pk in items :: items[pk] == if pk in s.items then s.items[pk] else Pending)
  {
    forall pk | pk in s.items && pk.0 == p ensures pk.1 in ItemKeys(s, p) { }
  }

  // ----- what the jobs hold -----

  /** A child of a bulk backtest, in any reachable store. */
  lemma BacktestChildHolds(plans: Plans, s: Store, job: Slot)
    requires Inv(plans, s) && job in s.jobs && job.scope.BacktestItem?
    ensures var p, c := job.scope.parent, s.jobs[job];
            && p in plans && plans[p].BacktestPlan? && job.key.SymbolKey? && job.key.symbol in plans[p].requested
            && job.key.symbol in plans[p].universe && (p, job.key.symbol) in s.items
            && c.jobType == "BACKTEST_SINGLE" && c.queue == "bulk-backtest" && c.scope == job.scope && c.key == job.key
            && c.requestId == p && c.objectType == "backtest_item" && c.objectId == plans[p].universe[job.key.symbol].security
            && c.softTimeout == 600 && c.hardTimeout == 660 && c.config.BacktestChild?
            && c.config.task == plans[p].task && c.config.security == plans[p].universe[job.key.symbol].security
            && c.config.generation == plans[p].generation && c.config.recover == plans[p].recover
            && c.config.linked.parent == p && c.config.linked.itemKey == job.key.symbol
            && BacktestFinalizeHolds(plans[p], p, c.config.linked.completion)
  {
    assert JobLegit(plans, s, job);
    ChildIsLegit(plans, s, job);
  }

  /** The finalize command of a bulk backtest. */
  predicate BacktestFinalizeHolds(plan: Plan, p: string, c: Command)
    requires plan.BacktestPlan?
  {
    && c.jobType == "BACKTEST_BULK_FINALIZE" && c.queue == "bulk-backtest" && c.scope == BacktestFinal(p)
    && c.key == GenerationKey(plan.task, plan.generation) && c.requestId == p && c.objectType == "backtest_task"
    && c.objectId == plan.task && c.softTimeout == 60 && c.hardTimeout == 120 && c.config.BacktestFinalize?
    && c.config.parent == p && c.config.task == plan.task && c.config.generation == plan.generation
  }

  /** A child of a daily batch, in any reachable store. */
  lemma DailyChildHolds(plans: Plans, s: Store, job: Slot)
    requires Inv(plans, s) && job in s.jobs && job.scope.DailyItem?
    ensures var p, c := job.scope.parent, s.jobs[job];
            && p in plans && plans[p].DailyPlan? && p in s.batches && job.key.SymbolKey? && job.key.symbol in plans[p].requested
            && job.key.symbol in plans[p].universe && (p, job.key.symbol) in s.items
            && c.jobType == "DAILY_DATA_ITEM" && c.queue == "daily-market-data" && c.scope == job.scope && c.key == job.key
            && c.requestId == p && c.objectType == "daily_data_batch" && c.objectId == s.batches[p]
            && c.softTimeout == 240 && c.hardTimeout == 300 && c.config.DailyChild?
            && c.config.parent == p && c.config.batch == s.batches[p] && c.config.date == plans[p].date
            && c.config.symbol == job.key.symbol && c.config.entry == plans[p].universe[job.key.symbol]
            && (c.config.action <==> job.key.symbol in plans[p].actions)
            && c.config.linked.parent == p && c.config.linked.itemKey == job.key.symbol
            && DailyFinalizeHolds(p, s.batches[p], c.config.linked.completion)
  {
    assert JobLegit(plans, s, job);
    assert ParentOk(plans, s, job.scope.parent);
    ChildIsLegit(plans, s, job);
  }

  /** The finalize command of a daily batch. */
  predicate DailyFinalizeHolds(p: string, batch: string, c: Command) {
    && c.jobType == "DAILY_DATA_FINALIZE" && c.queue == "daily-market-data" && c.scope == DailyFinal(p)
    && c.key == BatchKey(batch) && c.requestId == p && c.objectType == "daily_data_batch" && c.objectId == batch
    && c.softTimeout == 300 && c.hardTimeout == 600 && c.config == DailyFinalize(p, batch)
  }

  /** A finalize job, in any reachable store. */
  lemma FinalizeJobHolds(plans: Plans, s: Store, job: Slot)
    requires Inv(plans, s) && job in s.jobs && (job.scope.BacktestFinal? || job.scope.DailyFinal?)
    ensures var p := job.scope.parent;
            && p in plans && s.jobs[job].scope == job.scope && s.jobs[job].key == job.key
            && (job.scope.BacktestFinal? ==> plans[p].BacktestPlan? && BacktestFinalizeHolds(plans[p], p, s.jobs[job]))
            && (job.scope.DailyFinal? ==> plans[p].DailyPlan? && p in s.batches && DailyFinalizeHolds(p, s.batches[p], s.jobs[job]))
  {
    assert JobLegit(plans, s, job);
    assert ParentOk(plans, s, job.scope.parent);
  }

  // ----- what is stored as text -----

  /** The texts of scopes and keys. */
  lemma StoredTexts(p: string, symbol: string, task: string, generation: nat, batch: string)
    ensures Render(BacktestItem(p)) == "backtest-bulk-item:" + p && Render(BacktestFinal(p)) == "backtest-bulk-finalize:" + p
    ensures Render(DailyItem(p)) == "daily-data:item:" + p && Render(DailyFinal(p)) == "daily-data:finalize:" + p
    ensures KeyText(SymbolKey(symbol)) == symbol && KeyText(BatchKey(batch)) == batch
    ensures KeyText(GenerationKey(task, generation)) == task + ":" + Digits(generation)
  {
  }

  /** The decimal digits of a number read back as it. */
  function FromDigits(ds: string): int {
    if |ds| == 0 then 0 else 10 * FromDigits(ds[..|ds| - 1]) + (ds[|ds| - 1] as int - '0' as int)
  }

  lemma DigitValue(d: nat)
    requires d < 10
    ensures '0' <= "0123456789"[d] <= '9' && "0123456789"[d] as int - '0' as int == d
  {
  }

  lemma OneMoreDigit(ds: string, c: char)
    ensures FromDigits(ds + [c]) == 10 * FromDigits(ds) + (c as int - '0' as int)
  {
    assert (ds + [c])[..|ds|] == ds;
  }

  predicate AllDigits(ds: string) {
    forall i | 0 <= i < |ds| :: '0' <= ds[i] <= '9'
  }

  lemma {:induction false} DigitsAreDigits(n: nat)
    ensures AllDigits(Digits(n))
  {
    DigitValue(n % 10);
    if n >= 10 { DigitsAreDigits(n / 10); }
  }

  lemma {:induction false} DigitsReadBack(n: nat)
    ensures FromDigits(Digits(n)) == n
  {
    var front := if n < 10 then "" else Digits(n / 10);
    DigitValue(n % 10);
    OneMoreDigit(front, "0123456789"[n % 10]);
    if n >= 10 { DigitsReadBack(n / 10); }
    assert FromDigits(front) == n / 10;
  }

  /** What the finalize handlers read from their configuration. */
  lemma FinalizeConfigReads(p: string, task: string, generation: int, batch: string)
    ensures var es := ConfigEntries(BacktestFinalize(p, task, generation));
            && LinkedJob.Get(es, "parent_job_id") == Some(Str(p)) && LinkedJob.Get(es, "backtest_task_id") == Some(Str(task))
            && LinkedJob.Get(es, "generation") == Some(Number(generation))
    ensures var es := ConfigEntries(DailyFinalize(p, batch));
            && LinkedJob.Get(es, "parent_job_id") == Some(Str(p)) && LinkedJob.Get(es, "linked_parent_job_id") == Some(Str(p))
            && LinkedJob.Get(es, "batch_id") == Some(Str(batch))
  {
    var es, fs := ConfigEntries(BacktestFinalize(p, task, generation)), ConfigEntries(DailyFinalize(p, batch));
    assert |es[0].0.text| == 13 && |es[1].0.text| == 16 && |es[2].0.text| == 10;
    assert |fs[0].0.text| == 13 && |fs[1].0.text| == 20 && |fs[2].0.text| == 8;
    LinkedJob.GetAt(es, 0);
    LinkedJob.GetAt(es, 1);
    LinkedJob.GetAt(es, 2);
    LinkedJob.GetAt(fs, 0);
    LinkedJob.GetAt(fs, 1);
    LinkedJob.GetAt(fs, 2);
  }

  /** What the handler of a backtest child reads from its configuration, its link aside. */
  lemma BacktestConfigReads(c: Config)
    requires c.BacktestChild?
    ensures var es := ConfigEntries(c);
            && LinkedJob.Get(es, "backtest_task_id") == Some(Str(c.task))
            && LinkedJob.Get(es, "backtest_item_id") == Some(Str(c.task + ":item:" + c.security))
            && LinkedJob.Get(es, "generation") == Some(Number(c.generation)) && LinkedJob.Get(es, "recover") == Some(Flag(c.recover))
  {
    var es := ConfigEntries(c);
    assert es[0].0.text[9] == 't' && es[1].0.text[9] == 'i' && |es[0].0.text| == |es[1].0.text| == 16;
    assert |es[2].0.text| == 10 && |es[3].0.text| == 7 && |es[4].0.text| == 11;
    LinkedJob.GetAt(es, 0);
    LinkedJob.GetAt(es, 1);
    LinkedJob.GetAt(es, 2);
    LinkedJob.GetAt(es, 3);
  }

  // ----- what a child's step does -----

  /** The items with the one of a child's slot set to `st`, unless it was succeeded, skipped or canceled. */
  function ItemSet(items: map<(string, string), ItemStatus>, job: Slot, st: ItemStatus): map<(string, string), ItemStatus>
    requires job.key.SymbolKey? && (job.scope.parent, job.key.symbol) in items
  {
    match items[(job.scope.parent, job.key.symbol)]
    case Succeeded | Skipped | Canceled => items
    case Pending | Fetching | Validating | Running | Saving | Failed => items[(job.scope.parent, job.key.symbol) := st]
  }

  /** The slot of a child in a reachable store. */
  predicate ChildSlotOf(s: Store, job: Slot) {
    job in s.jobs && (job.scope.BacktestItem? || job.scope.DailyItem?)
  }

  lemma ChildSlotIff(plans: Plans, s: Store, job: Slot)
    requires Inv(plans, s)
    ensures ChildSlotOf(s, job) <==> IsChild(s, job)
    ensures ChildSlotOf(s, job) ==> job.key.SymbolKey? && (job.scope.parent, job.key.symbol) in s.items
  {
    if job in s.jobs {
      assert JobLegit(plans, s, job);
      if IsChild(s, job) { ChildIsLegit(plans, s, job); }
    }
  }

  /** A finishing child is accepted exactly when it is a child of the store with a current token, reports a terminal
      status and, for a backtest, is not kept from its link by a frozen context. Its own item, and no other, then has
      the reported status, unless it was settled before. */
  lemma FinishedSetsItem(plans: Plans, s: Store, job: Slot, live: bool, frozen: bool, st: ItemStatus)
    requires Inv(plans, s)
    ensures var r := Attempt(plans, s, Finished(job, live, frozen, st));
            && (r.Ok? <==>
                && ChildSlotOf(s, job) && live && (job.scope.BacktestItem? ==> !frozen)
                && (st == Succeeded || st == Failed || st == Skipped || st == Canceled))
            && (r.Ok? ==>
                && job.key.SymbolKey? && (job.scope.parent, job.key.symbol) in s.items
                && r.value.items == ItemSet(s.items, job, st) && r.value.batches == s.batches)
  {
    ChildSlotIff(plans, s, job);
    if IsChild(s, job) {
      ChildIsLegit(plans, s, job);
      ChildReadsLinkIffStored(plans, s, job, frozen);
      FinishedIs(plans, s, job, live, LinkReadable(s, job, frozen), st);
      if Terminal(st) { ClosingSetsItem(plans, s, job, st); }
    }
  }

  /** A finishing child closes its own item with its parent's finalize command. */
  lemma FinishedIs(plans: Plans, s: Store, job: Slot, live: bool, readable: bool, st: ItemStatus)
    requires Inv(plans, s) && IsChild(s, job)
    ensures var p := job.scope.parent;
            p in plans && job.key.SymbolKey?
            && FinishChild(s, job, live, readable, st) ==
                 if job.scope.BacktestItem? && !readable then Err(LinkUnreadable)
                 else if !live then Err(FenceRejected)
                 else FinishWith(s, p, job.key.symbol, st, FinalizeCommand(plans[p], p, CurrentBatch(s, plans[p], p)))
  {
    ChildIsLegit(plans, s, job);
  }

  /** Closing a child's item with its parent's finalize command. */
  lemma ClosingSetsItem(plans: Plans, s: Store, job: Slot, st: ItemStatus)
    requires Inv(plans, s) && IsChild(s, job) && Terminal(st)
    ensures var p := job.scope.parent;
            && p in plans && job.key.SymbolKey? && (p, job.key.symbol) in s.items
            && var r := FinishWith(s, p, job.key.symbol, st, FinalizeCommand(plans[p], p, CurrentBatch(s, plans[p], p)));
               r.Ok? && r.value.items == ItemSet(s.items, job, st) && r.value.batches == s.batches
  {
    var p := job.scope.parent;
    ChildIsLegit(plans, s, job);
    FinishKeepsInvariant(plans, s, p, job.key.symbol, st);
    FinishingSetsItem(s, job, st, FinalizeCommand(plans[p], p, CurrentBatch(s, plans[p], p)));
  }

  lemma FinishingSetsItem(s: Store, job: Slot, st: ItemStatus, c: Command)
    requires job.key.SymbolKey? && FinishWith(s, job.scope.parent, job.key.symbol, st, c).Ok?
    ensures (job.scope.parent, job.key.symbol) in s.items
    ensures var t := FinishWith(s, job.scope.parent, job.key.symbol, st, c).value;
            t.items == ItemSet(s.items, job, st) && t.batches == s.batches
  {
  }

  /** A child whose handler failed is accepted exactly when it is a child with a current token; its item fails. */
  lemma FailedSetsItem(plans: Plans, s: Store, job: Slot, live: bool)
    requires Inv(plans, s)
    ensures var r := Attempt(plans, s, ChildFailed(job, live));
            && (r.Ok? <==> ChildSlotOf(s, job) && live)
            && (r.Ok? ==>
                && job.key.SymbolKey? && (job.scope.parent, job.key.symbol) in s.items
                && r.value.items == ItemSet(s.items, job, Failed) && r.value.batches == s.batches)
  {
    ChildSlotIff(plans, s, job);
    if IsChild(s, job) {
      ChildIsLegit(plans, s, job);
      ClosingSetsItem(plans, s, job, Failed);
    }
  }

  lemma AbandoningSetsItem(s: Store, job: Slot)
    requires IsChild(s, job) && AbandonChild(s, job).Ok? && job.key.SymbolKey?
    requires s.jobs[job].config.linked.parent == job.scope.parent && s.jobs[job].config.linked.itemKey == job.key.symbol
    ensures (job.scope.parent, job.key.symbol) in s.items
    ensures AbandonChild(s, job).value.items == ItemSet(s.items, job, Failed) && AbandonChild(s, job).value.batches == s.batches
  {
  }

  /** A child lost twice is abandoned, token or not; its item fails. */
  lemma AbandonedSetsItem(plans: Plans, s: Store, job: Slot)
    requires Inv(plans, s)
    ensures var r := Attempt(plans, s, Abandoned(job));
            && (r.Ok? <==> ChildSlotOf(s, job))
            && (r.Ok? ==>
                && job.key.SymbolKey? && (job.scope.parent, job.key.symbol) in s.items
                && r.value.items == ItemSet(s.items, job, Failed) && r.value.batches == s.batches)
  {
    ChildSlotIff(plans, s, job);
    if IsChild(s, job) {
      ChildIsLegit(plans, s, job);
      AbandonKeepsInvariant(plans, s, job);
      AbandoningSetsItem(s, job);
    }
  }
}
