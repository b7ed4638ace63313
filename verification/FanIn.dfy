/** What every interleaving of coordinators and children keeps: one finalize job per parent, submitted
    exactly when the last item becomes terminal (backend/src/long_invest/bootstrap/backtest_jobs.py,
    backend/src/long_invest/bootstrap/jobs.py). */
module FanIn {
  import opened Wrappers
  import opened KeyOrder
  import opened JobStore
  import JsonTree
  import LinkedJob

  // ----- invariant -----

  predicate Started(s: Store, parent: string) {
    ItemKeys(s, parent) != {}
  }

  predicate EveryItemTerminal(s: Store, parent: string) {
    forall pk | pk in s.items && pk.0 == parent :: Terminal(s.items[pk])
  }

  /** The batch id a started parent's commands carry. */
  function CurrentBatch(s: Store, plan: Plan, parent: string): string {
    BatchOf(s, plan, parent, "")
  }

  function FinalizeSlot(s: Store, plan: Plan, parent: string): Slot {
    var c := FinalizeCommand(plan, parent, CurrentBatch(s, plan, parent));
    SlotOf(c)
  }

  /** The only command a slot of the job table may hold. */
  predicate JobLegit(plans: Plans, s: Store, job: Slot) {
    job in s.jobs
    && var p := job.scope.parent;
    && p in plans && PlanValid(plans[p]) && Started(s, p)
    && (if job.scope == ItemScope(plans[p], p) then
          && job.key.SymbolKey? && job.key.symbol in plans[p].requested
          && s.jobs[job] == ChildCommand(plans[p], p, CurrentBatch(s, plans[p], p), job.key.symbol)
        else
          && job == FinalizeSlot(s, plans[p], p)
          && s.jobs[job] == FinalizeCommand(plans[p], p, CurrentBatch(s, plans[p], p)))
  }

  predicate JobsLegit(plans: Plans, s: Store) {
    forall job | job in s.jobs :: JobLegit(plans, s, job)
  }

  predicate ParentOk(plans: Plans, s: Store, p: string) {
    Started(s, p) ==>
      && p in plans && PlanValid(plans[p])
      && ItemKeys(s, p) == Members(plans[p].requested)
      && (plans[p].DailyPlan? ==> p in s.batches)
      && (forall k | k in plans[p].requested :: ChildSlot(plans[p], p, k) in s.jobs)
      && (FinalizeSlot(s, plans[p], p) in s.jobs <==> EveryItemTerminal(s, p))
  }

  ghost predicate Inv(plans: Plans, s: Store) {
    JobsLegit(plans, s) && forall p :: ParentOk(plans, s, p)
  }

  // ----- counting -----

  lemma SubsetSameSize<T>(a: set<T>, b: set<T>)
    requires a <= b && |a| == |b|
    ensures a == b
  {
    assert b == a + (b - a);
    assert |b - a| == 0;
  }

  /** The counter comparison in the job service says exactly that every item is terminal. */
  lemma AllTerminalMeans(s: Store, p: string)
    ensures AllTerminal(s, p) <==> Started(s, p) && EveryItemTerminal(s, p)
  {
    assert ClosedKeys(s, p) <= ItemKeys(s, p);
    if AllTerminal(s, p) {
      SubsetSameSize(ClosedKeys(s, p), ItemKeys(s, p));
      forall pk | pk in s.items && pk.0 == p ensures Terminal(s.items[pk]) {
        assert pk.1 in ItemKeys(s, p);
        assert pk.1 in ClosedKeys(s, p);
      }
    }
    if Started(s, p) && EveryItemTerminal(s, p) {
      assert forall k | k in ItemKeys(s, p) :: k in ClosedKeys(s, p) by {
        forall k | k in ItemKeys(s, p) ensures k in ClosedKeys(s, p) {
          assert (p, k) in s.items;
        }
      }
      assert ClosedKeys(s, p) == ItemKeys(s, p);
    }
  }

  // ----- closing an item -----

  lemma SameItemKeys(s: Store, u: Store, q: string)
    requires u.items.Keys == s.items.Keys
    ensures ItemKeys(u, q) == ItemKeys(s, q)
  {
  }

  lemma JobLegitFrame(plans: Plans, s: Store, u: Store, job: Slot)
    requires JobLegit(plans, s, job) && u.batches == s.batches && Started(u, job.scope.parent)
    requires job in u.jobs && u.jobs[job] == s.jobs[job]
    ensures JobLegit(plans, u, job)
  {
  }

  /** What a store must keep of a parent for the parent to stay as it was. */
  lemma ParentFrame(plans: Plans, s: Store, u: Store, q: string)
    requires ParentOk(plans, s, q) && ItemKeys(u, q) == ItemKeys(s, q)
    requires u.batches.Keys >= s.batches.Keys && forall r | r in s.batches :: u.batches[r] == s.batches[r]
    requires q in plans && PlanValid(plans[q]) ==>
               && (forall k :: ChildSlot(plans[q], q, k) in s.jobs ==> ChildSlot(plans[q], q, k) in u.jobs)
               && (Started(s, q) ==> (FinalizeSlot(u, plans[q], q) in u.jobs <==> EveryItemTerminal(u, q)))
    ensures ParentOk(plans, u, q)
  {
  }

  /** `u` differs from `s` only in the item statuses of `p` and perhaps in its finalize job, which is
      there exactly if every item is terminal. */
  predicate OnlyParentChanged(plans: Plans, s: Store, u: Store, p: string) {
    && p in plans
    && u.batches == s.batches && u.items.Keys == s.items.Keys
    && (forall pk | pk in s.items && pk.0 != p :: u.items[pk] == s.items[pk])
    && var slot := FinalizeSlot(s, plans[p], p);
       && (u.jobs == s.jobs
           || u.jobs == s.jobs[slot := FinalizeCommand(plans[p], p, CurrentBatch(s, plans[p], p))])
       && (slot in u.jobs <==> EveryItemTerminal(u, p))
  }

  lemma JobAfterChange(plans: Plans, s: Store, u: Store, p: string, job: Slot)
    requires OnlyParentChanged(plans, s, u, p) && JobsLegit(plans, s) && ParentOk(plans, s, p) && Started(s, p)
    requires job in u.jobs
    ensures JobLegit(plans, u, job)
  {
    SameItemKeys(s, u, job.scope.parent);
    if job in s.jobs {
      assert JobLegit(plans, s, job);
      JobLegitFrame(plans, s, u, job);
    }
  }

  lemma ParentAfterChange(plans: Plans, s: Store, u: Store, p: string, q: string)
    requires OnlyParentChanged(plans, s, u, p) && ParentOk(plans, s, q)
    ensures ParentOk(plans, u, q)
  {
    SameItemKeys(s, u, q);
    if q != p && Started(s, q) {
      assert EveryItemTerminal(u, q) == EveryItemTerminal(s, q);
    }
    ParentFrame(plans, s, u, q);
  }

  lemma OneParentChanged(plans: Plans, s: Store, u: Store, p: string)
    requires Inv(plans, s) && Started(s, p) && OnlyParentChanged(plans, s, u, p)
    ensures Inv(plans, u)
  {
    assert ParentOk(plans, s, p);
    forall job | job in u.jobs ensures JobLegit(plans, u, job) { JobAfterChange(plans, s, u, p, job); }
    forall q ensures ParentOk(plans, u, q) {
      assert ParentOk(plans, s, q);
      ParentAfterChange(plans, s, u, p, q);
    }
  }

  lemma CloseFacts(s: Store, p: string, k: string, st: ItemStatus)
    requires (p, k) in s.items && Terminal(st)
    ensures var (t, changed) := CloseItem(s, p, k, st);
            && t.jobs == s.jobs && t.batches == s.batches && t.items.Keys == s.items.Keys
            && (forall pk | pk in s.items && pk.0 != p :: t.items[pk] == s.items[pk])
            && (EveryItemTerminal(s, p) ==> EveryItemTerminal(t, p))
            && (!changed ==> t == s)
            && (AllTerminal(t, p) <==> EveryItemTerminal(t, p))
  {
    var (t, changed) := CloseItem(s, p, k, st);
    AllTerminalMeans(t, p);
    assert k in ItemKeys(t, p);
    if EveryItemTerminal(s, p) {
      forall pk | pk in t.items && pk.0 == p ensures Terminal(t.items[pk]) {
        assert pk in s.items;
      }
    }
  }

  /** Closing an item and then submitting the finalize command when the last one closed keeps the
      invariant, and the submission is never refused. `must` says the caller submits whenever all items
      are terminal, changed or not. */
  lemma CloseKeepsInvariant(plans: Plans, s: Store, p: string, k: string, st: ItemStatus, must: bool)
    requires Inv(plans, s) && (p, k) in s.items && Terminal(st)
    ensures p in plans
    ensures var (t, changed) := CloseItem(s, p, k, st);
            var c := FinalizeCommand(plans[p], p, CurrentBatch(s, plans[p], p));
            var r := SubmitWhenDone(t, p, changed || must, c);
            r.Ok? && Inv(plans, r.value)
  {
    assert k in ItemKeys(s, p);
    assert ParentOk(plans, s, p);
    var (t, changed) := CloseItem(s, p, k, st);
    var c := FinalizeCommand(plans[p], p, CurrentBatch(s, plans[p], p));
    var slot := FinalizeSlot(s, plans[p], p);
    CloseFacts(s, p, k, st);
    assert slot in s.jobs ==> JobLegit(plans, s, slot);
    var r := SubmitWhenDone(t, p, changed || must, c);
    SubmissionAfterClose(plans, s, t, p, changed || must, c);
    OneParentChanged(plans, s, r.value, p);
  }

  lemma SubmissionAfterClose(plans: Plans, s: Store, t: Store, p: string, now: bool, c: Command)
    requires p in plans && c == FinalizeCommand(plans[p], p, CurrentBatch(s, plans[p], p))
    requires t.jobs == s.jobs && t.batches == s.batches && t.items.Keys == s.items.Keys
    requires forall pk | pk in s.items && pk.0 != p :: t.items[pk] == s.items[pk]
    requires AllTerminal(t, p) <==> EveryItemTerminal(t, p)
    requires EveryItemTerminal(s, p) ==> EveryItemTerminal(t, p)
    requires !now ==> t == s
    requires SlotOf(c) in s.jobs ==> s.jobs[SlotOf(c)] == c
    requires SlotOf(c) in s.jobs <==> EveryItemTerminal(s, p)
    ensures var r := SubmitWhenDone(t, p, now, c);
            r.Ok? && OnlyParentChanged(plans, s, r.value, p)
  {
    var r := SubmitWhenDone(t, p, now, c);
    assert r.Ok?;
    assert r.value.items == t.items;
    assert EveryItemTerminal(r.value, p) == EveryItemTerminal(t, p);
  }

  predicate IsChild(s: Store, job: Slot) {
    job in s.jobs && (s.jobs[job].config.BacktestChild? || s.jobs[job].config.DailyChild?)
  }

  lemma ChildIsLegit(plans: Plans, s: Store, job: Slot)
    requires Inv(plans, s) && IsChild(s, job)
    ensures var p := job.scope.parent;
            && p in plans && job.scope == ItemScope(plans[p], p) && job.key.SymbolKey? && job.key.symbol in plans[p].universe
            && s.jobs[job] == ChildCommand(plans[p], p, CurrentBatch(s, plans[p], p), job.key.symbol)
            && (p, job.key.symbol) in s.items
  {
    assert JobLegit(plans, s, job);
    var p := job.scope.parent;
    assert ParentOk(plans, s, p);
    assert job.key.symbol in ItemKeys(s, p);
  }

  // ----- the coordinator -----

  function ChildJobs(plan: Plan, p: string, batch: string, symbols: seq<string>): map<Slot, Command>
    requires forall k | k in symbols :: k in plan.universe
  {
    map k | k in symbols :: ChildSlot(plan, p, k) := ChildCommand(plan, p, batch, k)
  }

  /** The job table agrees with this parent's child commands wherever it already has a row. */
  predicate Agrees(s: Store, cs: map<Slot, Command>) {
    forall job | job in cs && job in s.jobs :: s.jobs[job] == cs[job]
  }

  lemma {:induction false} SubmitChildrenIs(s: Store, plan: Plan, p: string, batch: string, symbols: seq<string>)
    requires forall k | k in symbols :: k in plan.universe
    requires Agrees(s, ChildJobs(plan, p, batch, symbols))
    ensures SubmitChildren(s, plan, p, batch, symbols) == Ok(s.(jobs := s.jobs + ChildJobs(plan, p, batch, symbols)))
    decreases |symbols|
  {
    var cs := ChildJobs(plan, p, batch, symbols);
    if |symbols| == 0 {
      assert s.jobs + cs == s.jobs;
    } else {
      var rest := ChildJobs(plan, p, batch, symbols[1..]);
      var slot := ChildSlot(plan, p, symbols[0]);
      var c := ChildCommand(plan, p, batch, symbols[0]);
      ChildJobsSplit(plan, p, batch, symbols);
      UnionStep(s.jobs, slot, c, rest, cs);
      assert SlotOf(c) == slot && cs[slot] == c;
      var t := s.(jobs := s.jobs[slot := c]);
      assert Submit(s, c) == Ok(t);
      SubmitChildrenIs(t, plan, p, batch, symbols[1..]);
    }
  }

  lemma UnionStep<K, V>(m: map<K, V>, k: K, v: V, rest: map<K, V>, cs: map<K, V>)
    requires cs == map[k := v] + rest && (k in rest ==> rest[k] == v)
    requires forall j | j in cs && j in m :: m[j] == cs[j]
    ensures m[k := v] + rest == m + cs
    ensures k in m ==> m[k := v] == m
    ensures forall j | j in rest && j in m[k := v] :: m[k := v][j] == rest[j]
  {
    assert k in cs && cs[k] == v;
    assert forall j | j in rest :: j in cs && cs[j] == rest[j];
  }

  /** Which slots the child jobs fill, and with what. */
  lemma ChildJobAt(plan: Plan, p: string, batch: string, symbols: seq<string>, job: Slot)
    requires forall k | k in symbols :: k in plan.universe
    ensures job in ChildJobs(plan, p, batch, symbols) <==>
            job.scope == ItemScope(plan, p) && job.key.SymbolKey? && job.key.symbol in symbols
    ensures job in ChildJobs(plan, p, batch, symbols) ==>
              ChildJobs(plan, p, batch, symbols)[job] == ChildCommand(plan, p, batch, job.key.symbol)
  {
    if job.scope == ItemScope(plan, p) && job.key.SymbolKey? && job.key.symbol in symbols {
      assert ChildSlot(plan, p, job.key.symbol) == job;
    }
  }

  lemma ChildJobSplits(plan: Plan, p: string, batch: string, symbols: seq<string>, job: Slot)
    requires |symbols| > 0 && forall k | k in symbols :: k in plan.universe
    ensures var whole, rest := ChildJobs(plan, p, batch, symbols), ChildJobs(plan, p, batch, symbols[1..]);
            && (job in whole <==> job == ChildSlot(plan, p, symbols[0]) || job in rest)
            && (job in rest ==> rest[job] == whole[job])
            && (job == ChildSlot(plan, p, symbols[0]) ==> whole[job] == ChildCommand(plan, p, batch, symbols[0]))
  {
    assert symbols == [symbols[0]] + symbols[1..];
    ChildJobAt(plan, p, batch, symbols, job);
    ChildJobAt(plan, p, batch, symbols[1..], job);
  }

  lemma FirstOfMap<K, V>(whole: map<K, V>, k: K, v: V, rest: map<K, V>)
    requires forall j :: j in whole <==> j == k || j in rest
    requires whole[k] == v && forall j | j in rest :: rest[j] == whole[j]
    ensures whole == map[k := v] + rest
  {
  }

  lemma ChildJobsSplit(plan: Plan, p: string, batch: string, symbols: seq<string>)
    requires |symbols| > 0 && forall k | k in symbols :: k in plan.universe
    ensures ChildJobs(plan, p, batch, symbols)
         == map[ChildSlot(plan, p, symbols[0]) := ChildCommand(plan, p, batch, symbols[0])]
            + ChildJobs(plan, p, batch, symbols[1..])
    ensures var rest := ChildJobs(plan, p, batch, symbols[1..]);
            ChildSlot(plan, p, symbols[0]) in rest ==>
              rest[ChildSlot(plan, p, symbols[0])] == ChildCommand(plan, p, batch, symbols[0])
  {
    var slot, c := ChildSlot(plan, p, symbols[0]), ChildCommand(plan, p, batch, symbols[0]);
    var whole, rest := ChildJobs(plan, p, batch, symbols), ChildJobs(plan, p, batch, symbols[1..]);
    ChildJobSplits(plan, p, batch, symbols, slot);
    forall job: Slot
      ensures job in whole <==> job == slot || job in rest
      ensures job in rest ==> rest[job] == whole[job]
    {
      ChildJobSplits(plan, p, batch, symbols, job);
    }
    FirstOfMap(whole, slot, c, rest);
  }

  function BatchesAfter(s: Store, plan: Plan, p: string, newBatch: string): map<string, string> {
    if plan.BacktestPlan? then s.batches else s.batches[p := BatchOf(s, plan, p, newBatch)]
  }

  /** What a successful coordination leaves. */
  function CoordinateEffect(s: Store, plan: Plan, p: string, newBatch: string): Store
    requires PlanValid(plan)
  {
    Store(s.jobs + ChildJobs(plan, p, BatchOf(s, plan, p, newBatch), plan.requested),
          s.items + PendingItems(p, Members(plan.requested) - ItemKeys(s, p)),
          BatchesAfter(s, plan, p, newBatch))
  }

  lemma CoordinateIs(s: Store, plan: Plan, p: string, newBatch: string)
    requires PlanValid(plan) && (Started(s, p) ==> ItemKeys(s, p) == Members(plan.requested))
    requires Agrees(s, ChildJobs(plan, p, BatchOf(s, plan, p, newBatch), plan.requested))
    ensures Coordinate(s, plan, p, newBatch) == Ok(CoordinateEffect(s, plan, p, newBatch))
  {
    var batch := BatchOf(s, plan, p, newBatch);
    var s0 := if plan.BacktestPlan? then s else s.(batches := s.batches[p := batch]);
    assert ItemKeys(s0, p) == ItemKeys(s, p);
    SubmitChildrenIs(InitializeItems(s0, p, plan.requested).value, plan, p, batch, plan.requested);
  }

  /** Running the coordinator again changes nothing, whatever batch id it would have created. */
  lemma CoordinatorRerunIsNoop(plans: Plans, s: Store, p: string, newBatch: string)
    requires Inv(plans, s) && p in plans && Started(s, p)
    ensures Coordinate(s, plans[p], p, newBatch) == Ok(s)
  {
    assert ParentOk(plans, s, p);
    var plan := plans[p];
    var cs := ChildJobs(plan, p, BatchOf(s, plan, p, newBatch), plan.requested);
    forall job | job in cs ensures job in s.jobs && s.jobs[job] == cs[job] {
      var k :| k in plan.requested && job == ChildSlot(plan, p, k);
      assert JobLegit(plans, s, job);
    }
    CoordinateIs(s, plan, p, newBatch);
    RerunEffect(s, plan, p, newBatch);
  }

  lemma RerunEffect(s: Store, plan: Plan, p: string, newBatch: string)
    requires PlanValid(plan) && ItemKeys(s, p) == Members(plan.requested)
    requires plan.DailyPlan? ==> p in s.batches
    requires var cs := ChildJobs(plan, p, BatchOf(s, plan, p, newBatch), plan.requested);
             forall job | job in cs :: job in s.jobs && s.jobs[job] == cs[job]
    ensures CoordinateEffect(s, plan, p, newBatch) == s
  {
    var u := CoordinateEffect(s, plan, p, newBatch);
    assert u.jobs == s.jobs;
    assert u.items == s.items;
    assert u.batches == s.batches;
  }

  lemma NoJobsBeforeStart(plans: Plans, s: Store, p: string, job: Slot)
    requires JobsLegit(plans, s) && !Started(s, p) && job.scope.parent == p
    ensures job !in s.jobs
  {
    assert job in s.jobs ==> JobLegit(plans, s, job);
  }

  lemma FirstItems(s: Store, plan: Plan, p: string, newBatch: string)
    requires PlanValid(plan) && !Started(s, p)
    ensures var u := CoordinateEffect(s, plan, p, newBatch);
            && ItemKeys(u, p) == Members(plan.requested) && Started(u, p) && !EveryItemTerminal(u, p)
  {
    var u := CoordinateEffect(s, plan, p, newBatch);
    forall k ensures k in ItemKeys(u, p) <==> k in Members(plan.requested) {
      assert (p, k) in s.items ==> k in ItemKeys(s, p);
      assert k in ItemKeys(u, p) <==> (p, k) in u.items;
    }
    var k := plan.requested[0];
    assert k in Members(plan.requested);
    assert u.items[(p, k)] == Pending;
  }

  lemma OtherItems(s: Store, plan: Plan, p: string, newBatch: string, q: string)
    requires PlanValid(plan) && q != p
    ensures var u := CoordinateEffect(s, plan, p, newBatch);
            ItemKeys(u, q) == ItemKeys(s, q) && EveryItemTerminal(u, q) == EveryItemTerminal(s, q)
  {
    var u := CoordinateEffect(s, plan, p, newBatch);
    assert forall k :: (q, k) in u.items <==> (q, k) in s.items;
    forall k ensures k in ItemKeys(u, q) <==> k in ItemKeys(s, q) {
      assert k in ItemKeys(u, q) <==> (q, k) in u.items;
      assert k in ItemKeys(s, q) <==> (q, k) in s.items;
    }
    assert forall pk | pk in u.items && pk.0 == q :: pk in s.items && u.items[pk] == s.items[pk];
    assert forall pk | pk in s.items && pk.0 == q :: pk in u.items;
  }

  lemma NewChildJob(plans: Plans, s: Store, p: string, newBatch: string, k: string)
    requires p in plans && PlanValid(plans[p]) && !Started(s, p) && k in plans[p].requested
    ensures JobLegit(plans, CoordinateEffect(s, plans[p], p, newBatch), ChildSlot(plans[p], p, k))
  {
    var plan := plans[p];
    var u := CoordinateEffect(s, plan, p, newBatch);
    var batch := BatchOf(s, plan, p, newBatch);
    FirstItems(s, plan, p, newBatch);
    assert CurrentBatch(u, plan, p) == batch;
    assert u.jobs[ChildSlot(plan, p, k)] == ChildJobs(plan, p, batch, plan.requested)[ChildSlot(plan, p, k)];
  }

  lemma OldJob(plans: Plans, s: Store, p: string, newBatch: string, job: Slot)
    requires p in plans && PlanValid(plans[p]) && JobLegit(plans, s, job) && job.scope.parent != p
    ensures JobLegit(plans, CoordinateEffect(s, plans[p], p, newBatch), job)
  {
    var u := CoordinateEffect(s, plans[p], p, newBatch);
    OtherItems(s, plans[p], p, newBatch, job.scope.parent);
    assert u.jobs[job] == s.jobs[job];
  }

  lemma CoordinatedJob(plans: Plans, s: Store, p: string, newBatch: string, job: Slot)
    requires JobsLegit(plans, s) && p in plans && PlanValid(plans[p]) && !Started(s, p)
    requires job in CoordinateEffect(s, plans[p], p, newBatch).jobs
    ensures JobLegit(plans, CoordinateEffect(s, plans[p], p, newBatch), job)
  {
    var plan := plans[p];
    if job.scope.parent == p {
      NoJobsBeforeStart(plans, s, p, job);
      var cs := ChildJobs(plan, p, BatchOf(s, plan, p, newBatch), plan.requested);
      assert job in cs;
      var k :| k in plan.requested && job == ChildSlot(plan, p, k);
      NewChildJob(plans, s, p, newBatch, k);
    } else {
      assert JobLegit(plans, s, job);
      OldJob(plans, s, p, newBatch, job);
    }
  }

  lemma CoordinatedChildren(s: Store, plan: Plan, p: string, newBatch: string)
    requires PlanValid(plan)
    ensures var u := CoordinateEffect(s, plan, p, newBatch);
            && (forall k | k in plan.requested :: ChildSlot(plan, p, k) in u.jobs)
            && (forall job: Slot | !job.key.SymbolKey? :: job in u.jobs <==> job in s.jobs)
            && (plan.DailyPlan? ==> p in u.batches)
  {
    var batch := BatchOf(s, plan, p, newBatch);
    forall k | k in plan.requested ensures ChildSlot(plan, p, k) in ChildJobs(plan, p, batch, plan.requested) {
      ChildJobAt(plan, p, batch, plan.requested, ChildSlot(plan, p, k));
    }
  }

  lemma CoordinatedItself(plans: Plans, s: Store, p: string, newBatch: string)
    requires JobsLegit(plans, s) && p in plans && PlanValid(plans[p]) && !Started(s, p)
    ensures ParentOk(plans, CoordinateEffect(s, plans[p], p, newBatch), p)
  {
    var u := CoordinateEffect(s, plans[p], p, newBatch);
    FirstItems(s, plans[p], p, newBatch);
    CoordinatedChildren(s, plans[p], p, newBatch);
    NoJobsBeforeStart(plans, s, p, FinalizeSlot(u, plans[p], p));
  }

  lemma CoordinatedParent(plans: Plans, s: Store, p: string, newBatch: string, q: string)
    requires JobsLegit(plans, s) && ParentOk(plans, s, q) && p in plans && PlanValid(plans[p]) && !Started(s, p)
    ensures ParentOk(plans, CoordinateEffect(s, plans[p], p, newBatch), q)
  {
    if q == p {
      CoordinatedItself(plans, s, p, newBatch);
    } else {
      var u := CoordinateEffect(s, plans[p], p, newBatch);
      OtherItems(s, plans[p], p, newBatch, q);
      if Started(s, q) {
        assert FinalizeSlot(u, plans[q], q) == FinalizeSlot(s, plans[q], q);
        assert FinalizeSlot(s, plans[q], q) in u.jobs <==> FinalizeSlot(s, plans[q], q) in s.jobs;
      }
      ParentFrame(plans, s, u, q);
    }
  }

  lemma CoordinateKeepsInvariant(plans: Plans, s: Store, p: string, newBatch: string)
    requires Inv(plans, s) && p in plans
    ensures var r := Coordinate(s, plans[p], p, newBatch);
            (r.Ok? <==> PlanValid(plans[p])) && (r.Ok? ==> Inv(plans, r.value))
  {
    assert ParentOk(plans, s, p);
    if Started(s, p) {
      CoordinatorRerunIsNoop(plans, s, p, newBatch);
    } else if PlanValid(plans[p]) {
      var plan := plans[p];
      var u := CoordinateEffect(s, plan, p, newBatch);
      var cs := ChildJobs(plan, p, BatchOf(s, plan, p, newBatch), plan.requested);
      forall job | job in cs ensures job !in s.jobs { NoJobsBeforeStart(plans, s, p, job); }
      CoordinateIs(s, plan, p, newBatch);
      forall job | job in u.jobs ensures JobLegit(plans, u, job) { CoordinatedJob(plans, s, p, newBatch, job); }
      forall q ensures ParentOk(plans, u, q) {
        assert ParentOk(plans, s, q);
        CoordinatedParent(plans, s, p, newBatch, q);
      }
    }
  }

  // ----- every step, every run -----

  lemma FinishKeepsInvariant(plans: Plans, s: Store, p: string, k: string, st: ItemStatus)
    requires Inv(plans, s) && (p, k) in s.items && Terminal(st) && p in plans
    ensures var r := FinishWith(s, p, k, st, FinalizeCommand(plans[p], p, CurrentBatch(s, plans[p], p)));
            r.Ok? && Inv(plans, r.value)
  {
    CloseKeepsInvariant(plans, s, p, k, st, false);
  }

  lemma AbandonKeepsInvariant(plans: Plans, s: Store, job: Slot)
    requires Inv(plans, s) && IsChild(s, job)
    ensures AbandonChild(s, job).Ok? && Inv(plans, AbandonChild(s, job).value)
  {
    ChildIsLegit(plans, s, job);
    CloseKeepsInvariant(plans, s, job.scope.parent, job.key.symbol, Failed, true);
  }

  lemma FinishedKeepsInvariant(plans: Plans, s: Store, job: Slot, live: bool, readable: bool, st: ItemStatus)
    requires Inv(plans, s) && IsChild(s, job)
    ensures var r := FinishChild(s, job, live, readable, st);
            match r case Ok(t) => Inv(plans, t) case Err(e) => e == LinkUnreadable || e == FenceRejected || e == StatusInvalid
  {
    ChildIsLegit(plans, s, job);
    if Terminal(st) { FinishKeepsInvariant(plans, s, job.scope.parent, job.key.symbol, st); }
  }

  lemma FailedKeepsInvariant(plans: Plans, s: Store, job: Slot, live: bool)
    requires Inv(plans, s) && IsChild(s, job)
    ensures var r := FailChild(s, job, live);
            match r case Ok(t) => Inv(plans, t) case Err(e) => e == FenceRejected
  {
    ChildIsLegit(plans, s, job);
    FinishKeepsInvariant(plans, s, job.scope.parent, job.key.symbol, Failed);
  }

  /** A child's step finds its item, carries the one finalize command of its parent whichever path builds
      it, and is never refused as a reused key. */
  lemma ChildStepKeepsInvariant(plans: Plans, s: Store, step: Step)
    requires Inv(plans, s) && !step.Coordinated?
    ensures Attempt(plans, s, step).Ok? ==> Inv(plans, Attempt(plans, s, step).value)
    ensures Attempt(plans, s, step).Err? ==> Attempt(plans, s, step).error in {NotAChild, FenceRejected, StatusInvalid, LinkUnreadable}
  {
    if IsChild(s, step.job) {
      match step
      case Finished(job, live, frozen, st) => FinishedKeepsInvariant(plans, s, job, live, LinkReadable(s, job, frozen), st);
      case ChildFailed(job, live) => FailedKeepsInvariant(plans, s, job, live);
      case Abandoned(job) => AbandonKeepsInvariant(plans, s, job);
    }
  }

  lemma StepKeepsInvariant(plans: Plans, s: Store, step: Step)
    requires Inv(plans, s)
    ensures Inv(plans, Execute(plans, s, step))
  {
    if step.Coordinated? {
      if step.parent in plans { CoordinateKeepsInvariant(plans, s, step.parent, step.newBatch); }
    } else {
      ChildStepKeepsInvariant(plans, s, step);
    }
  }

  lemma {:induction false} RunKeepsInvariant(plans: Plans, s: Store, steps: seq<Step>)
    requires Inv(plans, s)
    ensures Inv(plans, Run(plans, s, steps))
    decreases |steps|
  {
    if |steps| > 0 {
      StepKeepsInvariant(plans, s, steps[0]);
      RunKeepsInvariant(plans, Execute(plans, s, steps[0]), steps[1..]);
    }
  }

  function FinalizeJobs(s: Store, plan: Plan, p: string): set<Slot> {
    set job | job in s.jobs && job.scope == if plan.BacktestPlan? then BacktestFinal(p) else DailyFinal(p)
  }

  /** After any interleaving of coordinator runs and re-runs, completions, repeated completions, failures
      and abandonments of any number of parents: a parent has at most one finalize job, and it has one
      exactly when it was coordinated and every one of its items is terminal. */
  lemma FinalizeExactlyWhenAllTerminal(plans: Plans, steps: seq<Step>, p: string)
    requires p in plans
    ensures var s := Run(plans, EMPTY, steps);
            && |FinalizeJobs(s, plans[p], p)| <= 1
            && (FinalizeJobs(s, plans[p], p) != {} <==>
                && (exists k :: (p, k) in s.items)
                && forall k | (p, k) in s.items ::
                     s.items[(p, k)] == Succeeded || s.items[(p, k)] == Failed || s.items[(p, k)] == Skipped || s.items[(p, k)] == Canceled)
  {
    var s := Run(plans, EMPTY, steps);
    assert Inv(plans, EMPTY);
    RunKeepsInvariant(plans, EMPTY, steps);
    assert ParentOk(plans, s, p);
    var slot := FinalizeSlot(s, plans[p], p);
    var jobs := FinalizeJobs(s, plans[p], p);
    forall job | job in jobs ensures job == slot && Started(s, p) { assert JobLegit(plans, s, job); }
    assert jobs <= {slot};
    if slot in s.jobs {
      assert slot in jobs;
      assert jobs == {slot};
    } else {
      assert jobs == {};
    }
    if Started(s, p) && EveryItemTerminal(s, p) { assert slot in jobs; }
    ItemsSpelledOut(s, p);
  }

  lemma ItemsSpelledOut(s: Store, p: string)
    ensures Started(s, p) <==> exists k :: (p, k) in s.items
    ensures EveryItemTerminal(s, p) <==> forall k | (p, k) in s.items ::
              s.items[(p, k)] == Succeeded || s.items[(p, k)] == Failed || s.items[(p, k)] == Skipped || s.items[(p, k)] == Canceled
  {
    if k :| (p, k) in s.items { assert k in ItemKeys(s, p); }
    if Started(s, p) {
      var k :| k in ItemKeys(s, p);
      assert (p, k) in s.items;
    }
    assert forall pk | pk in s.items && pk.0 == p :: pk == (p, pk.1);
  }

  /** No step of any run is refused because its idempotency key was used for different content, because an
      item scope changed, or because a child's item is missing. */
  lemma SubmissionsNeverConflict(plans: Plans, steps: seq<Step>, step: Step)
    ensures var r := Attempt(plans, Run(plans, EMPTY, steps), step);
            r.Err? ==> r.error in {ScopeInvalid, NotAChild, FenceRejected, StatusInvalid, LinkUnreadable}
  {
    var s := Run(plans, EMPTY, steps);
    assert Inv(plans, EMPTY);
    RunKeepsInvariant(plans, EMPTY, steps);
    if step.Coordinated? {
      if step.parent in plans { CoordinateKeepsInvariant(plans, s, step.parent, step.newBatch); }
    } else {
      ChildStepKeepsInvariant(plans, s, step);
    }
  }

  // ----- items over a run -----

  /** Along any step no item disappears, a terminal item stays terminal, and a succeeded, skipped or
      canceled item keeps its very status. A failed item may still be finished again. */
  predicate ItemsProgress(s: Store, t: Store) {
    forall pk | pk in s.items ::
      && pk in t.items
      && (Terminal(s.items[pk]) ==> Terminal(t.items[pk]))
      && (Settled(s.items[pk]) ==> t.items[pk] == s.items[pk])
  }

  lemma CoordinateKeepsItems(plans: Plans, s: Store, p: string, newBatch: string)
    requires Inv(plans, s) && p in plans && Coordinate(s, plans[p], p, newBatch).Ok?
    ensures var t := Coordinate(s, plans[p], p, newBatch).value;
            forall pk | pk in s.items :: pk in t.items && t.items[pk] == s.items[pk]
  {
    CoordinateKeepsInvariant(plans, s, p, newBatch);
    if Started(s, p) {
      CoordinatorRerunIsNoop(plans, s, p, newBatch);
    } else {
      var cs := ChildJobs(plans[p], p, BatchOf(s, plans[p], p, newBatch), plans[p].requested);
      forall job | job in cs ensures job !in s.jobs { NoJobsBeforeStart(plans, s, p, job); }
      CoordinateIs(s, plans[p], p, newBatch);
      forall pk | pk in s.items ensures pk.0 != p || pk.1 in ItemKeys(s, p) { }
    }
  }

  /** A child's step touches at most its own item, and never a settled one. */
  predicate OneItemClosed(s: Store, t: Store, p: string, onlyFailed: bool) {
    && t.items.Keys == s.items.Keys
    && forall pk | pk in s.items :: t.items[pk] == s.items[pk] ||
         (pk.0 == p && !Settled(s.items[pk]) && Terminal(t.items[pk]) && (onlyFailed ==> t.items[pk] == Failed))
  }

  lemma AbandonItems(s: Store, job: Slot)
    requires AbandonChild(s, job).Ok?
    ensures OneItemClosed(s, AbandonChild(s, job).value, s.jobs[job].config.linked.parent, true)
  {
  }

  lemma CloseItems(s: Store, p: string, k: string, st: ItemStatus)
    requires (p, k) in s.items && Terminal(st)
    ensures OneItemClosed(s, CloseItem(s, p, k, st).0, p, false)
    ensures st == Failed ==> OneItemClosed(s, CloseItem(s, p, k, st).0, p, true)
  {
  }

  lemma SubmissionKeepsItems(t: Store, p: string, now: bool, c: Command)
    requires SubmitWhenDone(t, p, now, c).Ok?
    ensures SubmitWhenDone(t, p, now, c).value.items == t.items
  {
  }

  lemma FinishWithItems(s: Store, p: string, k: string, st: ItemStatus, c: Command)
    requires FinishWith(s, p, k, st, c).Ok?
    ensures OneItemClosed(s, FinishWith(s, p, k, st, c).value, p, false)
    ensures st == Failed ==> OneItemClosed(s, FinishWith(s, p, k, st, c).value, p, true)
  {
    CloseItems(s, p, k, st);
    var (t, changed) := CloseItem(s, p, k, st);
    SubmissionKeepsItems(t, p, changed, c);
  }

  lemma FinishItems(s: Store, job: Slot, live: bool, readable: bool, st: ItemStatus)
    requires FinishChild(s, job, live, readable, st).Ok?
    requires s.jobs[job].config.DailyChild? ==> s.jobs[job].config.parent == s.jobs[job].config.linked.parent
    ensures OneItemClosed(s, FinishChild(s, job, live, readable, st).value, s.jobs[job].config.linked.parent, false)
    ensures s.jobs[job].config.BacktestChild? ==> readable
  {
    match s.jobs[job].config
    case BacktestChild(_, _, _, _, linked) => FinishWithItems(s, linked.parent, linked.itemKey, st, linked.completion);
    case DailyChild(parent, batch, _, symbol, _, _, _) =>
      FinishWithItems(s, parent, symbol, st, DailyFinalizeCommand(parent, batch));
  }

  lemma FailItems(s: Store, job: Slot, live: bool)
    requires FailChild(s, job, live).Ok?
    ensures OneItemClosed(s, FailChild(s, job, live).value, s.jobs[job].config.linked.parent, true)
  {
    var linked := s.jobs[job].config.linked;
    FinishWithItems(s, linked.parent, linked.itemKey, Failed, linked.completion);
  }

  lemma ChildOf(plans: Plans, s: Store, job: Slot)
    requires Inv(plans, s) && IsChild(s, job)
    ensures var p := job.scope.parent;
            && p in plans && job.scope == ItemScope(plans[p], p)
            && s.jobs[job].config.linked.parent == p
            && (s.jobs[job].config.DailyChild? ==> s.jobs[job].config.parent == p)
            && (plans[p].BacktestPlan? <==> s.jobs[job].config.BacktestChild?)
  {
    ChildIsLegit(plans, s, job);
  }

  lemma ChildStepItems(plans: Plans, s: Store, step: Step)
    requires Inv(plans, s) && !step.Coordinated? && Attempt(plans, s, step).Ok?
    ensures var p := step.job.scope.parent;
            && p in plans && step.job.scope == ItemScope(plans[p], p)
            && (plans[p].BacktestPlan? && step.Finished? ==> LinkReadable(s, step.job, step.frozen))
            && OneItemClosed(s, Attempt(plans, s, step).value, p, !step.Finished?)
  {
    ChildOf(plans, s, step.job);
    match step
    case Finished(job, live, frozen, st) => FinishItems(s, job, live, LinkReadable(s, job, frozen), st);
    case ChildFailed(job, live) => FailItems(s, job, live);
    case Abandoned(job) => AbandonItems(s, job);
  }

  lemma StepKeepsProgress(plans: Plans, s: Store, step: Step)
    requires Inv(plans, s)
    ensures ItemsProgress(s, Execute(plans, s, step))
  {
    if Attempt(plans, s, step).Ok? {
      if step.Coordinated? { CoordinateKeepsItems(plans, s, step.parent, step.newBatch); }
      else { ChildStepItems(plans, s, step); }
    }
  }

  lemma {:induction false} ItemsOnlyProgress(plans: Plans, s: Store, steps: seq<Step>)
    requires Inv(plans, s)
    ensures ItemsProgress(s, Run(plans, s, steps))
    decreases |steps|
  {
    if |steps| > 0 {
      var t := Execute(plans, s, steps[0]);
      StepKeepsInvariant(plans, s, steps[0]);
      StepKeepsProgress(plans, s, steps[0]);
      ItemsOnlyProgress(plans, t, steps[1..]);
    }
  }

  // ----- what a child reads of its link -----

  /** The configuration of a finalize command passes through JSON unchanged. */
  lemma FinalizeConfigIsJson(c: Config)
    requires c.BacktestFinalize? || c.DailyFinalize?
    ensures LinkedJob.IsJsonObject(JsonTree.Dict(false, ConfigEntries(c)))
  {
    var es := ConfigEntries(c);
    var through := LinkedJob.ThroughJson(JsonTree.Dict(false, es));
    assert forall i | 0 <= i < |es| :: LinkedJob.ThroughJson(es[i].1) == Some(es[i].1);
    assert through.value.entries == es;
  }

  lemma LinkComesLast(c: Config)
    requires c.BacktestChild? || c.DailyChild?
    ensures var es := ConfigEntries(c);
            && |es| > 0 && es[|es| - 1] == LinkedJob.LinkedItemField(LinkOf(c.linked))
            && forall i | 0 <= i < |es| - 1 :: es[i].0.text != "linked_item"
  {
    var es := ConfigEntries(c);
    assert forall i | 0 <= i < |es| - 1 :: |es[i].0.text| != 11 || es[i].0.text[0] != 'l';
  }

  lemma ConfigReadsLinkIffStored(c: Config, frozen: bool)
    requires c.BacktestChild? || c.DailyChild?
    requires LinkedJob.IsJsonObject(JsonTree.Dict(false, ConfigEntries(c.linked.completion.config)))
    requires 0 < c.linked.completion.softTimeout <= c.linked.completion.hardTimeout <= 86400
    ensures LinkedJob.LinkedJobItem(ConfigEntries(c)) == Ok(Some(LinkOf(c.linked)))
    ensures ReadsLink(c, frozen) <==> !frozen
  {
    var es, link := ConfigEntries(c), LinkOf(c.linked);
    LinkComesLast(c);
    var at := |es| - 1;
    assert es == es[..at] + [LinkedJob.LinkedItemField(link)] + [];
    LinkedJob.GetAbsent(es[..at], "linked_item");
    assert link.completion == SubmissionOf(c.linked.completion);
    LinkedJob.EmbeddedCommandRoundTrip(es[..at], link, []);
    LinkedJob.FrozenContextReadsIffUnlinked(es);
  }

  /** From its stored configuration every child of a reachable store reads back exactly its own link, the finalize
      command included; from a frozen execution context it reads none. */
  lemma ChildReadsLinkIffStored(plans: Plans, s: Store, job: Slot, frozen: bool)
    requires Inv(plans, s) && IsChild(s, job)
    ensures LinkedJob.LinkedJobItem(ConfigEntries(s.jobs[job].config)) == Ok(Some(LinkOf(s.jobs[job].config.linked)))
    ensures LinkReadable(s, job, frozen) <==> !frozen
  {
    ChildIsLegit(plans, s, job);
    FinalizeConfigIsJson(s.jobs[job].config.linked.completion.config);
    ConfigReadsLinkIffStored(s.jobs[job].config, frozen);
  }

  /** Every execution context holds its configuration frozen. */
  predicate ContextsFrozen(steps: seq<Step>) {
    forall i | 0 <= i < |steps| :: steps[i].Finished? ==> steps[i].frozen
  }

  ghost predicate BacktestItemsPendingOrFailed(plans: Plans, s: Store) {
    forall pk | pk in s.items && pk.0 in plans && plans[pk.0].BacktestPlan? :: s.items[pk] == Pending || s.items[pk] == Failed
  }

  /** With frozen contexts, as the code has them, the items of a bulk backtest are only ever pending or failed:
      no finishing child can read the link to its item. */
  lemma {:induction false} BacktestItemsNeverSucceed(plans: Plans, s: Store, steps: seq<Step>)
    requires Inv(plans, s) && ContextsFrozen(steps) && BacktestItemsPendingOrFailed(plans, s)
    ensures BacktestItemsPendingOrFailed(plans, Run(plans, s, steps))
    decreases |steps|
  {
    if |steps| > 0 {
      var t := Execute(plans, s, steps[0]);
      StepKeepsInvariant(plans, s, steps[0]);
      OneStepPendingOrFailed(plans, s, steps[0]);
      BacktestItemsNeverSucceed(plans, t, steps[1..]);
    }
  }

  lemma OneStepPendingOrFailed(plans: Plans, s: Store, step: Step)
    requires Inv(plans, s) && BacktestItemsPendingOrFailed(plans, s)
    requires step.Finished? ==> step.frozen
    ensures BacktestItemsPendingOrFailed(plans, Execute(plans, s, step))
  {
    if Attempt(plans, s, step).Ok? {
      if step.Coordinated? { FirstItemsPending(plans, s, step.parent, step.newBatch); }
      else { ChildStepPendingOrFailed(plans, s, step); }
    }
  }

  lemma ChildStepPendingOrFailed(plans: Plans, s: Store, step: Step)
    requires Inv(plans, s) && BacktestItemsPendingOrFailed(plans, s)
    requires !step.Coordinated? && Attempt(plans, s, step).Ok? && (step.Finished? ==> step.frozen)
    ensures BacktestItemsPendingOrFailed(plans, Attempt(plans, s, step).value)
  {
    ChildStepItems(plans, s, step);
    if step.Finished? { ChildReadsLinkIffStored(plans, s, step.job, true); }
  }

  lemma FirstItemsPending(plans: Plans, s: Store, p: string, newBatch: string)
    requires Inv(plans, s) && p in plans && Coordinate(s, plans[p], p, newBatch).Ok?
    ensures var t := Coordinate(s, plans[p], p, newBatch).value;
            forall pk | pk in t.items :: t.items[pk] == Pending || (pk in s.items && t.items[pk] == s.items[pk])
  {
    CoordinateKeepsInvariant(plans, s, p, newBatch);
    if Started(s, p) {
      CoordinatorRerunIsNoop(plans, s, p, newBatch);
    } else {
      var cs := ChildJobs(plans[p], p, BatchOf(s, plans[p], p, newBatch), plans[p].requested);
      forall job | job in cs ensures job !in s.jobs { NoJobsBeforeStart(plans, s, p, job); }
      CoordinateIs(s, plans[p], p, newBatch);
    }
  }

  // ----- a bulk backtest of one security -----

  const LONE_PLAN := BacktestPlan("t", 1, false, map["a" := Entry("s", false, None, None, false)], ["a"])

  const LONE_PLANS: Plans := map["p" := LONE_PLAN]

  const LONE_CHILD := ChildSlot(LONE_PLAN, "p", "a")

  const LONE_STORE := Store(map[LONE_CHILD := ChildCommand(LONE_PLAN, "p", "", "a")], map[("p", "a") := Pending], map[])

  lemma LoneCoordination()
    ensures Execute(LONE_PLANS, EMPTY, Coordinated("p", "")) == LONE_STORE && Inv(LONE_PLANS, LONE_STORE)
  {
    assert Inv(LONE_PLANS, EMPTY);
    StepKeepsInvariant(LONE_PLANS, EMPTY, Coordinated("p", ""));
    assert PlanValid(LONE_PLAN);
    assert ItemKeys(EMPTY, "p") == {};
    assert Members(["a"]) == {"a"};
    assert PendingItems("p", {"a"}) == map[("p", "a") := Pending];
    assert SubmitChildren(LONE_STORE, LONE_PLAN, "p", "", []) == Ok(LONE_STORE);
    assert LONE_PLAN.requested[1..] == [];
  }

  lemma LoneRun()
    ensures Run(LONE_PLANS, EMPTY, [Coordinated("p", "")]) == LONE_STORE && Inv(LONE_PLANS, LONE_STORE)
  {
    LoneCoordination();
    assert Run(LONE_PLANS, LONE_STORE, []) == LONE_STORE;
    assert [Coordinated("p", "")][1..] == [];
  }

  lemma LoneChildFinishes(frozen: bool)
    ensures var r := Attempt(LONE_PLANS, LONE_STORE, Finished(LONE_CHILD, true, frozen, Succeeded));
            if frozen then r == Err(LinkUnreadable) else r.Ok? && r.value.items == map[("p", "a") := Succeeded]
  {
    LoneCoordination();
    ChildReadsLinkIffStored(LONE_PLANS, LONE_STORE, LONE_CHILD, frozen);
    LoneFinish(Succeeded, BacktestFinalizeCommand("p", "t", 1));
  }

  lemma LoneChildFails()
    ensures var r := Attempt(LONE_PLANS, LONE_STORE, ChildFailed(LONE_CHILD, true));
            r.Ok? && r.value.items == map[("p", "a") := Failed]
  {
    LoneFinish(Failed, BacktestFinalizeCommand("p", "t", 1));
  }

  predicate ItemsBecome(s: Store, step: Step, st: ItemStatus) {
    Execute(LONE_PLANS, s, step).items == map[("p", "a") := st]
  }

  /** The run: the child finishes with success, is refused because its frozen context hides its link, and its item
      fails on the worker's path; with an unfrozen context the same finish would have closed it as succeeded. */
  lemma SucceededChildFails()
    ensures var s := Run(LONE_PLANS, EMPTY, [Coordinated("p", "")]);
            && Attempt(LONE_PLANS, s, Finished(LONE_CHILD, true, true, Succeeded)) == Err(LinkUnreadable)
            && ItemsBecome(s, ChildFailed(LONE_CHILD, true), Failed)
            && ItemsBecome(s, Finished(LONE_CHILD, true, false, Succeeded), Succeeded)
  {
    LoneRun();
    LoneChildFinishes(true);
    LoneChildFinishes(false);
    LoneChildFails();
  }

  lemma LoneFinish(st: ItemStatus, completion: Command)
    requires Terminal(st) && SlotOf(completion) != LONE_CHILD
    ensures var r := FinishWith(LONE_STORE, "p", "a", st, completion);
            r.Ok? && r.value.items == map[("p", "a") := st]
  {
    assert LONE_STORE.items[("p", "a") := st] == map[("p", "a") := st];
  }

  /** Distinct scopes have distinct strings, so keying jobs by scope is keying them by the stored text. */
  lemma RenderInjective(a: Scope, b: Scope)
    requires Render(a) == Render(b)
    ensures a == b
  {
    var s, t := Render(a), Render(b);
    if a.BacktestItem? || a.BacktestFinal? {
      assert s[0] == 'b' && (s[14] == 'i' <==> a.BacktestItem?);
    } else {
      assert s[0] == 'd' && (s[11] == 'i' <==> a.DailyItem?);
    }
    if b.BacktestItem? || b.BacktestFinal? {
      assert t[0] == 'b' && (t[14] == 'i' <==> b.BacktestItem?);
    } else {
      assert t[0] == 'd' && (t[11] == 'i' <==> b.DailyItem?);
    }
    var n := match a case BacktestItem(_) => 19 case BacktestFinal(_) => 23 case DailyItem(_) => 16 case DailyFinal(_) => 20;
    assert s[n..] == a.parent && t[n..] == b.parent;
  }
}
