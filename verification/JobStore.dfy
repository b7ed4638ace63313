/** Fan-out and fan-in of bulk jobs: a coordinator creates one item and one child job per symbol, children
    finish in any order, and whoever closes the last item submits the finalize job
    (backend/src/long_invest/bootstrap/backtest_jobs.py, backend/src/long_invest/bootstrap/jobs.py and the
    job service in backend/src/long_invest/platform/jobs/service.py). */
module JobStore {
  import opened Wrappers
  import opened KeyOrder
  import JsonTree
  import LinkedJob

  datatype ItemStatus = Pending | Fetching | Validating | Running | Saving | Succeeded | Failed | Skipped | Canceled

  predicate Terminal(st: ItemStatus) {
    st == Succeeded || st == Failed || st == Skipped || st == Canceled
  }

  /** The statuses finish and abandon never overwrite; a failed item may still be finished again. */
  predicate Settled(st: ItemStatus) {
    st == Succeeded || st == Skipped || st == Canceled
  }

  /** The idempotency scopes in use, and the strings that stand for them. */
  datatype Scope = BacktestItem(parent: string) | BacktestFinal(parent: string) | DailyItem(parent: string) | DailyFinal(parent: string)

  function Render(s: Scope): string {
    match s
    case BacktestItem(p) => "backtest-bulk-item:" + p
    case BacktestFinal(p) => "backtest-bulk-finalize:" + p
    case DailyItem(p) => "daily-data:item:" + p
    case DailyFinal(p) => "daily-data:finalize:" + p
  }

  datatype JobKey = SymbolKey(symbol: string) | GenerationKey(task: string, generation: int) | BatchKey(batch: string)

  /** A row of the job table is found by its scope and key. */
  datatype Slot = Slot(scope: Scope, key: JobKey)

  /** A job submission. Priority and creator keep their defaults in every command built here. */
  datatype Command = Command(
    jobType: string, queue: string, scope: Scope, key: JobKey, requestId: string, config: Config,
    objectType: string, objectId: string, softTimeout: int, hardTimeout: int)

  datatype Config =
    | BacktestChild(task: string, security: string, generation: int, recover: bool, linked: Linked)
    | BacktestFinalize(parent: string, task: string, generation: int)
    | DailyChild(parent: string, batch: string, date: int, symbol: string, entry: Entry, action: bool, linked: Linked)
    | DailyFinalize(parent: string, batch: string)

  datatype Linked = Linked(parent: string, itemKey: string, completion: Command)

  /** A security of the frozen universe with the facts copied into its child's configuration. */
  datatype Entry = Entry(security: string, suspended: bool, listedOn: Option<int>, delistedOn: Option<int>, isSt: bool)

  /** The immutable configuration of a parent job. `requested` is the configured list of symbols, or the
      whole universe when none is configured. */
  datatype Plan =
    | BacktestPlan(task: string, generation: int, recover: bool, universe: map<string, Entry>, requested: seq<string>)
    | DailyPlan(date: int, actions: seq<string>, universe: map<string, Entry>, requested: seq<string>)

  type Plans = map<string, Plan>

  datatype Store = Store(jobs: map<Slot, Command>, items: map<(string, string), ItemStatus>, batches: map<string, string>)

  datatype JobError = ScopeInvalid | ScopeConflict | KeyReused | FenceRejected | StatusInvalid | ItemNotFound | NotAChild | LinkUnreadable

  // ----- builders -----

  function FinalizeCommand(plan: Plan, parent: string, batch: string): Command {
    match plan
    case BacktestPlan(task, generation, _, _, _) => BacktestFinalizeCommand(parent, task, generation)
    case DailyPlan(_, _, _, _) => DailyFinalizeCommand(parent, batch)
  }

  /** `_finalize_job`. */
  function BacktestFinalizeCommand(parent: string, task: string, generation: int): Command {
    Command("BACKTEST_BULK_FINALIZE", "bulk-backtest", BacktestFinal(parent), GenerationKey(task, generation),
            parent, BacktestFinalize(parent, task, generation), "backtest_task", task, 60, 120)
  }

  /** `_daily_finalize_job`. */
  function DailyFinalizeCommand(parent: string, batch: string): Command {
    Command("DAILY_DATA_FINALIZE", "daily-market-data", DailyFinal(parent), BatchKey(batch),
            parent, DailyFinalize(parent, batch), "daily_data_batch", batch, 300, 600)
  }

  function ChildCommand(plan: Plan, parent: string, batch: string, symbol: string): Command
    requires symbol in plan.universe
  {
    var entry := plan.universe[symbol];
    var linked := Linked(parent, symbol, FinalizeCommand(plan, parent, batch));
    match plan
    case BacktestPlan(task, generation, recover, _, _) =>
      Command("BACKTEST_SINGLE", "bulk-backtest", BacktestItem(parent), SymbolKey(symbol), parent,
              BacktestChild(task, entry.security, generation, recover, linked),
              "backtest_item", entry.security, 600, 660)
    case DailyPlan(date, actions, _, _) =>
      Command("DAILY_DATA_ITEM", "daily-market-data", DailyItem(parent), SymbolKey(symbol), parent,
              DailyChild(parent, batch, date, symbol, entry, symbol in actions, linked),
              "daily_data_batch", batch, 240, 300)
  }

  function ItemScope(plan: Plan, parent: string): Scope {
    if plan.BacktestPlan? then BacktestItem(parent) else DailyItem(parent)
  }

  function FinalScope(plan: Plan, parent: string): Scope {
    if plan.BacktestPlan? then BacktestFinal(parent) else DailyFinal(parent)
  }

  function SlotOf(c: Command): Slot {
    Slot(c.scope, c.key)
  }

  function ChildSlot(plan: Plan, parent: string, symbol: string): Slot {
    Slot(ItemScope(plan, parent), SymbolKey(symbol))
  }

  // ----- a child's configuration as JSON -----

  /** UUIDs are opaque texts; a derived item id is the text of what it is derived from, and a date the text of
      its day number. */
  function Str(s: string): JsonTree.Tree {
    JsonTree.Leaf(JsonTree.StrAtom(s))
  }

  function Flag(b: bool): JsonTree.Tree {
    JsonTree.Leaf(JsonTree.BoolAtom(b))
  }

  function Number(i: int): JsonTree.Tree {
    JsonTree.Leaf(JsonTree.IntAtom(i))
  }

  function Digits(n: nat): string {
    (if n < 10 then "" else Digits(n / 10)) + ["0123456789"[n % 10]]
  }

  function Decimal(i: int): string {
    if i < 0 then "-" + Digits(-i) else Digits(i)
  }

  function DayText(day: Option<int>): JsonTree.Tree {
    match day case Some(d) => Str(Decimal(d)) case None => LinkedJob.NONE
  }

  function KeyText(k: JobKey): string {
    match k
    case SymbolKey(symbol) => symbol
    case GenerationKey(task, generation) => task + ":" + Decimal(generation)
    case BatchKey(batch) => batch
  }

  function ConfigEntries(c: Config): LinkedJob.Entries {
    match c
    case BacktestChild(task, security, generation, recover, linked) => [
      LinkedJob.Field("backtest_task_id", Str(task)), LinkedJob.Field("backtest_item_id", Str(task + ":item:" + security)),
      LinkedJob.Field("generation", Number(generation)), LinkedJob.Field("recover", Flag(recover)),
      LinkedJob.LinkedItemField(LinkOf(linked))]
    case BacktestFinalize(parent, task, generation) => [
      LinkedJob.Field("parent_job_id", Str(parent)), LinkedJob.Field("backtest_task_id", Str(task)),
      LinkedJob.Field("generation", Number(generation))]
    case DailyChild(parent, batch, date, symbol, entry, action, linked) => [
      LinkedJob.Field("parent_job_id", Str(parent)), LinkedJob.Field("batch_id", Str(batch)),
      LinkedJob.Field("trading_date", Str(Decimal(date))), LinkedJob.Field("security_id", Str(entry.security)),
      LinkedJob.Field("symbol", Str(symbol)), LinkedJob.Field("is_suspended", Flag(entry.suspended)),
      LinkedJob.Field("listed_on", DayText(entry.listedOn)), LinkedJob.Field("delisted_on", DayText(entry.delistedOn)),
      LinkedJob.Field("is_st", Flag(entry.isSt)), LinkedJob.Field("has_known_corporate_action", Flag(action)),
      LinkedJob.LinkedItemField(LinkOf(linked))]
    case DailyFinalize(parent, batch) => [
      LinkedJob.Field("parent_job_id", Str(parent)), LinkedJob.Field("linked_parent_job_id", Str(parent)),
      LinkedJob.Field("batch_id", Str(batch))]
  }

  function LinkOf(linked: Linked): LinkedJob.Link {
    LinkedJob.Link(Str(linked.parent), Str(linked.itemKey), SubmissionOf(linked.completion))
  }

  function SubmissionOf(c: Command): LinkedJob.Submission {
    LinkedJob.Submission(
      Str(c.jobType), Str(c.queue), Str(Render(c.scope)), Str(KeyText(c.key)), Str(c.requestId),
      JsonTree.Dict(false, ConfigEntries(c.config)), Number(0), Str(c.objectType), Str(c.objectId), LinkedJob.NONE,
      c.softTimeout, c.hardTimeout)
  }

  /** Whether `linked_job_item` returns a link from the configuration, stored or frozen into a context. */
  predicate ReadsLink(c: Config, frozen: bool) {
    var stored := ConfigEntries(c);
    var config := if frozen then LinkedJob.FreezeContext(JsonTree.Dict(false, stored)).entries else stored;
    LinkedJob.LinkedJobItem(config).Ok? && LinkedJob.LinkedJobItem(config).value.Some?
  }

  predicate LinkReadable(s: Store, job: Slot, frozen: bool) {
    job in s.jobs && ReadsLink(s.jobs[job].config, frozen)
  }

  // ----- the job service -----

  /** What the request hash covers. */
  function Content(c: Command): (string, string, Config, string, string, int, int) {
    (c.jobType, c.queue, c.config, c.objectType, c.objectId, c.softTimeout, c.hardTimeout)
  }

  /** `submit`: a replay of the same content is accepted silently, other content under the key raises. */
  function Submit(s: Store, c: Command): Result<Store, JobError> {
    if SlotOf(c) in s.jobs then
      if Content(s.jobs[SlotOf(c)]) == Content(c) then Ok(s) else Err(KeyReused)
    else Ok(s.(jobs := s.jobs[SlotOf(c) := c]))
  }

  function ItemKeys(s: Store, parent: string): set<string> {
    set pk | pk in s.items && pk.0 == parent :: pk.1
  }

  function ClosedKeys(s: Store, parent: string): set<string> {
    set pk | pk in s.items && pk.0 == parent && Terminal(s.items[pk]) :: pk.1
  }

  function PendingItems(parent: string, keys: set<string>): map<(string, string), ItemStatus> {
    map k | k in keys :: (parent, k) := Pending
  }

  /** `initialize_items`. */
  function InitializeItems(s: Store, parent: string, keys: seq<string>): Result<Store, JobError> {
    if |keys| == 0 || !Distinct(keys) then Err(ScopeInvalid)
    else if ItemKeys(s, parent) != {} && ItemKeys(s, parent) != Members(keys) then Err(ScopeConflict)
    else
      Ok(s.(items := s.items + PendingItems(parent, Members(keys) - ItemKeys(s, parent))))
  }

  /** The row update shared by `finish_item` and `abandon_item`, and whether it changed the row. */
  function CloseItem(s: Store, parent: string, key: string, st: ItemStatus): (Store, bool)
    requires (parent, key) in s.items
  {
    if Settled(s.items[(parent, key)]) then (s, false)
    else (s.(items := s.items[(parent, key) := st]), true)
  }

  /** `completed == total`, counted over the parent's items, with at least one item. */
  predicate AllTerminal(s: Store, parent: string) {
    |ItemKeys(s, parent)| > 0 && |ClosedKeys(s, parent)| == |ItemKeys(s, parent)|
  }

  /** Submit `c` if `now` and the parent's items are all terminal. */
  function SubmitWhenDone(t: Store, p: string, now: bool, c: Command): Result<Store, JobError> {
    if now && AllTerminal(t, p) then Submit(t, c) else Ok(t)
  }

  // ----- transactions; an error rolls back -----

  predicate PlanValid(plan: Plan) {
    && |plan.requested| > 0 && Distinct(plan.requested)
    && (forall k | k in plan.requested :: k in plan.universe)
    && (plan.DailyPlan? ==> Distinct(plan.actions) && forall k | k in plan.actions :: k in plan.requested)
  }

  function SubmitChildren(s: Store, plan: Plan, parent: string, batch: string, symbols: seq<string>): Result<Store, JobError>
    requires forall k | k in symbols :: k in plan.universe
    decreases |symbols|
  {
    if |symbols| == 0 then Ok(s)
    else
      match Submit(s, ChildCommand(plan, parent, batch, symbols[0]))
      case Err(e) => Err(e)
      case Ok(t) => SubmitChildren(t, plan, parent, batch, symbols[1..])
  }

  /** Batch creation is idempotent on the parent: the first batch id stays. */
  function BatchOf(s: Store, plan: Plan, parent: string, newBatch: string): string {
    if plan.BacktestPlan? then "" else if parent in s.batches then s.batches[parent] else newBatch
  }

  /** `backtest_bulk_coordinate` and `_daily_coordinate`. */
  function Coordinate(s: Store, plan: Plan, parent: string, newBatch: string): Result<Store, JobError> {
    if !PlanValid(plan) then Err(ScopeInvalid)
    else
      var batch := BatchOf(s, plan, parent, newBatch);
      var s0 := if plan.BacktestPlan? then s else s.(batches := s.batches[parent := batch]);
      match InitializeItems(s0, parent, plan.requested)
      case Err(e) => Err(e)
      case Ok(s1) => SubmitChildren(s1, plan, parent, batch, plan.requested)
  }

  /** A child closes its item with a terminal status and submits `completion` when it closed the last one. */
  function FinishWith(s: Store, parent: string, key: string, st: ItemStatus, completion: Command): Result<Store, JobError> {
    if !Terminal(st) then Err(StatusInvalid)
    else if (parent, key) !in s.items then Err(ItemNotFound)
    else
      var (t, changed) := CloseItem(s, parent, key, st);
      SubmitWhenDone(t, parent, changed, completion)
  }

  /** `daily_data_item` rebuilds the finalize command from its own configuration; a backtest child
      (`finish_linked_backtest_item`) uses the command embedded in its linked item, if its context lets it
      read that (`readable`). `live` is whether the child's execution token is current. */
  function FinishChild(s: Store, job: Slot, live: bool, readable: bool, st: ItemStatus): Result<Store, JobError> {
    if job !in s.jobs then Err(NotAChild)
    else
      match s.jobs[job].config
      case BacktestChild(_, _, _, _, linked) =>
        if !readable then Err(LinkUnreadable)
        else if !live then Err(FenceRejected)
        else FinishWith(s, linked.parent, linked.itemKey, st, linked.completion)
      case DailyChild(parent, batch, _, symbol, _, _, _) =>
        if !live then Err(FenceRejected)
        else FinishWith(s, parent, symbol, st, DailyFinalizeCommand(parent, batch))
      case _ => Err(NotAChild)
  }

  /** The worker's path for a child whose handler failed: always the embedded command. */
  function FailChild(s: Store, job: Slot, live: bool): Result<Store, JobError> {
    if job !in s.jobs then Err(NotAChild)
    else if !live then Err(FenceRejected)
    else
      match s.jobs[job].config
      case BacktestChild(_, _, _, _, linked) => FinishWith(s, linked.parent, linked.itemKey, Failed, linked.completion)
      case DailyChild(_, _, _, _, _, _, linked) => FinishWith(s, linked.parent, linked.itemKey, Failed, linked.completion)
      case _ => Err(NotAChild)
  }

  /** The watchdog's path for a child lost twice: submits even when the item was already settled. */
  function AbandonChild(s: Store, job: Slot): Result<Store, JobError> {
    if job !in s.jobs then Err(NotAChild)
    else
      var config := s.jobs[job].config;
      if !config.BacktestChild? && !config.DailyChild? then Err(NotAChild)
      else
        var linked := config.linked;
        if (linked.parent, linked.itemKey) !in s.items then Err(ItemNotFound)
        else
          var (t, _) := CloseItem(s, linked.parent, linked.itemKey, Failed);
          SubmitWhenDone(t, linked.parent, true, linked.completion)
  }

  /** `frozen` says that the handler's context holds its configuration read-only, as every execution context
      of the worker does. */
  datatype Step =
    | Coordinated(parent: string, newBatch: string)
    | Finished(job: Slot, live: bool, frozen: bool, status: ItemStatus)
    | ChildFailed(job: Slot, live: bool)
    | Abandoned(job: Slot)

  function Attempt(plans: Plans, s: Store, step: Step): Result<Store, JobError> {
    match step
    case Coordinated(p, newBatch) => if p in plans then Coordinate(s, plans[p], p, newBatch) else Err(ScopeInvalid)
    case Finished(job, live, frozen, st) => FinishChild(s, job, live, LinkReadable(s, job, frozen), st)
    case ChildFailed(job, live) => FailChild(s, job, live)
    case Abandoned(job) => AbandonChild(s, job)
  }

  function Execute(plans: Plans, s: Store, step: Step): Store {
    match Attempt(plans, s, step) case Ok(t) => t case Err(_) => s
  }

  function Run(plans: Plans, s: Store, steps: seq<Step>): Store
    decreases |steps|
  {
    if |steps| == 0 then s else Run(plans, Execute(plans, s, steps[0]), steps[1..])
  }

  const EMPTY := Store(map[], map[], map[])
}
