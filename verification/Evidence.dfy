/** Validation evidence: the executor that builds the four checks and the verifier that re-derives them,
    backend/src/long_invest/bootstrap/strategy_validation.py. Hashes, UUID derivation and text forms are
    functions about which nothing is known but that a UUID reads back from its own text. */
module Evidence {
  import opened Wrappers
  import opened TrainingRows

  // ----- JSON values as Python compares them -----

  /** The keys that occur in evidence, and any other key. */
  datatype Name =
    | StaticAnalysis | FixedSample | SpecifiedStock | HoldoutBacktest
    | RunId | TaskId | SnapshotId | Status
    | SourceCodeHash | MetadataHash | ParameterSchemaHash | ParameterHash | EnvironmentHash | RunnerImageDigest
    | TrainingStart | TrainingEnd | TrainingDataHash | SecurityId | TestStart | TestEnd | TestDataHash
    | Other(text: string)

  datatype Json =
    | Null
    | Bool(b: bool)
    | Int(i: int)
    | Float(x: real)
    | Text(s: string)
    | List(items: seq<Json>)
    | Object(fields: map<Name, Json>)

  function Number(j: Json): Option<real> {
    match j
    case Bool(b) => Some(if b then 1.0 else 0.0)
    case Int(i) => Some(i as real)
    case Float(x) => Some(x)
    case _ => None
  }

  /** `==`: dictionaries by content, numbers by value across int, float and bool. */
  predicate Equal(a: Json, b: Json) {
    match (a, b)
    case (Object(fs), Object(gs)) => fs.Keys == gs.Keys && forall k | k in fs :: Equal(fs[k], gs[k])
    case (List(xs), List(ys)) => |xs| == |ys| && forall i | 0 <= i < |xs| :: Equal(xs[i], ys[i])
    case _ => a == b || (Number(a).Some? && Number(a) == Number(b))
  }

  function Get(j: Json, k: Name): Option<Json> {
    if j.Object? && k in j.fields then Some(j.fields[k]) else None
  }

  // ----- the records -----

  datatype Uuid = Uuid(value: nat)

  /** `hashJson` is the digest of the sorted-key rendering, which tells 1 from 1.0. */
  datatype World = World(
    hashJson: Json -> string, hashText: string -> string, derive: (Uuid, string) -> Uuid,
    show: Uuid -> string, parse: string -> Option<Uuid>, iso: int -> string)
  {
    ghost predicate Lawful() {
      forall u :: parse(show(u)) == Some(u)
    }
  }

  datatype Common = Common(
    sourceCodeHash: string, metadataHash: string, parameterSchemaHash: string, parameterHash: string,
    environmentHash: string, runnerImageDigest: string)

  datatype Facts = Facts(common: Common, metadata: Json, parameterSchema: Json, params: Json, environmentVersion: string)

  /** `facts` is None when a fact is missing from the stored snapshot. */
  datatype ValidationRun = ValidationRun(id: Uuid, draftVersion: int, sourceCodeHash: string, facts: Option<Facts>)

  datatype Draft = Draft(id: Uuid, draftVersion: int, sourceCode: string)

  datatype Analysis = Analysis(metadata: Json, parameterSchema: Json, minBars: int)

  datatype Task = Task(
    single: bool, draftId: Uuid, draftVersion: int, draftSourceCode: string, sourceCodeHash: string,
    strategyMetadata: Json, parameterSchema: Json, parameterSnapshot: Json, parameterHash: string,
    environmentVersion: string, runnerImageDigest: string,
    trainingStart: int, trainingEnd: int, testStart: int, testEnd: int, universe: seq<Uuid>)

  datatype Forecast = Forecast(
    sourceCodeHash: string, parameterHash: string, environmentVersion: string, runnerImageDigest: string,
    trainingStart: int, trainingEnd: int, trainingDataHash: string)

  datatype TestData = TestData(start: int, end: int, dataHash: string)

  datatype Backtest = Backtest(
    task: Task, itemSucceeded: bool, resultSucceeded: bool, itemId: Uuid,
    forecast: Option<Forecast>, test: Option<TestData>, hasMetric: bool)

  datatype Claim = Claim(runId: Uuid, draftVersion: int, common: Common, checks: Json)

  type Store = map<Uuid, Backtest>

  /** `_load_backtest` raises unless both items succeeded and nothing is missing. */
  predicate Complete(b: Backtest) {
    b.itemSucceeded && b.resultSucceeded && b.forecast.Some? && b.test.Some? && b.hasMetric
  }

  // ----- the fixed sample -----

  datatype Sample = Sample(start: int, end: int, contentHash: string)

  const FIXED_SAMPLE_LIMIT := 10_000
  /** 1990-01-01 as a day number. */
  const FIXED_START := 726468

  /** More bars than the limit are refused; fewer than one leave no last row to read the end date from. */
  predicate SampleBuilt(minBars: int) {
    0 < minBars <= FIXED_SAMPLE_LIMIT
  }

  function SampleRow(i: nat): (r: Bar)
    ensures r.tradeDate == FIXED_START + i && BarOk(r)
  {
    var close := 10.0 + i as real / 100.0;
    Bar(FIXED_START + i, close, close + 0.10, close - 0.10, close, 100000.0, close * 100000.0)
  }

  method FixedTrainingRows(minBars: int) returns (rows: Option<seq<Bar>>)
    ensures rows.Some? <==> 0 < minBars <= 10_000
    ensures rows.Some? ==> |rows.value| == minBars && forall i | 0 <= i < minBars :: var r := rows.value[i];
              && r.tradeDate == 726468 + i && r.close == 10.0 + i as real / 100.0 && r.open == r.close
              && r.high == r.close + 0.1 && r.low == r.close - 0.1 && r.volume == 100000.0 && r.amount == r.close * 100000.0
    ensures rows.Some? ==> RowsOk(rows.value, FIXED_START, FIXED_START + minBars - 1)
  {
    if minBars > FIXED_SAMPLE_LIMIT {
      return None;
    }
    var built: seq<Bar> := [];
    var index := 0;
    while index < minBars
      invariant 0 <= index <= if minBars < 0 then 0 else minBars
      invariant |built| == index
      invariant forall i | 0 <= i < index :: built[i] == SampleRow(i)
    {
      built := built + [SampleRow(index)];
      index := index + 1;
    }
    return if |built| == 0 then None else Some(built);
  }

  // ----- the executor -----

  function Four(a: Json, f: Json, s: Json, h: Json): (m: map<Name, Json>)
    ensures m.Keys == CHECK_NAMES
  {
    map[StaticAnalysis := a, FixedSample := f, SpecifiedStock := s, HoldoutBacktest := h]
  }

  const CHECK_NAMES := {StaticAnalysis, FixedSample, SpecifiedStock, HoldoutBacktest}
  const TRAINING_FIELDS := {TrainingStart, TrainingEnd, TrainingDataHash}
  const TEST_FIELDS := {TestStart, TestEnd, TestDataHash}

  function CommonCheck(w: World, run: Uuid, task: Uuid, snapshot: Uuid, c: Common): map<Name, Json> {
    map[
      RunId := Text(w.show(run)), TaskId := Text(w.show(task)), SnapshotId := Text(w.show(snapshot)),
      Status := Text("SUCCEEDED"),
      SourceCodeHash := Text(c.sourceCodeHash), MetadataHash := Text(c.metadataHash),
      ParameterSchemaHash := Text(c.parameterSchemaHash), ParameterHash := Text(c.parameterHash),
      EnvironmentHash := Text(c.environmentHash), RunnerImageDigest := Text(c.runnerImageDigest)]
  }

  function StaticCheck(w: World, run: Uuid, c: Common): map<Name, Json> {
    CommonCheck(w, run, w.derive(run, "static-analysis-task"), w.derive(run, "static-analysis-snapshot"), c)
  }

  function FixedCheck(w: World, run: Uuid, c: Common): map<Name, Json> {
    CommonCheck(w, run, w.derive(run, "fixed-sample-task"), w.derive(run, "fixed-sample-snapshot"), c)
  }

  function Training(w: World, start: int, end: int, hash: string): map<Name, Json> {
    map[TrainingStart := Text(w.iso(start)), TrainingEnd := Text(w.iso(end)), TrainingDataHash := Text(hash)]
  }

  predicate FactsHold(w: World, run: ValidationRun, f: Facts, draft: Draft, a: Analysis, b: Backtest)
    requires Complete(b)
  {
    var task, forecast, test := b.task, b.forecast.value, b.test.value;
    && draft.draftVersion == run.draftVersion && task.single && task.draftId == draft.id
    && task.draftVersion == run.draftVersion && task.draftSourceCode == draft.sourceCode
    && task.sourceCodeHash == run.sourceCodeHash
    && Equal(task.strategyMetadata, a.metadata) && Equal(task.parameterSchema, a.parameterSchema)
    && Equal(task.parameterSnapshot, f.params) && task.parameterHash == f.common.parameterHash
    && task.environmentVersion == f.environmentVersion && task.runnerImageDigest == f.common.runnerImageDigest
    && forecast.sourceCodeHash == run.sourceCodeHash && forecast.parameterHash == f.common.parameterHash
    && forecast.environmentVersion == f.environmentVersion && forecast.runnerImageDigest == f.common.runnerImageDigest
    && forecast.trainingStart == task.trainingStart && forecast.trainingEnd == task.trainingEnd
    && test.start == task.testStart && test.end == task.testEnd && forecast.trainingEnd < test.start
    && f.common.sourceCodeHash == run.sourceCodeHash
    && Equal(f.metadata, a.metadata) && f.common.metadataHash == w.hashJson(a.metadata)
    && Equal(f.parameterSchema, a.parameterSchema) && f.common.parameterSchemaHash == w.hashJson(a.parameterSchema)
    && f.common.parameterHash == w.hashJson(f.params) && f.common.environmentHash == w.hashText(f.environmentVersion)
  }

  function Security(w: World, b: Backtest): map<Name, Json>
    requires |b.task.universe| > 0
  {
    map[SecurityId := Text(w.show(b.task.universe[0]))]
  }

  function Testing(w: World, t: TestData): map<Name, Json> {
    map[TestStart := Text(w.iso(t.start)), TestEnd := Text(w.iso(t.end)), TestDataHash := Text(t.dataHash)]
  }

  function Checks(w: World, run: Uuid, task: Uuid, c: Common, fixed: Sample, b: Backtest): Json
    requires Complete(b) && |b.task.universe| > 0
  {
    var backtestCommon := CommonCheck(w, run, task, b.itemId, c);
    var f := b.forecast.value;
    var training := Training(w, f.trainingStart, f.trainingEnd, f.trainingDataHash);
    Object(Four(
      Object(StaticCheck(w, run, c)),
      Object(FixedCheck(w, run, c) + Training(w, fixed.start, fixed.end, fixed.contentHash)),
      Object(backtestCommon + training + Security(w, b)),
      Object(backtestCommon + training + Security(w, b) + Testing(w, b.test.value))))
  }

  /** `analysis` is None when the draft's source is refused; `forecastRuns` says whether the fixed-sample
      forecast comes back; `hashOf` is the content hash of the fixed sample of that many bars. A universe
      without a security makes reading its first one raise out of the executor. */
  datatype ExecuteError = FactsMismatch | FixedSampleFailed | NoSecurity

  function Execute(w: World, run: ValidationRun, draft: Draft, analysis: Option<Analysis>, store: Store, task: Uuid,
                   hashOf: int -> string, forecastRuns: bool): Result<Json, ExecuteError>
  {
    if analysis.None? || task !in store || !Complete(store[task]) || !SampleBuilt(analysis.value.minBars)
       || run.facts.None? || !FactsHold(w, run, run.facts.value, draft, analysis.value, store[task]) then Err(FactsMismatch)
    else if !forecastRuns then Err(FixedSampleFailed)
    else if |store[task].task.universe| == 0 then Err(NoSecurity)
    else
      var n := analysis.value.minBars;
      Ok(Checks(w, run.id, task, run.facts.value.common, Sample(FIXED_START, FIXED_START + n - 1, hashOf(n)), store[task]))
  }

  // ----- the verifier -----

  function TaskNamed(w: World, check: Json): Option<Uuid> {
    match Get(check, TaskId) case Some(Text(s)) => w.parse(s) case _ => None
  }

  predicate HeaderMatches(w: World, t: Task, claim: Claim) {
    && t.single && t.draftVersion == claim.draftVersion && t.sourceCodeHash == claim.common.sourceCodeHash
    && t.parameterHash == claim.common.parameterHash
    && w.hashJson(t.strategyMetadata) == claim.common.metadataHash
    && w.hashJson(t.parameterSchema) == claim.common.parameterSchemaHash
    && w.hashText(t.environmentVersion) == claim.common.environmentHash
    && t.runnerImageDigest == claim.common.runnerImageDigest
  }

  /** The verifier writes the facts of the holdout backtest out in one go. */
  function HoldoutFacts(w: World, b: Backtest): map<Name, Json>
    requires Complete(b) && |b.task.universe| > 0
  {
    var f, test := b.forecast.value, b.test.value;
    map[TrainingStart := Text(w.iso(f.trainingStart)), TrainingEnd := Text(w.iso(f.trainingEnd)),
        TrainingDataHash := Text(f.trainingDataHash), SecurityId := Text(w.show(b.task.universe[0])),
        TestStart := Text(w.iso(test.start)), TestEnd := Text(w.iso(test.end)), TestDataHash := Text(test.dataHash)]
  }

  function ExpectedHoldout(w: World, claim: Claim, task: Uuid, b: Backtest): map<Name, Json>
    requires Complete(b) && |b.task.universe| > 0
  {
    CommonCheck(w, claim.runId, task, b.itemId, claim.common) + HoldoutFacts(w, b)
  }

  /** Anything the verifier cannot read raises inside it and counts as a refusal. */
  predicate Verify(w: World, store: Store, claim: Claim) {
    var analysis, fixed := Get(claim.checks, StaticAnalysis), Get(claim.checks, FixedSample);
    var specified, holdout := Get(claim.checks, SpecifiedStock), Get(claim.checks, HoldoutBacktest);
    if analysis.None? || fixed.None? || specified.None? || holdout.None? || !fixed.value.Object? then false
    else
      var task := TaskNamed(w, holdout.value);
      if task.None? || task.value !in store || !Complete(store[task.value]) || TaskNamed(w, specified.value) != task
         || |store[task.value].task.universe| == 0 then false
      else
        var b := store[task.value];
        var expected := ExpectedHoldout(w, claim, task.value, b);
        var run := claim.runId;
        && HeaderMatches(w, b.task, claim)
        && Equal(analysis.value, Object(StaticCheck(w, run, claim.common)))
        && Equal(Object(fixed.value.fields - TRAINING_FIELDS),
                 Object(FixedCheck(w, run, claim.common)))
        && Equal(holdout.value, Object(expected))
        && Equal(specified.value, Object(expected - TEST_FIELDS))
  }

  /** The claim that publishing makes of a run and its evidence
      (backend/src/long_invest/modules/strategies/application.py). */
  function ClaimOf(run: ValidationRun, checks: Json): Claim
    requires run.facts.Some?
  {
    Claim(run.id, run.draftVersion, run.facts.value.common.(sourceCodeHash := run.sourceCodeHash), checks)
  }

  // ----- what a claim says beyond the three fixed-sample training fields -----

  function Blotted(name: Name, check: Json): Json {
    if name == FixedSample && check.Object? then Object(check.fields - TRAINING_FIELDS) else check
  }

  /** The four checks, with the training fields of the fixed sample blotted out. */
  function Essential(checks: Json): map<Name, Json> {
    if !checks.Object? then map[] else map k | k in checks.fields && k in CHECK_NAMES :: Blotted(k, checks.fields[k])
  }

  /** Equality with a value that holds only text is identity. */
  lemma EqualToTexts(j: Json, m: map<Name, Json>)
    requires forall k | k in m :: m[k].Text?
    ensures Equal(j, Object(m)) <==> j == Object(m)
  {
    if Equal(j, Object(m)) {
      forall k | k in m ensures j.fields[k] == m[k] {
        assert Equal(j.fields[k], m[k]);
      }
      assert j.fields == m;
    }
  }

  lemma FixedWithoutTraining(w: World, run: Uuid, c: Common, fixed: Sample)
    ensures (FixedCheck(w, run, c) + Training(w, fixed.start, fixed.end, fixed.contentHash)) - TRAINING_FIELDS == FixedCheck(w, run, c)
  {
  }

  lemma HoldoutFactsGrouped(w: World, b: Backtest)
    requires Complete(b) && |b.task.universe| > 0
    ensures var f := b.forecast.value;
            HoldoutFacts(w, b) == Training(w, f.trainingStart, f.trainingEnd, f.trainingDataHash)
                                  + Security(w, b) + Testing(w, b.test.value)
  {
  }

  lemma Regrouped(c: map<Name, Json>, tr: map<Name, Json>, se: map<Name, Json>, te: map<Name, Json>)
    requires te.Keys == TEST_FIELDS && TEST_FIELDS !! c.Keys && TEST_FIELDS !! tr.Keys && TEST_FIELDS !! se.Keys
    ensures (c + (tr + se + te)) - TEST_FIELDS == c + tr + se
    ensures c + tr + se + te == c + (tr + se + te)
  {
  }

  lemma HoldoutSplits(c: map<Name, Json>, w: World, b: Backtest)
    requires Complete(b) && |b.task.universe| > 0 && TEST_FIELDS !! c.Keys
    ensures var f := b.forecast.value;
            var tr := Training(w, f.trainingStart, f.trainingEnd, f.trainingDataHash);
            && (c + HoldoutFacts(w, b)) - TEST_FIELDS == c + tr + Security(w, b)
            && c + tr + Security(w, b) + Testing(w, b.test.value) == c + HoldoutFacts(w, b)
  {
    var f := b.forecast.value;
    HoldoutFactsGrouped(w, b);
    Regrouped(c, Training(w, f.trainingStart, f.trainingEnd, f.trainingDataHash), Security(w, b), Testing(w, b.test.value));
  }

  lemma CommonHasNoTest(w: World, run: Uuid, task: Uuid, snapshot: Uuid, c: Common)
    ensures TEST_FIELDS !! CommonCheck(w, run, task, snapshot, c).Keys
  {
  }

  lemma ChecksOfBacktest(w: World, claim: Claim, task: Uuid, b: Backtest, fixed: Sample)
    requires Complete(b) && |b.task.universe| > 0
    ensures Get(Checks(w, claim.runId, task, claim.common, fixed, b), HoldoutBacktest)
            == Some(Object(ExpectedHoldout(w, claim, task, b)))
    ensures Get(Checks(w, claim.runId, task, claim.common, fixed, b), SpecifiedStock)
            == Some(Object(ExpectedHoldout(w, claim, task, b) - TEST_FIELDS))
  {
    CommonHasNoTest(w, claim.runId, task, b.itemId, claim.common);
    HoldoutSplits(CommonCheck(w, claim.runId, task, b.itemId, claim.common), w, b);
  }

  predicate AllText(m: map<Name, Json>) {
    forall k | k in m :: m[k].Text?
  }

  lemma CommonIsText(w: World, run: Uuid, task: Uuid, snapshot: Uuid, c: Common)
    ensures var m := CommonCheck(w, run, task, snapshot, c); AllText(m) && TaskId in m && m[TaskId] == Text(w.show(task))
  {
  }

  lemma JoinedTexts(c: map<Name, Json>, m: map<Name, Json>)
    requires AllText(c) && AllText(m) && TaskId in c && TaskId !in m
    ensures AllText(c + m) && TaskId in c + m && (c + m)[TaskId] == c[TaskId]
    ensures AllText((c + m) - TEST_FIELDS) && TaskId in (c + m) - TEST_FIELDS
    ensures ((c + m) - TEST_FIELDS)[TaskId] == c[TaskId]
  {
  }

  lemma ExpectedIsText(w: World, claim: Claim, task: Uuid, b: Backtest)
    requires w.Lawful() && Complete(b) && |b.task.universe| > 0
    ensures AllText(ExpectedHoldout(w, claim, task, b)) && AllText(ExpectedHoldout(w, claim, task, b) - TEST_FIELDS)
    ensures TaskNamed(w, Object(ExpectedHoldout(w, claim, task, b))) == Some(task)
    ensures TaskNamed(w, Object(ExpectedHoldout(w, claim, task, b) - TEST_FIELDS)) == Some(task)
  {
    CommonIsText(w, claim.runId, task, b.itemId, claim.common);
    assert AllText(HoldoutFacts(w, b)) && TaskId !in HoldoutFacts(w, b);
    JoinedTexts(CommonCheck(w, claim.runId, task, b.itemId, claim.common), HoldoutFacts(w, b));
  }

  /** What the verifier requires of the four checks, once it knows the backtest. */
  function Expected(w: World, claim: Claim, task: Uuid, b: Backtest): map<Name, Json>
    requires Complete(b) && |b.task.universe| > 0
  {
    var run := claim.runId;
    Four(
      Object(StaticCheck(w, run, claim.common)),
      Object(FixedCheck(w, run, claim.common)),
      Object(ExpectedHoldout(w, claim, task, b) - TEST_FIELDS),
      Object(ExpectedHoldout(w, claim, task, b)))
  }

  lemma EssentialIsFour(checks: Json)
    ensures
      if checks.Object? && CHECK_NAMES <= checks.fields.Keys then
        var c := checks.fields;
        Essential(checks) == Four(c[StaticAnalysis], Blotted(FixedSample, c[FixedSample]), c[SpecifiedStock], c[HoldoutBacktest])
      else Essential(checks).Keys != CHECK_NAMES
  {
    assert checks.Object? ==> Essential(checks).Keys == checks.fields.Keys * CHECK_NAMES;
    if !checks.Object? { assert Essential(checks).Keys == {} && StaticAnalysis in CHECK_NAMES; }
  }

  lemma EssentialOfFour(a: Json, f: Json, s: Json, h: Json)
    ensures Essential(Object(Four(a, f, s, h))) == Four(a, Blotted(FixedSample, f), s, h)
  {
    EssentialIsFour(Object(Four(a, f, s, h)));
  }

  lemma FourInjective(a: Json, f: Json, s: Json, h: Json, a': Json, f': Json, s': Json, h': Json)
    requires Four(a, f, s, h) == Four(a', f', s', h')
    ensures a == a' && f == f' && s == s' && h == h'
  {
    var m := Four(a', f', s', h');
    assert m[StaticAnalysis] == a' && m[FixedSample] == f' && m[SpecifiedStock] == s' && m[HoldoutBacktest] == h';
  }

  lemma ExecutorMeetsExpected(w: World, claim: Claim, task: Uuid, b: Backtest, fixed: Sample)
    requires Complete(b) && |b.task.universe| > 0
    ensures Essential(Checks(w, claim.runId, task, claim.common, fixed, b)) == Expected(w, claim, task, b)
  {
    var run, c, f := claim.runId, claim.common, b.forecast.value;
    var m := CommonCheck(w, run, task, b.itemId, c);
    CommonHasNoTest(w, run, task, b.itemId, c);
    HoldoutSplits(m, w, b);
    FixedWithoutTraining(w, run, c, fixed);
    var tr := Training(w, f.trainingStart, f.trainingEnd, f.trainingDataHash);
    EssentialOfFour(
      Object(StaticCheck(w, run, c)),
      Object(FixedCheck(w, run, c) + Training(w, fixed.start, fixed.end, fixed.contentHash)),
      Object(m + tr + Security(w, b)), Object(m + tr + Security(w, b) + Testing(w, b.test.value)));
  }

  /** The verifier's four comparisons, and its reads before them, are one comparison of the essential checks. */
  lemma ComparisonsAreOne(checks: Json, a: map<Name, Json>, f: map<Name, Json>, s: map<Name, Json>, h: map<Name, Json>)
    requires AllText(a) && AllText(f) && AllText(s) && AllText(h)
    ensures Essential(checks) == Four(Object(a), Object(f), Object(s), Object(h)) <==>
            && Get(checks, StaticAnalysis).Some? && Get(checks, FixedSample).Some?
            && Get(checks, SpecifiedStock).Some? && Get(checks, HoldoutBacktest).Some?
            && Get(checks, FixedSample).value.Object?
            && Equal(Get(checks, StaticAnalysis).value, Object(a))
            && Equal(Object(Get(checks, FixedSample).value.fields - TRAINING_FIELDS), Object(f))
            && Equal(Get(checks, SpecifiedStock).value, Object(s))
            && Equal(Get(checks, HoldoutBacktest).value, Object(h))
  {
    EqualsText(a);
    EqualsText(f);
    EqualsText(s);
    EqualsText(h);
    EssentialIsFour(checks);
    if Essential(checks) == Four(Object(a), Object(f), Object(s), Object(h)) {
      var c := checks.fields;
      FourInjective(c[StaticAnalysis], Blotted(FixedSample, c[FixedSample]), c[SpecifiedStock], c[HoldoutBacktest],
        Object(a), Object(f), Object(s), Object(h));
    }
  }

  lemma EqualsText(m: map<Name, Json>)
    requires AllText(m)
    ensures forall j: Json :: Equal(j, Object(m)) <==> j == Object(m)
  {
    forall j: Json ensures Equal(j, Object(m)) <==> j == Object(m) { EqualToTexts(j, m); }
  }

  predicate Known(store: Store, task: Uuid) {
    task in store && Complete(store[task]) && |store[task].task.universe| > 0
  }

  /** The backtest the claim's holdout check names, when the verifier can load it. */
  predicate Names(w: World, claim: Claim, task: Uuid) {
    var holdout := Get(claim.checks, HoldoutBacktest);
    holdout.Some? && TaskNamed(w, holdout.value) == Some(task)
  }

  lemma VerifyOfExpected(w: World, store: Store, claim: Claim, task: Uuid)
    requires w.Lawful() && Known(store, task) && Names(w, claim, task)
    ensures Verify(w, store, claim) <==>
            HeaderMatches(w, store[task].task, claim) && Essential(claim.checks) == Expected(w, claim, task, store[task])
  {
    var b, run := store[task], claim.runId;
    var h := ExpectedHoldout(w, claim, task, b);
    ExpectedIsText(w, claim, task, b);
    CommonIsText(w, run, w.derive(run, "static-analysis-task"), w.derive(run, "static-analysis-snapshot"), claim.common);
    CommonIsText(w, run, w.derive(run, "fixed-sample-task"), w.derive(run, "fixed-sample-snapshot"), claim.common);
    ComparisonsAreOne(claim.checks, StaticCheck(w, run, claim.common), FixedCheck(w, run, claim.common), h - TEST_FIELDS, h);
    EqualsText(h - TEST_FIELDS);
  }

  /** The verifier accepts a claim exactly when its header is that of a completed backtest and its checks are
      the ones the executor would build from that backtest, whatever the fixed sample: only the three training
      fields of the fixed sample, and checks under other names, are left open. */
  lemma VerifierAgreesWithExecutor(w: World, store: Store, claim: Claim, fixed: Sample)
    requires w.Lawful()
    ensures Verify(w, store, claim) <==>
            exists task ::
              && Known(store, task) && HeaderMatches(w, store[task].task, claim)
              && Essential(claim.checks) == Essential(Checks(w, claim.runId, task, claim.common, fixed, store[task]))
  {
    if Verify(w, store, claim) {
      var task := TaskNamed(w, Get(claim.checks, HoldoutBacktest).value).value;
      VerifyOfExpected(w, store, claim, task);
      ExecutorMeetsExpected(w, claim, task, store[task], fixed);
    }
    forall task | Known(store, task) && HeaderMatches(w, store[task].task, claim)
        && Essential(claim.checks) == Essential(Checks(w, claim.runId, task, claim.common, fixed, store[task]))
      ensures Verify(w, store, claim)
    {
      ExecutorMeetsExpected(w, claim, task, store[task], fixed);
      assert HoldoutBacktest in Essential(claim.checks);
      ExpectedIsText(w, claim, task, store[task]);
      VerifyOfExpected(w, store, claim, task);
    }
  }

  /** Everything in an accepted claim but those three fields follows from the run and the backtest it names. */
  lemma AcceptedClaimsAgree(w: World, store: Store, a: Claim, b: Claim, task: Uuid)
    requires w.Lawful() && Verify(w, store, a) && Verify(w, store, b)
    requires a.runId == b.runId && Names(w, a, task) && Names(w, b, task)
    ensures a.draftVersion == b.draftVersion && a.common == b.common && Essential(a.checks) == Essential(b.checks)
  {
    VerifyOfExpected(w, store, a, task);
    VerifyOfExpected(w, store, b, task);
    assert Expected(w, a, task, store[task]) == Expected(w, b, task, store[task]);
  }

  /** Evidence the executor built is accepted against the same backtest exactly when the backtest's own
      metadata and parameter schema have the digests of the run; the executor compared them by value only. */
  lemma ExecutorEvidenceAcceptedIff(w: World, run: ValidationRun, draft: Draft, analysis: Option<Analysis>, store: Store,
                                    task: Uuid, hashOf: int -> string)
    requires w.Lawful()
    requires Execute(w, run, draft, analysis, store, task, hashOf, true).Ok?
    ensures var claim := ClaimOf(run, Execute(w, run, draft, analysis, store, task, hashOf, true).value);
            Verify(w, store, claim) <==>
              && w.hashJson(store[task].task.strategyMetadata) == claim.common.metadataHash
              && w.hashJson(store[task].task.parameterSchema) == claim.common.parameterSchemaHash
  {
    var checks := Execute(w, run, draft, analysis, store, task, hashOf, true).value;
    var claim := ClaimOf(run, checks);
    var n := analysis.value.minBars;
    var fixed := Sample(FIXED_START, FIXED_START + n - 1, hashOf(n));
    assert claim.common == run.facts.value.common;
    assert checks == Checks(w, claim.runId, task, claim.common, fixed, store[task]);
    ExecutorMeetsExpected(w, claim, task, store[task], fixed);
    ChecksOfBacktest(w, claim, task, store[task], fixed);
    ExpectedIsText(w, claim, task, store[task]);
    VerifyOfExpected(w, store, claim, task);
  }

  /** Without a change of number type between the backtest and the analysis it is always accepted. */
  lemma ExecutorEvidenceAccepted(w: World, run: ValidationRun, draft: Draft, analysis: Option<Analysis>, store: Store,
                                 task: Uuid, hashOf: int -> string)
    requires w.Lawful()
    requires Execute(w, run, draft, analysis, store, task, hashOf, true).Ok?
    requires store[task].task.strategyMetadata == analysis.value.metadata
    requires store[task].task.parameterSchema == analysis.value.parameterSchema
    ensures Verify(w, store, ClaimOf(run, Execute(w, run, draft, analysis, store, task, hashOf, true).value))
  {
    ExecutorEvidenceAcceptedIff(w, run, draft, analysis, store, task, hashOf);
  }

  predicate PassesThenRefused(w: World, run: ValidationRun, draft: Draft, a: Analysis, store: Store, task: Uuid) {
    var evidence := Execute(w, run, draft, Some(a), store, task, _ => "", true);
    evidence.Ok? && !Verify(w, store, ClaimOf(run, evidence.value))
  }

  /** A run whose backtest stored `stored` where the draft's analysis gives `analysed`, all else being in order. */
  lemma RefusedWhenDigestsDiffer(w: World, stored: Json, analysed: Json)
      returns (run: ValidationRun, draft: Draft, a: Analysis, store: Store, task: Uuid)
    requires w.Lawful() && Equal(stored, analysed) && Equal(analysed, analysed) && w.hashJson(stored) != w.hashJson(analysed)
    ensures PassesThenRefused(w, run, draft, a, store, task)
  {
    var p := w.hashJson(Null);
    var facts := Facts(Common("", w.hashJson(analysed), p, p, w.hashText(""), ""), analysed, Null, Null, "");
    var t := Task(true, Uuid(2), 1, "", "", stored, Null, Null, p, "", "", 0, 1, 2, 3, [Uuid(3)]);
    run, draft, a := ValidationRun(Uuid(1), 1, "", Some(facts)), Draft(Uuid(2), 1, ""), Analysis(analysed, Null, 1);
    task := Uuid(5);
    store := map[task := Backtest(t, true, true, Uuid(4), Some(Forecast("", p, "", "", 0, 1, "")), Some(TestData(2, 3, "")), true)];
    assert FactsHold(w, run, facts, draft, a, store[task]);
    ExecutorEvidenceAcceptedIff(w, run, draft, Some(a), store, task, _ => "");
  }

  function UnaryWorld(hash: Json -> string): World {
    World(hash, s => s, (u, s) => u, (u: Uuid) => seq(u.value, _ => '1'), s => Some(Uuid(|s|)), i => "")
  }

  lemma UnaryWorldIsLawful(hash: Json -> string)
    ensures UnaryWorld(hash).Lawful()
  {
    var w := UnaryWorld(hash);
    forall u: Uuid ensures w.parse(w.show(u)) == Some(u) { assert |w.show(u)| == u.value; }
  }

  /** Such a run exists: a number stored as 1.0 by the backtest and as 1 by the draft passes the executor and
      then fails at publication. */
  lemma ExecutorEvidenceCanBeRefused()
    ensures exists w: World, run: ValidationRun, draft: Draft, a: Analysis, store: Store, task: Uuid ::
              w.Lawful() && PassesThenRefused(w, run, draft, a, store, task)
  {
    var stored, analysed := Object(map[Other("rate") := Float(1.0)]), Object(map[Other("rate") := Int(1)]);
    assert Equal(Float(1.0), Int(1)) && Equal(Int(1), Int(1));
    assert stored.fields[Other("rate")] != analysed.fields[Other("rate")];
    assert Equal(stored, analysed) && Equal(analysed, analysed);
    var w := UnaryWorld(j => if j == stored then "x" else "y");
    UnaryWorldIsLawful(w.hashJson);
    var run, draft, a, store, task := RefusedWhenDigestsDiffer(w, stored, analysed);
  }
}
