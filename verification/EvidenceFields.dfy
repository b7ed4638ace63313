/** The evidence field by field: what each of the four checks holds, for every executed run and for every accepted
    claim, and what the executor established before (backend/src/long_invest/bootstrap/strategy_validation.py). */
module EvidenceFields {
  import opened Wrappers
  import opened Evidence

  const COMMON_NAMES := {RunId, TaskId, SnapshotId, Status, SourceCodeHash, MetadataHash, ParameterSchemaHash,
                         ParameterHash, EnvironmentHash, RunnerImageDigest}

  predicate Says(j: Json, name: Name, text: string) {
    j.Object? && name in j.fields && j.fields[name] == Text(text)
  }

  /** The ten fields every check has. */
  predicate SaysCommon(w: World, j: Json, run: Uuid, task: Uuid, snapshot: Uuid, c: Common) {
    && Says(j, RunId, w.show(run)) && Says(j, TaskId, w.show(task)) && Says(j, SnapshotId, w.show(snapshot))
    && Says(j, Status, "SUCCEEDED")
    && Says(j, SourceCodeHash, c.sourceCodeHash) && Says(j, MetadataHash, c.metadataHash)
    && Says(j, ParameterSchemaHash, c.parameterSchemaHash) && Says(j, ParameterHash, c.parameterHash)
    && Says(j, EnvironmentHash, c.environmentHash) && Says(j, RunnerImageDigest, c.runnerImageDigest)
  }

  predicate SaysTraining(w: World, j: Json, start: int, end: int, hash: string) {
    Says(j, TrainingStart, w.iso(start)) && Says(j, TrainingEnd, w.iso(end)) && Says(j, TrainingDataHash, hash)
  }

  predicate SaysTest(w: World, j: Json, t: TestData) {
    Says(j, TestStart, w.iso(t.start)) && Says(j, TestEnd, w.iso(t.end)) && Says(j, TestDataHash, t.dataHash)
  }

  /** The training data and the security of the backtest. */
  predicate SaysBacktest(w: World, j: Json, b: Backtest)
    requires b.forecast.Some? && |b.task.universe| > 0
  {
    var f := b.forecast.value;
    SaysTraining(w, j, f.trainingStart, f.trainingEnd, f.trainingDataHash) && Says(j, SecurityId, w.show(b.task.universe[0]))
  }

  /** The static analysis: under its derived task and snapshot, the ten fields and no others. */
  predicate StaticHolds(w: World, j: Json, run: Uuid, c: Common) {
    && SaysCommon(w, j, run, w.derive(run, "static-analysis-task"), w.derive(run, "static-analysis-snapshot"), c)
    && j.fields.Keys == COMMON_NAMES
  }

  /** The fixed sample, whatever its training fields. */
  predicate FixedHolds(w: World, j: Json, run: Uuid, c: Common) {
    && SaysCommon(w, j, run, w.derive(run, "fixed-sample-task"), w.derive(run, "fixed-sample-snapshot"), c)
    && j.fields.Keys - {TrainingStart, TrainingEnd, TrainingDataHash} == COMMON_NAMES
  }

  /** The specified stock: the backtest's training data and security. */
  predicate SpecifiedHolds(w: World, j: Json, run: Uuid, task: Uuid, c: Common, b: Backtest)
    requires b.forecast.Some? && |b.task.universe| > 0
  {
    && SaysCommon(w, j, run, task, b.itemId, c) && SaysBacktest(w, j, b)
    && j.fields.Keys == COMMON_NAMES + {TrainingStart, TrainingEnd, TrainingDataHash, SecurityId}
  }

  /** The holdout backtest: the test data besides. */
  predicate HoldoutHolds(w: World, j: Json, run: Uuid, task: Uuid, c: Common, b: Backtest)
    requires b.forecast.Some? && b.test.Some? && |b.task.universe| > 0
  {
    && SaysCommon(w, j, run, task, b.itemId, c) && SaysBacktest(w, j, b) && SaysTest(w, j, b.test.value)
    && j.fields.Keys == COMMON_NAMES
         + {TrainingStart, TrainingEnd, TrainingDataHash, SecurityId, TestStart, TestEnd, TestDataHash}
  }

  predicate AllHold(w: World, checks: Json, run: Uuid, task: Uuid, c: Common, b: Backtest)
    requires b.forecast.Some? && b.test.Some? && |b.task.universe| > 0
  {
    && checks.Object?
    && StaticAnalysis in checks.fields && StaticHolds(w, checks.fields[StaticAnalysis], run, c)
    && FixedSample in checks.fields && FixedHolds(w, checks.fields[FixedSample], run, c)
    && SpecifiedStock in checks.fields && SpecifiedHolds(w, checks.fields[SpecifiedStock], run, task, c, b)
    && HoldoutBacktest in checks.fields && HoldoutHolds(w, checks.fields[HoldoutBacktest], run, task, c, b)
  }

  // ----- the fields are those the code assembles -----

  /** `m` is part of `j`. */
  predicate Contains(j: map<Name, Json>, m: map<Name, Json>) {
    forall k | k in m :: k in j && j[k] == m[k]
  }

  lemma CommonSaid(w: World, run: Uuid, task: Uuid, snapshot: Uuid, c: Common)
    ensures var m := CommonCheck(w, run, task, snapshot, c);
            SaysCommon(w, Object(m), run, task, snapshot, c) && m.Keys == COMMON_NAMES
  {
  }

  lemma CommonDetermined(w: World, j: Json, run: Uuid, task: Uuid, snapshot: Uuid, c: Common)
    requires SaysCommon(w, j, run, task, snapshot, c)
    ensures Contains(j.fields, CommonCheck(w, run, task, snapshot, c))
  {
  }

  lemma CommonKept(w: World, j: Json, m: map<Name, Json>, run: Uuid, task: Uuid, snapshot: Uuid, c: Common)
    requires j.Object? && m.Keys == COMMON_NAMES && Contains(j.fields, m)
    requires SaysCommon(w, Object(m), run, task, snapshot, c)
    ensures SaysCommon(w, j, run, task, snapshot, c)
  {
  }

  lemma CommonSaidIff(w: World, j: Json, run: Uuid, task: Uuid, snapshot: Uuid, c: Common)
    requires j.Object?
    ensures SaysCommon(w, j, run, task, snapshot, c) <==> Contains(j.fields, CommonCheck(w, run, task, snapshot, c))
    ensures CommonCheck(w, run, task, snapshot, c).Keys == COMMON_NAMES
  {
    var m := CommonCheck(w, run, task, snapshot, c);
    CommonSaid(w, run, task, snapshot, c);
    if SaysCommon(w, j, run, task, snapshot, c) { CommonDetermined(w, j, run, task, snapshot, c); }
    if Contains(j.fields, m) { CommonKept(w, j, m, run, task, snapshot, c); }
  }

  lemma FactsSaidIff(w: World, j: Json, b: Backtest)
    requires j.Object? && Complete(b) && |b.task.universe| > 0
    ensures SaysBacktest(w, j, b) && SaysTest(w, j, b.test.value) <==> Contains(j.fields, HoldoutFacts(w, b))
    ensures HoldoutFacts(w, b).Keys == {TrainingStart, TrainingEnd, TrainingDataHash, SecurityId, TestStart, TestEnd, TestDataHash}
  {
    BacktestSaidIff(w, j, b);
    TestSaidIff(w, j, b.test.value);
    FactsSplit(w, b);
    ContainsJoined(j.fields, BacktestFacts(w, b), Testing(w, b.test.value));
  }

  function BacktestFacts(w: World, b: Backtest): map<Name, Json>
    requires b.forecast.Some? && |b.task.universe| > 0
  {
    var f := b.forecast.value;
    map[TrainingStart := Text(w.iso(f.trainingStart)), TrainingEnd := Text(w.iso(f.trainingEnd)),
        TrainingDataHash := Text(f.trainingDataHash), SecurityId := Text(w.show(b.task.universe[0]))]
  }

  lemma BacktestSaidIff(w: World, j: Json, b: Backtest)
    requires j.Object? && b.forecast.Some? && |b.task.universe| > 0
    ensures SaysBacktest(w, j, b) <==> Contains(j.fields, BacktestFacts(w, b))
  {
    var m := BacktestFacts(w, b);
    assert Contains(j.fields, m) ==>
        forall k | k in {TrainingStart, TrainingEnd, TrainingDataHash, SecurityId} :: k in j.fields && j.fields[k] == m[k];
  }

  lemma TestSaidIff(w: World, j: Json, t: TestData)
    requires j.Object?
    ensures SaysTest(w, j, t) <==> Contains(j.fields, Testing(w, t))
  {
    var m := Testing(w, t);
    assert Contains(j.fields, m) ==> forall k | k in {TestStart, TestEnd, TestDataHash} :: k in j.fields && j.fields[k] == m[k];
  }

  lemma StaticHoldsIff(w: World, j: Json, run: Uuid, c: Common)
    ensures StaticHolds(w, j, run, c) <==> j == Object(StaticCheck(w, run, c))
  {
    if j.Object? {
      CommonSaidIff(w, j, run, w.derive(run, "static-analysis-task"), w.derive(run, "static-analysis-snapshot"), c);
      SameMap(j.fields, StaticCheck(w, run, c));
    }
  }

  lemma SameMap(j: map<Name, Json>, m: map<Name, Json>)
    ensures j == m <==> Contains(j, m) && j.Keys == m.Keys
  {
    if Contains(j, m) && j.Keys == m.Keys { assert j == m; }
  }

  lemma FixedHoldsIff(w: World, j: Json, run: Uuid, c: Common)
    ensures FixedHolds(w, j, run, c) <==> j.Object? && j.fields - TRAINING_FIELDS == FixedCheck(w, run, c)
  {
    if j.Object? {
      CommonSaidIff(w, j, run, w.derive(run, "fixed-sample-task"), w.derive(run, "fixed-sample-snapshot"), c);
      Without(j.fields, TRAINING_FIELDS, FixedCheck(w, run, c));
    }
  }

  lemma Without(j: map<Name, Json>, ns: set<Name>, m: map<Name, Json>)
    requires m.Keys !! ns
    ensures j - ns == m <==> Contains(j, m) && j.Keys - ns == m.Keys
  {
    assert (j - ns).Keys == j.Keys - ns;
    SameMap(j - ns, m);
    assert forall k | k in m && k in j :: k in j - ns && (j - ns)[k] == j[k];
  }

  lemma Joined(j: map<Name, Json>, m: map<Name, Json>, n: map<Name, Json>)
    requires m.Keys !! n.Keys
    ensures j == m + n <==> Contains(j, m) && Contains(j, n) && j.Keys == m.Keys + n.Keys
  {
    SameMap(j, m + n);
    assert Contains(m + n, m) && Contains(m + n, n);
  }

  lemma HoldoutJoined(w: World, j: Json, m: map<Name, Json>, b: Backtest)
    requires j.Object? && m.Keys == COMMON_NAMES && Complete(b) && |b.task.universe| > 0
    ensures j.fields == m + HoldoutFacts(w, b) <==>
              && Contains(j.fields, m) && SaysBacktest(w, j, b) && SaysTest(w, j, b.test.value)
              && j.fields.Keys == COMMON_NAMES
                   + {TrainingStart, TrainingEnd, TrainingDataHash, SecurityId, TestStart, TestEnd, TestDataHash}
  {
    FactsSaidIff(w, j, b);
    Joined(j.fields, m, HoldoutFacts(w, b));
  }

  lemma SpecifiedJoined(w: World, j: Json, m: map<Name, Json>, b: Backtest)
    requires j.Object? && m.Keys == COMMON_NAMES && Complete(b) && |b.task.universe| > 0
    ensures j.fields == (m + HoldoutFacts(w, b)) - TEST_FIELDS <==>
              && Contains(j.fields, m) && SaysBacktest(w, j, b)
              && j.fields.Keys == COMMON_NAMES + {TrainingStart, TrainingEnd, TrainingDataHash, SecurityId}
  {
    SpecifiedIs(w, m, b);
    BacktestJoined(w, j, m, b);
  }

  lemma SpecifiedIs(w: World, m: map<Name, Json>, b: Backtest)
    requires m.Keys == COMMON_NAMES && Complete(b) && |b.task.universe| > 0
    ensures (m + HoldoutFacts(w, b)) - TEST_FIELDS == m + BacktestFacts(w, b)
  {
    FactsSplit(w, b);
    Apart(m, HoldoutFacts(w, b));
  }

  lemma BacktestJoined(w: World, j: Json, m: map<Name, Json>, b: Backtest)
    requires j.Object? && m.Keys == COMMON_NAMES && b.forecast.Some? && |b.task.universe| > 0
    ensures j.fields == m + BacktestFacts(w, b) <==>
              && Contains(j.fields, m) && SaysBacktest(w, j, b)
              && j.fields.Keys == COMMON_NAMES + {TrainingStart, TrainingEnd, TrainingDataHash, SecurityId}
  {
    BacktestSaidIff(w, j, b);
    Joined(j.fields, m, BacktestFacts(w, b));
  }

  lemma FactsSplit(w: World, b: Backtest)
    requires Complete(b) && |b.task.universe| > 0
    ensures HoldoutFacts(w, b) - TEST_FIELDS == BacktestFacts(w, b)
    ensures HoldoutFacts(w, b) == BacktestFacts(w, b) + Testing(w, b.test.value)
  {
  }

  lemma ContainsJoined(j: map<Name, Json>, m: map<Name, Json>, n: map<Name, Json>)
    requires m.Keys !! n.Keys
    ensures Contains(j, m + n) <==> Contains(j, m) && Contains(j, n)
  {
    assert forall k | k in m :: k in m + n && (m + n)[k] == m[k];
    assert forall k | k in n :: k in m + n && (m + n)[k] == n[k];
  }

  lemma HoldoutHoldsIff(w: World, j: Json, claim: Claim, task: Uuid, b: Backtest)
    requires Complete(b) && |b.task.universe| > 0
    ensures HoldoutHolds(w, j, claim.runId, task, claim.common, b) <==> j == Object(ExpectedHoldout(w, claim, task, b))
  {
    if j.Object? {
      CommonSaidIff(w, j, claim.runId, task, b.itemId, claim.common);
      HoldoutJoined(w, j, CommonCheck(w, claim.runId, task, b.itemId, claim.common), b);
    }
  }

  lemma SpecifiedHoldsIff(w: World, j: Json, claim: Claim, task: Uuid, b: Backtest)
    requires Complete(b) && |b.task.universe| > 0
    ensures SpecifiedHolds(w, j, claim.runId, task, claim.common, b) <==>
            j == Object(ExpectedHoldout(w, claim, task, b) - TEST_FIELDS)
  {
    if j.Object? {
      CommonSaidIff(w, j, claim.runId, task, b.itemId, claim.common);
      SpecifiedJoined(w, j, CommonCheck(w, claim.runId, task, b.itemId, claim.common), b);
    }
  }

  lemma Apart(m: map<Name, Json>, facts: map<Name, Json>)
    requires TEST_FIELDS !! m.Keys
    ensures (m + facts) - TEST_FIELDS == m + (facts - TEST_FIELDS)
  {
  }

  predicate ChecksAre(checks: Json, a: Json, f: map<Name, Json>, s: Json, h: Json) {
    && checks.Object? && StaticAnalysis in checks.fields && FixedSample in checks.fields
    && SpecifiedStock in checks.fields && HoldoutBacktest in checks.fields
    && checks.fields[StaticAnalysis] == a && checks.fields[FixedSample].Object?
    && checks.fields[FixedSample].fields - TRAINING_FIELDS == f
    && checks.fields[SpecifiedStock] == s && checks.fields[HoldoutBacktest] == h
  }

  lemma EssentialMeans(checks: Json, a: Json, f: map<Name, Json>, s: Json, h: Json)
    ensures Essential(checks) == Four(a, Object(f), s, h) <==> ChecksAre(checks, a, f, s, h)
  {
    EssentialIsFour(checks);
    if checks.Object? && CHECK_NAMES <= checks.fields.Keys {
      var c := checks.fields;
      FourEqualIff(c[StaticAnalysis], Blotted(FixedSample, c[FixedSample]), c[SpecifiedStock], c[HoldoutBacktest], a, Object(f), s, h);
    }
  }

  lemma FourHold(w: World, checks: Json, run: Uuid, task: Uuid, c: Common, b: Backtest, a: Json, f: map<Name, Json>, s: Json, h: Json)
    requires b.forecast.Some? && b.test.Some? && |b.task.universe| > 0
    requires forall j :: StaticHolds(w, j, run, c) <==> j == a
    requires forall j :: FixedHolds(w, j, run, c) <==> j.Object? && j.fields - TRAINING_FIELDS == f
    requires forall j :: SpecifiedHolds(w, j, run, task, c, b) <==> j == s
    requires forall j :: HoldoutHolds(w, j, run, task, c, b) <==> j == h
    ensures AllHold(w, checks, run, task, c, b) <==> ChecksAre(checks, a, f, s, h)
  {
  }

  /** The four checks hold what they should exactly when they are the expected ones, but for the training fields of
      the fixed sample. */
  lemma AllHoldIff(w: World, claim: Claim, task: Uuid, b: Backtest)
    requires Complete(b) && |b.task.universe| > 0
    ensures AllHold(w, claim.checks, claim.runId, task, claim.common, b) <==> Essential(claim.checks) == Expected(w, claim, task, b)
  {
    var run, c, h := claim.runId, claim.common, ExpectedHoldout(w, claim, task, b);
    var a, f := StaticCheck(w, run, c), FixedCheck(w, run, c);
    forall j ensures StaticHolds(w, j, run, c) <==> j == Object(a) { StaticHoldsIff(w, j, run, c); }
    forall j ensures FixedHolds(w, j, run, c) <==> j.Object? && j.fields - TRAINING_FIELDS == f { FixedHoldsIff(w, j, run, c); }
    forall j ensures SpecifiedHolds(w, j, run, task, c, b) <==> j == Object(h - TEST_FIELDS) { SpecifiedHoldsIff(w, j, claim, task, b); }
    forall j ensures HoldoutHolds(w, j, run, task, c, b) <==> j == Object(h) { HoldoutHoldsIff(w, j, claim, task, b); }
    FourHold(w, claim.checks, run, task, c, b, Object(a), f, Object(h - TEST_FIELDS), Object(h));
    EssentialMeans(claim.checks, Object(a), f, Object(h - TEST_FIELDS), Object(h));
  }

  lemma FourEqualIff(a: Json, f: Json, s: Json, h: Json, a': Json, f': Json, s': Json, h': Json)
    ensures Four(a, f, s, h) == Four(a', f', s', h') <==> a == a' && f == f' && s == s' && h == h'
  {
    if Four(a, f, s, h) == Four(a', f', s', h') { FourInjective(a, f, s, h, a', f', s', h'); }
  }

  // ----- accepted claims -----

  /** A claim is accepted exactly when there is a backtest, completed with forecast, test data and metric, in single
      mode and over a security, whose source, parameters, environment, image and draft version are those of the
      header, whose metadata and schema have the header's digests, and whose evidence the four checks hold. */
  lemma AcceptedMeans(w: World, store: Store, claim: Claim)
    requires w.Lawful()
    ensures Verify(w, store, claim) <==>
            exists task :: task in store && AcceptedFor(w, claim, task, store[task])
  {
    forall task | task in store && AcceptedFor(w, claim, task, store[task]) ensures Verify(w, store, claim) {
      var b := store[task];
      AllHoldIff(w, claim, task, b);
      HoldoutHoldsIff(w, claim.checks.fields[HoldoutBacktest], claim, task, b);
      ExpectedIsText(w, claim, task, b);
      VerifyOfExpected(w, store, claim, task);
    }
    if Verify(w, store, claim) {
      var task := TaskNamed(w, Get(claim.checks, HoldoutBacktest).value).value;
      VerifyOfExpected(w, store, claim, task);
      AllHoldIff(w, claim, task, store[task]);
    }
  }

  predicate AcceptedFor(w: World, claim: Claim, task: Uuid, b: Backtest) {
    && b.itemSucceeded && b.resultSucceeded && b.forecast.Some? && b.test.Some? && b.hasMetric && |b.task.universe| > 0
    && b.task.single && b.task.draftVersion == claim.draftVersion
    && b.task.sourceCodeHash == claim.common.sourceCodeHash && b.task.parameterHash == claim.common.parameterHash
    && w.hashJson(b.task.strategyMetadata) == claim.common.metadataHash
    && w.hashJson(b.task.parameterSchema) == claim.common.parameterSchemaHash
    && w.hashText(b.task.environmentVersion) == claim.common.environmentHash
    && b.task.runnerImageDigest == claim.common.runnerImageDigest
    && AllHold(w, claim.checks, claim.runId, task, claim.common, b)
  }

  // ----- executed runs -----

  /** The evidence of an executed run is exactly four checks; besides, the fixed sample has the days of its bars from
      1990-01-01 on and its content hash. */
  lemma ExecutedHolds(w: World, run: ValidationRun, draft: Draft, analysis: Option<Analysis>, store: Store, task: Uuid,
                      hashOf: int -> string, forecastRuns: bool)
    requires Execute(w, run, draft, analysis, store, task, hashOf, forecastRuns).Ok?
    ensures var checks := Execute(w, run, draft, analysis, store, task, hashOf, forecastRuns).value;
            var n := analysis.value.minBars;
            && task in store && store[task].forecast.Some? && store[task].test.Some? && |store[task].task.universe| > 0
            && AllHold(w, checks, run.id, task, run.facts.value.common, store[task])
            && checks.fields.Keys == {StaticAnalysis, FixedSample, SpecifiedStock, HoldoutBacktest}
            && SaysTraining(w, checks.fields[FixedSample], 726468, 726468 + n - 1, hashOf(n))
  {
    var n := analysis.value.minBars;
    BuiltHolds(w, run.id, task, run.facts.value.common, Sample(FIXED_START, FIXED_START + n - 1, hashOf(n)), store[task]);
  }

  lemma BuiltHolds(w: World, run: Uuid, task: Uuid, c: Common, fixed: Sample, b: Backtest)
    requires Complete(b) && |b.task.universe| > 0
    ensures var checks := Checks(w, run, task, c, fixed, b);
            && AllHold(w, checks, run, task, c, b)
            && checks.fields.Keys == {StaticAnalysis, FixedSample, SpecifiedStock, HoldoutBacktest}
            && SaysTraining(w, checks.fields[FixedSample], fixed.start, fixed.end, fixed.contentHash)
  {
    BuiltAllHold(w, run, task, c, fixed, b);
    BuiltSample(w, run, task, c, fixed, b);
  }

  lemma BuiltAllHold(w: World, run: Uuid, task: Uuid, c: Common, fixed: Sample, b: Backtest)
    requires Complete(b) && |b.task.universe| > 0
    ensures AllHold(w, Checks(w, run, task, c, fixed, b), run, task, c, b)
  {
    var claim := Claim(run, 0, c, Checks(w, run, task, c, fixed, b));
    ExecutorMeetsExpected(w, claim, task, b, fixed);
    AllHoldIff(w, claim, task, b);
  }

  lemma BuiltSample(w: World, run: Uuid, task: Uuid, c: Common, fixed: Sample, b: Backtest)
    requires Complete(b) && |b.task.universe| > 0
    ensures var checks := Checks(w, run, task, c, fixed, b);
            && checks.fields.Keys == {StaticAnalysis, FixedSample, SpecifiedStock, HoldoutBacktest}
            && checks.fields[FixedSample] == Object(FixedCheck(w, run, c) + Training(w, fixed.start, fixed.end, fixed.contentHash))
            && SaysTraining(w, checks.fields[FixedSample], fixed.start, fixed.end, fixed.contentHash)
  {
    SampleSaid(w, FixedCheck(w, run, c), fixed);
  }

  lemma SampleSaid(w: World, m: map<Name, Json>, s: Sample)
    ensures SaysTraining(w, Object(m + Training(w, s.start, s.end, s.contentHash)), s.start, s.end, s.contentHash)
  {
  }

  /** Everything the executor has established when it delivers evidence. */
  predicate Established(w: World, run: ValidationRun, f: Facts, draft: Draft, a: Analysis, b: Backtest) {
    && b.itemSucceeded && b.resultSucceeded && b.forecast.Some? && b.test.Some? && b.hasMetric
    && 0 < a.minBars <= 10_000
    // the run, the draft and the backtest are about one draft
    && run.draftVersion == draft.draftVersion == b.task.draftVersion && b.task.draftId == draft.id
    && b.task.draftSourceCode == draft.sourceCode && b.task.single
    // one source
    && f.common.sourceCodeHash == run.sourceCodeHash && b.task.sourceCodeHash == run.sourceCodeHash
    && b.forecast.value.sourceCodeHash == run.sourceCodeHash
    // one set of parameters, with its digest
    && Equal(b.task.parameterSnapshot, f.params) && b.task.parameterHash == f.common.parameterHash
    && b.forecast.value.parameterHash == f.common.parameterHash && f.common.parameterHash == w.hashJson(f.params)
    // one environment and image
    && b.task.environmentVersion == f.environmentVersion && b.forecast.value.environmentVersion == f.environmentVersion
    && f.common.environmentHash == w.hashText(f.environmentVersion)
    && b.task.runnerImageDigest == f.common.runnerImageDigest && b.forecast.value.runnerImageDigest == f.common.runnerImageDigest
    // the analysed metadata and schema, with their digests
    && Equal(b.task.strategyMetadata, a.metadata) && Equal(f.metadata, a.metadata) && f.common.metadataHash == w.hashJson(a.metadata)
    && Equal(b.task.parameterSchema, a.parameterSchema) && Equal(f.parameterSchema, a.parameterSchema)
    && f.common.parameterSchemaHash == w.hashJson(a.parameterSchema)
    // the dates of the task, training before testing
    && b.forecast.value.trainingStart == b.task.trainingStart && b.forecast.value.trainingEnd == b.task.trainingEnd
    && b.test.value.start == b.task.testStart && b.test.value.end == b.task.testEnd
    && b.forecast.value.trainingEnd < b.test.value.start
  }

  /** Evidence comes back exactly when all of it is established, the fixed-sample forecast runs and the backtest has a
      security; the two later failures are told apart from a mismatch. */
  lemma ExecutedMeans(w: World, run: ValidationRun, draft: Draft, analysis: Option<Analysis>, store: Store, task: Uuid,
                      hashOf: int -> string, forecastRuns: bool)
    ensures var r := Execute(w, run, draft, analysis, store, task, hashOf, forecastRuns);
            var facts := analysis.Some? && task in store && run.facts.Some?
              && Established(w, run, run.facts.value, draft, analysis.value, store[task]);
            && (r.Ok? <==> facts && forecastRuns && |store[task].task.universe| > 0)
            && (r == Err(FactsMismatch) <==> !facts)
            && (r == Err(FixedSampleFailed) <==> facts && !forecastRuns)
  {
  }

  // ----- equality of JSON values -----

  /** No number and no truth value anywhere. */
  predicate Numberless(j: Json) {
    match j
    case Null | Text(_) => true
    case Bool(_) | Int(_) | Float(_) => false
    case List(items) => forall i | 0 <= i < |items| :: Numberless(items[i])
    case Object(fields) => forall k | k in fields :: Numberless(fields[k])
  }

  /** Without numbers, equality is identity; a number equals exactly the numbers and truth values of its value. */
  lemma {:induction false} EqualIsIdentity(a: Json, b: Json)
    requires Numberless(a)
    ensures Equal(a, b) <==> a == b
  {
    match a
    case List(xs) =>
      if b.List? && |xs| == |b.items| {
        forall i | 0 <= i < |xs| ensures Equal(xs[i], b.items[i]) <==> xs[i] == b.items[i] { EqualIsIdentity(xs[i], b.items[i]); }
        assert Equal(a, b) ==> xs == b.items;
      }
    case Object(fs) =>
      if b.Object? && fs.Keys == b.fields.Keys {
        forall k | k in fs ensures Equal(fs[k], b.fields[k]) <==> fs[k] == b.fields[k] { EqualIsIdentity(fs[k], b.fields[k]); }
        assert Equal(a, b) ==> fs == b.fields;
      }
    case _ =>
  }

  lemma EqualNumbers(i: int, b: Json)
    ensures Equal(Int(i), b) <==> b == Int(i) || b == Float(i as real) || (i == 1 && b == Bool(true)) || (i == 0 && b == Bool(false))
  {
  }
}
