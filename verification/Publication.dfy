/** Publication of strategy versions: the two row triggers, the CHECKs, the unique keys and the foreign
    keys of backend/alembic/versions/20260721_0012_strategy_backtest.py, row by row. */
module Publication {
  import opened Wrappers

  datatype VersionStatus = Publishing | Published | PublishFailed | Archived

  datatype ValidationStatus = Pending | Running | Succeeded | Failed

  /** The columns the trigger calls the facts of a version. */
  datatype Facts = Facts(
    id: nat, strategyId: nat, versionNo: int, sourceHash: string, sourceCode: string, metadata: string,
    parameterSchema: string, environment: string, imageDigest: string, gitCommit: Option<string>,
    validationRunId: Option<nat>, publishedAt: Option<int>, createdAt: int)

  datatype Version = Version(facts: Facts, status: VersionStatus)

  datatype Validation = Validation(
    id: nat, strategyId: nat, versionId: Option<nat>, draftVersion: int, sourceHash: string,
    evidence: string, status: ValidationStatus, errorCode: Option<string>, createdAt: int,
    completedAt: Option<int>)

  datatype Tables = Tables(versions: map<nat, Version>, validations: map<nat, Validation>)

  datatype Statement =
    | InsertVersion(version: Version)
    | UpdateVersion(id: nat, version: Version)
    | DeleteVersion(id: nat)
    | InsertValidation(validation: Validation)
    | UpdateValidation(id: nat, validation: Validation)
    | DeleteValidation(id: nat)

  // ----- declared constraints -----

  predicate VersionChecks(v: Version) {
    && v.facts.versionNo > 0
    && if v.status == Published || v.status == Archived
       then v.facts.publishedAt.Some? && v.facts.gitCommit.Some? && v.facts.validationRunId.Some?
       else v.facts.publishedAt.None?
  }

  predicate ValidationChecks(r: Validation) {
    && r.draftVersion > 0
    && (match r.status
        case Pending | Running => r.completedAt.None? && r.errorCode.None?
        case Succeeded => r.completedAt.Some? && r.errorCode.None?
        case Failed => r.completedAt.Some? && r.errorCode.Some?)
    && (r.completedAt.Some? ==> r.createdAt <= r.completedAt.value)
  }

  predicate UniqueVersionNumbers(t: Tables) {
    forall a, b | a in t.versions && b in t.versions && a != b ::
      t.versions[a].facts.strategyId != t.versions[b].facts.strategyId
      || t.versions[a].facts.versionNo != t.versions[b].facts.versionNo
  }

  predicate ForeignKeys(t: Tables) {
    && (forall a | a in t.versions && t.versions[a].facts.validationRunId.Some? ::
          t.versions[a].facts.validationRunId.value in t.validations)
    && (forall a | a in t.validations && t.validations[a].versionId.Some? ::
          t.validations[a].versionId.value in t.versions)
  }

  // ----- the trigger functions -----

  /** The EXISTS query of the version trigger. */
  predicate HasEvidence(t: Tables, f: Facts) {
    exists a :: a in t.validations && f.validationRunId == Some(t.validations[a].id)
      && t.validations[a].strategyId == f.strategyId && t.validations[a].versionId == Some(f.id)
      && t.validations[a].sourceHash == f.sourceHash && t.validations[a].status == Succeeded
  }

  /** `protect_published_strategy_version`: the message it raises, if any. */
  function VersionTrigger(t: Tables, old_: Version, new_: Version): Option<string> {
    if new_.status == Published && old_.status != Published && !HasEvidence(t, new_.facts) then
      Some("published strategy requires matching validation evidence")
    else if old_.status == Published || old_.status == Archived then
      if new_.facts != old_.facts then
        Some("published strategy version facts are immutable")
      else if old_.status == Archived && new_.status != Archived && new_.status != Published then
        Some("archived strategy version can only be restored")
      else if old_.status == Published && new_.status != Published && new_.status != Archived then
        Some("published strategy version can only be archived")
      else None
    else None
  }

  /** `protect_strategy_validation_evidence`: the message it raises, if any. */
  function ValidationTrigger(old_: Validation, new_: Validation): Option<string> {
    if (new_.id, new_.strategyId, new_.draftVersion, new_.sourceHash, new_.createdAt)
       != (old_.id, old_.strategyId, old_.draftVersion, old_.sourceHash, old_.createdAt) then
      Some("strategy validation identity is immutable")
    else if old_.versionId.Some? && new_.versionId != old_.versionId then
      Some("strategy validation version binding is immutable")
    else if (old_.status == Succeeded || old_.status == Failed)
            && (new_.evidence, new_.status, new_.errorCode, new_.completedAt)
               != (old_.evidence, old_.status, old_.errorCode, old_.completedAt) then
      Some("completed strategy validation is immutable")
    else if old_.status == Running && new_.status == Pending then
      Some("strategy validation status cannot move backward")
    else if (old_.status == Succeeded || old_.status == Failed) && new_.status != old_.status then
      Some("completed strategy validation status is immutable")
    else None
  }

  // ----- one statement -----

  /** The tables the statement would leave, constraints aside. */
  function Effect(t: Tables, s: Statement): Tables {
    match s
    case InsertVersion(v) => t.(versions := t.versions[v.facts.id := v])
    case UpdateVersion(id, v) => t.(versions := (t.versions - {id})[v.facts.id := v])
    case DeleteVersion(id) => t.(versions := t.versions - {id})
    case InsertValidation(r) => t.(validations := t.validations[r.id := r])
    case UpdateValidation(id, r) => t.(validations := (t.validations - {id})[r.id := r])
    case DeleteValidation(id) => t.(validations := t.validations - {id})
  }

  /** CHECKs of the written row, primary key, and the row trigger. */
  predicate RowAllowed(t: Tables, s: Statement) {
    match s
    case InsertVersion(v) => VersionChecks(v) && v.facts.id !in t.versions
    case UpdateVersion(id, v) =>
      && id in t.versions && VersionChecks(v)
      && (v.facts.id != id ==> v.facts.id !in t.versions)
      && VersionTrigger(t, t.versions[id], v).None?
    case DeleteVersion(id) => id in t.versions
    case InsertValidation(r) => ValidationChecks(r) && r.id !in t.validations
    case UpdateValidation(id, r) =>
      && id in t.validations && ValidationChecks(r)
      && (r.id != id ==> r.id !in t.validations)
      && ValidationTrigger(t.validations[id], r).None?
    case DeleteValidation(id) => id in t.validations
  }

  predicate Accepted(t: Tables, s: Statement) {
    RowAllowed(t, s) && ForeignKeys(Effect(t, s)) && UniqueVersionNumbers(Effect(t, s))
  }

  /** A rejected statement leaves the tables alone. */
  function Execute(t: Tables, s: Statement): Tables {
    if Accepted(t, s) then Effect(t, s) else t
  }

  function Run(t: Tables, ss: seq<Statement>): Tables
    decreases |ss|
  {
    if |ss| == 0 then t else Run(Execute(t, ss[0]), ss[1..])
  }

  // ----- the stateful form -----

  class Database {
    var versions: map<nat, Version>
    var validations: map<nat, Validation>

    ghost function View(): Tables
      reads this
    {
      Tables(versions, validations)
    }

    constructor ()
      ensures View() == Tables(map[], map[])
    {
      versions, validations := map[], map[];
    }

    method Write(s: Statement)
      requires RowAllowed(View(), s)
      modifies this
      ensures View() == Effect(old(View()), s)
    {
      match s
      case InsertVersion(v) => versions := versions[v.facts.id := v];
      case UpdateVersion(id, v) => versions := (versions - {id})[v.facts.id := v];
      case DeleteVersion(id) => versions := versions - {id};
      case InsertValidation(r) => validations := validations[r.id := r];
      case UpdateValidation(id, r) => validations := (validations - {id})[r.id := r];
      case DeleteValidation(id) => validations := validations - {id};
    }

    /** CHECKs and row trigger first, then the write, then the keys; a violation undoes the write. */
    method ExecuteStatement(s: Statement) returns (ok: bool)
      modifies this
      ensures ok == Accepted(old(View()), s)
      ensures View() == Execute(old(View()), s)
    {
      var before := Tables(versions, validations);
      if !RowAllowed(before, s) {
        return false;
      }
      Write(s);
      var after := Tables(versions, validations);
      ok := ForeignKeys(after) && UniqueVersionNumbers(after);
      if !ok {
        versions, validations := before.versions, before.validations;
      }
    }
  }

  // ----- what every statement keeps -----

  predicate Keyed(t: Tables) {
    && (forall a | a in t.versions :: t.versions[a].facts.id == a)
    && (forall a | a in t.validations :: t.validations[a].id == a)
  }

  predicate Consistent(t: Tables) {
    Keyed(t) && ForeignKeys(t) && UniqueVersionNumbers(t) && forall a | a in t.versions :: VersionChecks(t.versions[a])
  }

  /** A succeeded validation of this version: the row it names, of its strategy, bound to it, over its source. */
  predicate Matches(r: Validation, f: Facts) {
    && f.validationRunId == Some(r.id) && r.strategyId == f.strategyId && r.versionId == Some(f.id)
    && r.sourceHash == f.sourceHash && r.status == Succeeded
  }

  /** The version's facts are on the evidence row it names. */
  predicate Backed(t: Tables, f: Facts) {
    && f.validationRunId.Some? && f.validationRunId.value in t.validations
    && Matches(t.validations[f.validationRunId.value], f)
  }

  predicate PublishedAreBacked(t: Tables) {
    forall a | a in t.versions && t.versions[a].status == Published :: Backed(t, t.versions[a].facts)
  }

  lemma EvidenceIsNamed(t: Tables, f: Facts)
    requires Keyed(t)
    ensures HasEvidence(t, f) <==> Backed(t, f)
  {
    if HasEvidence(t, f) {
      var a :| a in t.validations && f.validationRunId == Some(t.validations[a].id) && t.validations[a].status == Succeeded;
      assert t.validations[a].id == a;
    }
  }

  lemma StatementKeepsConsistency(t: Tables, s: Statement)
    requires Consistent(t)
    ensures Consistent(Execute(t, s))
  {
  }

  /** A version with these facts is in the table, published or archived, and its evidence row is `r`. */
  predicate Holds(t: Tables, f: Facts, r: Validation) {
    && f.id in t.versions && t.versions[f.id].facts == f
    && (t.versions[f.id].status == Published || t.versions[f.id].status == Archived)
    && r.id in t.validations && t.validations[r.id] == r
  }

  lemma VersionUpdateKeepsPublication(t: Tables, id: nat, v: Version, f: Facts, r: Validation)
    requires Keyed(t) && Holds(t, f, r) && RowAllowed(t, UpdateVersion(id, v))
    ensures Holds(Effect(t, UpdateVersion(id, v)), f, r)
  {
  }

  lemma ValidationUpdateKeepsPublication(t: Tables, id: nat, w: Validation, f: Facts, r: Validation)
    requires Keyed(t) && Holds(t, f, r) && Matches(r, f) && RowAllowed(t, UpdateValidation(id, w))
    ensures Holds(Effect(t, UpdateValidation(id, w)), f, r)
  {
    if id == r.id { assert w == r; }
  }

  lemma DeleteKeepsPublication(t: Tables, s: Statement, f: Facts, r: Validation)
    requires Holds(t, f, r) && Matches(r, f) && ForeignKeys(Effect(t, s)) && (s.DeleteVersion? || s.DeleteValidation?)
    ensures Holds(Effect(t, s), f, r)
  {
    var u := Effect(t, s);
    if s.DeleteVersion? {
      assert u.validations[r.id].versionId == Some(f.id);
    } else {
      assert u.versions[f.id].facts.validationRunId == Some(r.id);
    }
  }

  /** The joint step: the version trigger keeps the facts because the row is published or archived, the
      validation trigger keeps the evidence because it is completed and bound, and the two foreign keys
      keep each row from being deleted under the other. */
  lemma StatementKeepsPublication(t: Tables, s: Statement, f: Facts, r: Validation)
    requires Consistent(t) && Holds(t, f, r) && Matches(r, f)
    ensures Holds(Execute(t, s), f, r)
  {
    if Accepted(t, s) {
      match s
      case UpdateVersion(id, v) => VersionUpdateKeepsPublication(t, id, v, f, r);
      case UpdateValidation(id, w) => ValidationUpdateKeepsPublication(t, id, w, f, r);
      case DeleteVersion(_) => DeleteKeepsPublication(t, s, f, r);
      case DeleteValidation(_) => DeleteKeepsPublication(t, s, f, r);
      case InsertVersion(_) =>
      case InsertValidation(_) =>
    }
  }

  /** A statement keeps every published version backed exactly when it does not insert a version that is
      already published: an accepted insert of one is never backed. */
  lemma StatementKeepsBackingIff(t: Tables, s: Statement)
    requires Consistent(t) && PublishedAreBacked(t) && Accepted(t, s)
    ensures PublishedAreBacked(Execute(t, s)) <==> !(s.InsertVersion? && s.version.status == Published)
  {
    var u := Execute(t, s);
    if s.InsertVersion? && s.version.status == Published {
      var f := s.version.facts;
      assert u.versions[f.id] == s.version;
      assert f.id !in t.versions;
    } else {
      forall a | a in u.versions && u.versions[a].status == Published ensures Backed(u, u.versions[a].facts) {
        if a in t.versions && t.versions[a].status == Published {
          var f := t.versions[a].facts;
          StatementKeepsPublication(t, s, f, t.validations[f.validationRunId.value]);
        } else {
          assert s.UpdateVersion? && s.version == u.versions[a];
          EvidenceIsNamed(t, s.version.facts);
        }
      }
    }
  }

  /** Such an insert is accepted: the row names a validation that is still pending, and no trigger looks. */
  lemma UnbackedVersionCanBeInserted()
    ensures var t := Tables(map[], map[1 := Validation(1, 1, None, 1, "h", "", Pending, None, 0, None)]);
            var s := InsertVersion(Version(SAMPLE_FACTS, Published));
            Consistent(t) && PublishedAreBacked(t) && Accepted(t, s) && !PublishedAreBacked(Execute(t, s))
  {
    var t := Tables(map[], map[1 := Validation(1, 1, None, 1, "h", "", Pending, None, 0, None)]);
    var s := InsertVersion(Version(SAMPLE_FACTS, Published));
    assert Effect(t, s).versions == map[1 := s.version];
    assert Accepted(t, s);
    StatementKeepsBackingIff(t, s);
  }

  /** No version enters the table already published. */
  predicate EntersUnpublished(ss: seq<Statement>) {
    forall i | 0 <= i < |ss| :: !(ss[i].InsertVersion? && ss[i].version.status == Published)
  }

  /** Over every sequence of inserts, updates and deletes in which no version enters already published,
      each published version has a succeeded validation with the same id, strategy, version and source
      hash. */
  lemma {:induction false} PublishedAlwaysBacked(t: Tables, ss: seq<Statement>)
    requires Consistent(t) && PublishedAreBacked(t) && EntersUnpublished(ss)
    ensures Consistent(Run(t, ss)) && PublishedAreBacked(Run(t, ss))
    decreases |ss|
  {
    if |ss| > 0 {
      StatementKeepsConsistency(t, ss[0]);
      if Accepted(t, ss[0]) { StatementKeepsBackingIff(t, ss[0]); }
      PublishedAlwaysBacked(Execute(t, ss[0]), ss[1..]);
    }
  }

  /** From the empty tables. */
  lemma PublishedAlwaysBackedFromEmpty(ss: seq<Statement>)
    requires EntersUnpublished(ss)
    ensures PublishedAreBacked(Run(Tables(map[], map[]), ss))
  {
    PublishedAlwaysBacked(Tables(map[], map[]), ss);
  }

  /** Once backed and published, for the rest of any run, inserts of published rows included: the version
      stays, its facts never change, its status is only ever published or archived, and its evidence row
      never changes in any column. */
  lemma {:induction false} PublicationIsPermanent(t: Tables, ss: seq<Statement>, a: nat)
    requires Consistent(t) && a in t.versions && t.versions[a].status == Published
    requires Backed(t, t.versions[a].facts)
    ensures var f := t.versions[a].facts;
            Holds(Run(t, ss), f, t.validations[f.validationRunId.value])
  {
    var f := t.versions[a].facts;
    HoldsForever(t, ss, f, t.validations[f.validationRunId.value]);
  }

  lemma {:induction false} HoldsForever(t: Tables, ss: seq<Statement>, f: Facts, r: Validation)
    requires Consistent(t) && Holds(t, f, r) && Matches(r, f)
    ensures Holds(Run(t, ss), f, r) && Consistent(Run(t, ss))
    decreases |ss|
  {
    if |ss| > 0 {
      StatementKeepsConsistency(t, ss[0]);
      StatementKeepsPublication(t, ss[0], f, r);
      HoldsForever(Execute(t, ss[0]), ss[1..], f, r);
    }
  }

  lemma StatusChangeKeepsKeys(t: Tables, a: nat, st: VersionStatus)
    requires Keyed(t) && a in t.versions
    ensures var u := Effect(t, UpdateVersion(a, t.versions[a].(status := st)));
            (ForeignKeys(t) ==> ForeignKeys(u)) && (UniqueVersionNumbers(t) ==> UniqueVersionNumbers(u))
  {
    var u := Effect(t, UpdateVersion(a, t.versions[a].(status := st)));
    assert u.versions.Keys == t.versions.Keys;
    assert forall b | b in u.versions :: u.versions[b].facts == t.versions[b].facts;
  }

  /** An archived version can be restored exactly when its evidence matches. */
  lemma RestoreAcceptedIff(t: Tables, a: nat)
    requires Consistent(t) && a in t.versions && t.versions[a].status == Archived
    ensures Accepted(t, UpdateVersion(a, t.versions[a].(status := Published))) <==> Backed(t, t.versions[a].facts)
  {
    EvidenceIsNamed(t, t.versions[a].facts);
    StatusChangeKeepsKeys(t, a, Published);
  }

  /** A version that was published once can always be brought back after being archived, whatever
      happened in between. */
  lemma RestoreNeverBlocked(t: Tables, ss: seq<Statement>, a: nat)
    requires Consistent(t) && a in t.versions && t.versions[a].status == Published
    requires Backed(t, t.versions[a].facts)
    requires a in Run(t, ss).versions && Run(t, ss).versions[a].status == Archived
    ensures Accepted(Run(t, ss), UpdateVersion(a, Run(t, ss).versions[a].(status := Published)))
  {
    var f := t.versions[a].facts;
    HoldsForever(t, ss, f, t.validations[f.validationRunId.value]);
    RestoreAcceptedIff(Run(t, ss), a);
  }

  // ----- which statements are accepted, column by column -----

  /** The columns of a version row fit together. */
  predicate VersionRowOk(v: Version) {
    && v.facts.versionNo > 0
    && match v.status
       case Published | Archived => v.facts.publishedAt.Some? && v.facts.gitCommit.Some? && v.facts.validationRunId.Some?
       case Publishing | PublishFailed => v.facts.publishedAt.None?
  }

  predicate ValidationRowOk(r: Validation) {
    && r.draftVersion > 0
    && match r.status
       case Pending | Running => r.completedAt.None? && r.errorCode.None?
       case Succeeded => r.completedAt.Some? && r.createdAt <= r.completedAt.value && r.errorCode.None?
       case Failed => r.completedAt.Some? && r.createdAt <= r.completedAt.value && r.errorCode.Some?
  }

  /** No other version of the strategy has the number, and the named validation exists. */
  predicate VersionFits(t: Tables, v: Version, without: Option<nat>) {
    && (forall a | a in t.versions && Some(a) != without ::
          t.versions[a].facts.strategyId != v.facts.strategyId || t.versions[a].facts.versionNo != v.facts.versionNo)
    && (v.facts.validationRunId.Some? ==> v.facts.validationRunId.value in t.validations)
  }

  predicate VersionReferenced(t: Tables, id: nat) {
    exists a :: a in t.validations && t.validations[a].versionId == Some(id)
  }

  predicate ValidationReferenced(t: Tables, id: nat) {
    exists a :: a in t.versions && t.versions[a].facts.validationRunId == Some(id)
  }

  lemma InsertVersionAcceptedIff(t: Tables, v: Version)
    requires Consistent(t)
    ensures Accepted(t, InsertVersion(v)) <==>
              VersionRowOk(v) && v.facts.id !in t.versions && VersionFits(t, v, None)
    ensures Effect(t, InsertVersion(v)) == Tables(t.versions[v.facts.id := v], t.validations)
  {
    var u := Effect(t, InsertVersion(v));
    if v.facts.id !in t.versions {
      WrittenVersionFits(t, u, v, None);
    }
  }

  /** `u` holds the versions of `t` but for `without`, and the new row `v` under its own fresh id. */
  lemma WrittenVersionFits(t: Tables, u: Tables, v: Version, without: Option<nat>)
    requires Consistent(t) && u.validations == t.validations && v.facts.id in u.versions && u.versions[v.facts.id] == v
    requires without.Some? ==> without.value in t.versions
    requires v.facts.id in t.versions ==> without == Some(v.facts.id)
    requires forall a | a != v.facts.id :: a in u.versions <==> a in t.versions && Some(a) != without
    requires forall a | a in u.versions && a != v.facts.id :: u.versions[a] == t.versions[a]
    ensures UniqueVersionNumbers(u) && ForeignKeys(u) <==>
              VersionFits(t, v, without) && (without.Some? && without != Some(v.facts.id) ==> !VersionReferenced(t, without.value))
  {
    WrittenNumbers(t, u, v, without);
    WrittenKeys(t, u, v, without);
  }

  lemma WrittenNumbers(t: Tables, u: Tables, v: Version, without: Option<nat>)
    requires UniqueVersionNumbers(t) && v.facts.id in u.versions && u.versions[v.facts.id] == v
    requires v.facts.id in t.versions ==> without == Some(v.facts.id)
    requires forall a | a != v.facts.id :: a in u.versions <==> a in t.versions && Some(a) != without
    requires forall a | a in u.versions && a != v.facts.id :: u.versions[a] == t.versions[a]
    ensures UniqueVersionNumbers(u) <==> forall a | a in t.versions && Some(a) != without ::
              t.versions[a].facts.strategyId != v.facts.strategyId || t.versions[a].facts.versionNo != v.facts.versionNo
  {
    if UniqueVersionNumbers(u) {
      forall a | a in t.versions && Some(a) != without
        ensures t.versions[a].facts.strategyId != v.facts.strategyId || t.versions[a].facts.versionNo != v.facts.versionNo
      {
        assert a in u.versions && u.versions[a] == t.versions[a];
      }
    }
  }

  lemma WrittenKeys(t: Tables, u: Tables, v: Version, without: Option<nat>)
    requires ForeignKeys(t) && u.validations == t.validations && v.facts.id in u.versions && u.versions[v.facts.id] == v
    requires without.Some? ==> without.value in t.versions
    requires forall a | a != v.facts.id :: a in u.versions <==> a in t.versions && Some(a) != without
    requires forall a | a in u.versions && a != v.facts.id :: u.versions[a] == t.versions[a]
    ensures ForeignKeys(u) <==>
              && (v.facts.validationRunId.Some? ==> v.facts.validationRunId.value in t.validations)
              && (without.Some? && without != Some(v.facts.id) ==> !VersionReferenced(t, without.value))
  {
  }

  /** When an update of a version row is accepted. Before publication: to anything that fits, to PUBLISHED only with
      evidence. Once published: only with all facts kept, between PUBLISHED and ARCHIVED, and back with evidence. */
  lemma UpdateVersionAcceptedIff(t: Tables, id: nat, v: Version)
    requires Consistent(t) && id in t.versions
    ensures Accepted(t, UpdateVersion(id, v)) <==>
              && VersionRowOk(v) && VersionFits(t, v, Some(id))
              && (v.facts.id != id ==> v.facts.id !in t.versions && !VersionReferenced(t, id))
              && (match t.versions[id].status
                  case Publishing | PublishFailed => v.status == Published ==> Backed(t, v.facts)
                  case Published => v.facts == t.versions[id].facts && (v.status == Published || v.status == Archived)
                  case Archived =>
                    && v.facts == t.versions[id].facts
                    && (v.status == Archived || (v.status == Published && Backed(t, v.facts))))
    ensures Effect(t, UpdateVersion(id, v)) == Tables((t.versions - {id})[v.facts.id := v], t.validations)
  {
    EvidenceIsNamed(t, v.facts);
    if v.facts.id == id || v.facts.id !in t.versions {
      WrittenVersionFits(t, Effect(t, UpdateVersion(id, v)), v, Some(id));
    }
  }

  lemma DeleteVersionAcceptedIff(t: Tables, id: nat)
    requires Consistent(t)
    ensures Accepted(t, DeleteVersion(id)) <==> id in t.versions && !VersionReferenced(t, id)
    ensures Effect(t, DeleteVersion(id)) == Tables(t.versions - {id}, t.validations)
  {
  }

  lemma InsertValidationAcceptedIff(t: Tables, r: Validation)
    requires Consistent(t)
    ensures Accepted(t, InsertValidation(r)) <==>
              ValidationRowOk(r) && r.id !in t.validations && (r.versionId.Some? ==> r.versionId.value in t.versions)
    ensures Effect(t, InsertValidation(r)) == Tables(t.versions, t.validations[r.id := r])
  {
    WrittenValidationFits(t, r);
  }

  lemma WrittenValidationFits(t: Tables, r: Validation)
    requires Consistent(t)
    ensures var u := Tables(t.versions, t.validations[r.id := r]);
            UniqueVersionNumbers(u) && (ForeignKeys(u) <==> (r.versionId.Some? ==> r.versionId.value in t.versions))
  {
    var u := Tables(t.versions, t.validations[r.id := r]);
    if ForeignKeys(u) && r.versionId.Some? { assert u.validations[r.id] == r; }
  }

  /** When an update of a validation row is accepted: its identity stays, a bound version stays bound, a running one
      does not go back, and a completed one keeps its outcome. Binding, running and completing are all allowed. */
  lemma UpdateValidationAcceptedIff(t: Tables, id: nat, r: Validation)
    requires Consistent(t) && id in t.validations
    ensures var o := t.validations[id];
            Accepted(t, UpdateValidation(id, r)) <==>
              && ValidationRowOk(r) && r.id == id && r.strategyId == o.strategyId && r.draftVersion == o.draftVersion
              && r.sourceHash == o.sourceHash && r.createdAt == o.createdAt
              && (o.versionId.Some? ==> r.versionId == o.versionId) && (r.versionId.Some? ==> r.versionId.value in t.versions)
              && (match o.status
                  case Pending => true
                  case Running => r.status != Pending
                  case Succeeded | Failed =>
                    r.status == o.status && r.evidence == o.evidence && r.errorCode == o.errorCode && r.completedAt == o.completedAt)
    ensures r.id == id ==> Effect(t, UpdateValidation(id, r)) == Tables(t.versions, t.validations[id := r])
  {
    assert t.validations[id].id == id;
    if r.id == id {
      assert (t.validations - {id})[id := r] == t.validations[id := r];
      WrittenValidationFits(t, r);
    }
  }

  lemma DeleteValidationAcceptedIff(t: Tables, id: nat)
    requires Consistent(t)
    ensures Accepted(t, DeleteValidation(id)) <==> id in t.validations && !ValidationReferenced(t, id)
    ensures Effect(t, DeleteValidation(id)) == Tables(t.versions, t.validations - {id})
  {
  }

  // ----- both triggers are needed -----

  /** Everything a statement must pass except the row triggers. */
  predicate PassesConstraints(t: Tables, s: Statement) {
    && Consistent(Effect(t, s))
    && (s.UpdateVersion? ==> s.id in t.versions)
    && (s.UpdateValidation? ==> s.id in t.validations && ValidationChecks(s.validation))
  }

  const SAMPLE_FACTS := Facts(1, 1, 1, "h", "", "", "", "", "", Some(""), Some(1), Some(0), 0)

  const SAMPLE_EVIDENCE := Validation(1, 1, Some(1), 1, "h", "", Succeeded, None, 0, Some(0))

  const SAMPLE_TABLES := Tables(map[1 := Version(SAMPLE_FACTS, Published)], map[1 := SAMPLE_EVIDENCE])

  const FAILED_EVIDENCE := UpdateValidation(1, SAMPLE_EVIDENCE.(status := Failed, errorCode := Some("E")))

  const OTHER_SOURCE := UpdateVersion(1, Version(SAMPLE_FACTS.(sourceHash := "g"), Published))

  lemma EvidenceUpdateUnbacks()
    ensures PassesConstraints(SAMPLE_TABLES, FAILED_EVIDENCE) && !PublishedAreBacked(Effect(SAMPLE_TABLES, FAILED_EVIDENCE))
  {
    var u := Effect(SAMPLE_TABLES, FAILED_EVIDENCE);
    assert u.validations == map[1 := FAILED_EVIDENCE.validation];
    assert !Backed(u, u.versions[1].facts);
  }

  lemma VersionUpdateUnbacks()
    ensures PassesConstraints(SAMPLE_TABLES, OTHER_SOURCE) && !PublishedAreBacked(Effect(SAMPLE_TABLES, OTHER_SOURCE))
  {
    var u := Effect(SAMPLE_TABLES, OTHER_SOURCE);
    assert u.versions == map[1 := OTHER_SOURCE.version];
    assert !Backed(u, u.versions[1].facts);
  }

  /** Without the validation trigger an update of the evidence row alone, and without the version trigger
      an update of the version row alone, leaves a published version without matching evidence. */
  lemma EitherTriggerAloneFails()
    ensures Consistent(SAMPLE_TABLES) && PublishedAreBacked(SAMPLE_TABLES)
    ensures PassesConstraints(SAMPLE_TABLES, FAILED_EVIDENCE) && !PublishedAreBacked(Effect(SAMPLE_TABLES, FAILED_EVIDENCE))
    ensures PassesConstraints(SAMPLE_TABLES, OTHER_SOURCE) && !PublishedAreBacked(Effect(SAMPLE_TABLES, OTHER_SOURCE))
  {
    EvidenceUpdateUnbacks();
    VersionUpdateUnbacks();
  }
}
