/** The finalize command travels inside each child's JSON configuration. How it is embedded and read back,
    and what reading it from a frozen execution context does
    (backend/src/long_invest/platform/jobs/contracts.py, backend/src/long_invest/bootstrap/backtest_jobs.py). */
module LinkedJob {
  import opened Wrappers
  import opened JsonTree

  datatype LinkError = NotAMapping | MissingField | UnknownField | BadTimeout | NotJson

  /** `SubmitJob`; the fields the constructor does not look at keep whatever value they were given. */
  datatype Submission = Submission(
    jobType: Tree, queue: Tree, scope: Tree, key: Tree, requestId: Tree, config: Tree, priority: Tree,
    objectType: Tree, objectId: Tree, createdBy: Tree, softTimeout: int, hardTimeout: int)

  datatype Link = Link(parent: Tree, itemKey: Tree, completion: Submission)

  type Entries = seq<(Key, Tree)>

  /** `mapping.get(k)`. */
  function Get(es: Entries, k: string): Option<Tree> {
    if |es| == 0 then None
    else if es[0].0 == Key(k, true) then Some(es[0].1)
    else Get(es[1..], k)
  }

  function Or(o: Option<Tree>, default_: Tree): Tree {
    match o case Some(t) => t case None => default_
  }

  const NONE := Leaf(NoneAtom)

  const FIELDS := ["job_type", "queue", "idempotency_scope", "idempotency_key", "request_id", "config_snapshot",
                   "priority", "business_object_type", "business_object_id", "created_by_user_id",
                   "soft_timeout_seconds", "hard_timeout_seconds"]

  // ----- JSON -----

  /** `json.loads(json.dumps(t, allow_nan=False))`, or nothing when `dumps` raises: only dict is an object
      to it, tuples come back as lists. Keys that are not strings do not occur in these configurations. */
  function ThroughJson(t: Tree): Option<Tree>
    decreases t, 0
  {
    match t
    case Leaf(NoneAtom) | Leaf(BoolAtom(_)) | Leaf(IntAtom(_)) | Leaf(StrAtom(_)) => Some(t)
    case Leaf(FloatAtom(_, finite)) => if finite then Some(t) else None
    case Leaf(_) => None
    case Dict(proxy, es) =>
      if proxy || !AllStrings(es) || exists i | 0 <= i < |es| :: ThroughJson(es[i].1).None? then None
      else Some(Dict(false, seq(|es|, i requires 0 <= i < |es| => (es[i].0, ThroughJson(es[i].1).value))))
    case Items(_, ts) =>
      if exists i | 0 <= i < |ts| :: ThroughJson(ts[i]).None? then None
      else Some(Items(false, seq(|ts|, i requires 0 <= i < |ts| => ThroughJson(ts[i]).value)))
  }

  /** `_freeze_value`, applied to every execution context: read-only mappings and tuples at any depth. */
  function FreezeContext(t: Tree): Tree {
    match t
    case Leaf(_) => t
    case Dict(_, es) => Dict(true, seq(|es|, i requires 0 <= i < |es| => (es[i].0, FreezeContext(es[i].1))))
    case Items(_, ts) => Items(true, seq(|ts|, i requires 0 <= i < |ts| => FreezeContext(ts[i])))
  }

  // ----- writing and reading the command -----

  function Field(k: string, t: Tree): (Key, Tree) {
    (Key(k, true), t)
  }

  /** `_job_snapshot`. */
  function JobSnapshot(c: Submission): Tree {
    Dict(false, [
      Field("job_type", c.jobType), Field("queue", c.queue), Field("idempotency_scope", c.scope),
      Field("idempotency_key", c.key), Field("request_id", c.requestId), Field("config_snapshot", c.config),
      Field("priority", c.priority), Field("business_object_type", c.objectType),
      Field("business_object_id", c.objectId), Field("created_by_user_id", c.createdBy),
      Field("soft_timeout_seconds", Leaf(IntAtom(c.softTimeout))),
      Field("hard_timeout_seconds", Leaf(IntAtom(c.hardTimeout)))])
  }

  /** `SubmitJob(**fields)` with its `__post_init__`. */
  function MakeSubmission(es: Entries): Result<Submission, LinkError> {
    if exists i | 0 <= i < |es| :: !es[i].0.isString || es[i].0.text !in FIELDS then Err(UnknownField)
    else if Get(es, "job_type").None? || Get(es, "queue").None? || Get(es, "idempotency_scope").None?
            || Get(es, "idempotency_key").None? || Get(es, "request_id").None? || Get(es, "config_snapshot").None? then
      Err(MissingField)
    else
      var soft := Or(Get(es, "soft_timeout_seconds"), Leaf(IntAtom(30)));
      var hard := Or(Get(es, "hard_timeout_seconds"), Leaf(IntAtom(60)));
      if !(soft.Leaf? && soft.atom.IntAtom? && hard.Leaf? && hard.atom.IntAtom?) then Err(BadTimeout)
      else if !(0 < soft.atom.i <= hard.atom.i <= 86400) then Err(BadTimeout)
      else
        var snapshot := ThroughJson(Get(es, "config_snapshot").value);
        if snapshot.None? || !snapshot.value.Dict? then Err(NotJson)
        else Ok(Submission(
          Get(es, "job_type").value, Get(es, "queue").value, Get(es, "idempotency_scope").value,
          Get(es, "idempotency_key").value, Get(es, "request_id").value, snapshot.value,
          Or(Get(es, "priority"), Leaf(IntAtom(0))), Or(Get(es, "business_object_type"), NONE),
          Or(Get(es, "business_object_id"), NONE), Or(Get(es, "created_by_user_id"), NONE),
          soft.atom.i, hard.atom.i))
  }

  /** `linked_job_item`. */
  function LinkedJobItem(config: Entries): Result<Option<Link>, LinkError> {
    var value := Or(Get(config, "linked_item"), NONE);
    if value == NONE then Ok(None)
    else if !value.Dict? then Err(NotAMapping)
    else
      var completion := Or(Get(value.entries, "completion_job"), NONE);
      if !completion.Dict? then Err(NotAMapping)
      else if Get(value.entries, "parent_job_id").None? || Get(value.entries, "item_key").None? then Err(MissingField)
      else
        match MakeSubmission(completion.entries)
        case Err(e) => Err(e)
        case Ok(c) => Ok(Some(Link(Get(value.entries, "parent_job_id").value, Get(value.entries, "item_key").value, c)))
  }

  /** The entry a coordinator puts into a child's configuration. */
  function LinkedItemField(link: Link): (Key, Tree) {
    Field("linked_item", Dict(false, [
      Field("parent_job_id", link.parent), Field("item_key", link.itemKey),
      Field("completion_job", JobSnapshot(link.completion))]))
  }

  // ----- laws -----

  lemma {:induction false} GetConcat(a: Entries, b: Entries, k: string)
    ensures Get(a + b, k) == if Get(a, k).Some? then Get(a, k) else Get(b, k)
  {
    if |a| == 0 {
      assert a + b == b;
    } else {
      assert (a + b)[1..] == a[1..] + b;
      GetConcat(a[1..], b, k);
    }
  }

  lemma {:induction false} GetAbsent(es: Entries, k: string)
    requires forall i | 0 <= i < |es| :: es[i].0.text != k
    ensures Get(es, k).None?
  {
    if |es| > 0 { GetAbsent(es[1..], k); }
  }

  /** The entries of a snapshot stand under the twelve field names in order. */
  lemma SnapshotKeys(c: Submission)
    ensures var es := JobSnapshot(c).entries;
            |es| == |FIELDS| && forall i | 0 <= i < |es| :: es[i].0 == Key(FIELDS[i], true)
  {
  }

  lemma FieldsDistinct()
    ensures forall i, j | 0 <= i < j < |FIELDS| :: FIELDS[i] != FIELDS[j]
  {
  }

  lemma GetSnapshotAt(c: Submission, i: nat)
    requires i < |FIELDS|
    ensures Get(JobSnapshot(c).entries, FIELDS[i]) == Some(JobSnapshot(c).entries[i].1)
  {
    SnapshotKeys(c);
    FieldsDistinct();
    GetAt(JobSnapshot(c).entries, i);
  }

  lemma GetSnapshot(c: Submission)
    ensures var es := JobSnapshot(c).entries;
            && Get(es, "job_type") == Some(c.jobType) && Get(es, "queue") == Some(c.queue)
            && Get(es, "idempotency_scope") == Some(c.scope) && Get(es, "idempotency_key") == Some(c.key)
            && Get(es, "request_id") == Some(c.requestId) && Get(es, "config_snapshot") == Some(c.config)
            && Get(es, "priority") == Some(c.priority) && Get(es, "business_object_type") == Some(c.objectType)
            && Get(es, "business_object_id") == Some(c.objectId) && Get(es, "created_by_user_id") == Some(c.createdBy)
            && Get(es, "soft_timeout_seconds") == Some(Leaf(IntAtom(c.softTimeout)))
            && Get(es, "hard_timeout_seconds") == Some(Leaf(IntAtom(c.hardTimeout)))
  {
    GetSnapshotAt(c, 0);
    GetSnapshotAt(c, 1);
    GetSnapshotAt(c, 2);
    GetSnapshotAt(c, 3);
    GetSnapshotAt(c, 4);
    GetSnapshotAt(c, 5);
    GetSnapshotAt(c, 6);
    GetSnapshotAt(c, 7);
    GetSnapshotAt(c, 8);
    GetSnapshotAt(c, 9);
    GetSnapshotAt(c, 10);
    GetSnapshotAt(c, 11);
  }

  lemma {:induction false} GetAt(es: Entries, i: nat)
    requires i < |es| && AllStrings(es) && DistinctKeys(es)
    ensures Get(es, es[i].0.text) == Some(es[i].1)
  {
    if i > 0 {
      GetAt(es[1..], i - 1);
      assert es[0].0 != es[i].0;
    }
  }

  /** A configuration that JSON leaves alone. */
  predicate IsJsonObject(t: Tree) {
    t.Dict? && ThroughJson(t) == Some(t)
  }

  /** The embedded command comes back unchanged from the stored configuration of a child, whatever other
      entries surround it. */
  lemma EmbeddedCommandRoundTrip(before: Entries, link: Link, after: Entries)
    requires Get(before, "linked_item").None?
    requires IsJsonObject(link.completion.config)
    requires 0 < link.completion.softTimeout <= link.completion.hardTimeout <= 86400
    ensures LinkedJobItem(before + [LinkedItemField(link)] + after) == Ok(Some(link))
  {
    var config := before + [LinkedItemField(link)] + after;
    GetConcat(before + [LinkedItemField(link)], after, "linked_item");
    GetConcat(before, [LinkedItemField(link)], "linked_item");
    var value := LinkedItemField(link).1;
    assert Get(config, "linked_item") == Some(value);
    GetLink(link);
    SnapshotReadsBack(link.completion);
  }

  lemma SnapshotFieldsKnown(c: Submission)
    ensures var es := JobSnapshot(c).entries;
            !exists i | 0 <= i < |es| :: !es[i].0.isString || es[i].0.text !in FIELDS
  {
    SnapshotKeys(c);
  }

  /** `SubmitJob(**_job_snapshot(c))` is `c`. */
  lemma SnapshotReadsBack(c: Submission)
    requires IsJsonObject(c.config) && 0 < c.softTimeout <= c.hardTimeout <= 86400
    ensures MakeSubmission(JobSnapshot(c).entries) == Ok(c)
  {
    SnapshotFieldsKnown(c);
    GetSnapshot(c);
  }

  /** A command can be built from its snapshot exactly when its timeouts are positive, in order and within a day, and
      its configuration is an object that can be written as JSON. */
  lemma SnapshotReadIff(c: Submission)
    ensures MakeSubmission(JobSnapshot(c).entries).Ok? <==>
              0 < c.softTimeout && c.softTimeout <= c.hardTimeout && c.hardTimeout <= 86400
              && ThroughJson(c.config).Some? && c.config.Dict?
  {
    SnapshotFieldsKnown(c);
    GetSnapshot(c);
  }

  lemma GetLink(link: Link)
    ensures var es := LinkedItemField(link).1.entries;
            && Get(es, "parent_job_id") == Some(link.parent) && Get(es, "item_key") == Some(link.itemKey)
            && Get(es, "completion_job") == Some(JobSnapshot(link.completion))
  {
    var es := LinkedItemField(link).1.entries;
    assert es[0].0.text == "parent_job_id" && es[1].0.text == "item_key" && es[2].0.text == "completion_job";
    GetAt(es, 0);
    GetAt(es, 1);
    GetAt(es, 2);
  }

  lemma {:induction false} GetFrozen(es: Entries, k: string)
    ensures Get(FreezeContext(Dict(false, es)).entries, k)
         == match Get(es, k) case Some(t) => Some(FreezeContext(t)) case None => None
  {
    var fs := FreezeContext(Dict(false, es)).entries;
    if |es| > 0 {
      assert fs[1..] == FreezeContext(Dict(false, es[1..])).entries;
      GetFrozen(es[1..], k);
    }
  }

  /** From a frozen execution context no link can be read whose command carries a configuration object: frozen,
      that object is no longer JSON. */
  lemma FrozenLinkFails(config: Entries, link: Tree, command: Tree, snapshot: Tree)
    requires Get(config, "linked_item") == Some(link) && link.Dict?
    requires Get(link.entries, "completion_job") == Some(command) && command.Dict?
    requires Get(command.entries, "config_snapshot") == Some(snapshot) && snapshot.Dict?
    ensures LinkedJobItem(FreezeContext(Dict(false, config)).entries).Err?
  {
    GetFrozen(config, "linked_item");
    GetFrozen(link.entries, "completion_job");
    GetFrozen(command.entries, "config_snapshot");
    assert FreezeContext(link).entries == FreezeContext(Dict(false, link.entries)).entries;
    assert FreezeContext(command).entries == FreezeContext(Dict(false, command.entries)).entries;
    assert ThroughJson(FreezeContext(snapshot)).None?;
  }

  /** Read from the frozen execution context, a linked item that reads fine from the stored configuration
      is an error: reading succeeds exactly when there is no linked item. */
  lemma FrozenContextReadsIffUnlinked(config: Entries)
    requires LinkedJobItem(config).Ok?
    ensures LinkedJobItem(FreezeContext(Dict(false, config)).entries).Ok? <==> LinkedJobItem(config) == Ok(None)
  {
    GetFrozen(config, "linked_item");
    var link := Or(Get(config, "linked_item"), NONE);
    if link != NONE {
      var command := Or(Get(link.entries, "completion_job"), NONE);
      var snapshot := Get(command.entries, "config_snapshot").value;
      assert snapshot.Dict? by { assert ThroughJson(snapshot).value.Dict?; }
      FrozenLinkFails(config, link, command, snapshot);
    }
  }
}
