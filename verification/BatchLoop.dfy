/** The loop of `backtest_batch`, step by step, on the persisted job row
    (backend/src/long_invest/bootstrap/backtest_postgres_jobs.py). */
module BatchLoop {
  import opened Wrappers
  import opened BatchProtocol

  /** What the world does to one chunk: a crash after some of its items were started, or all of them run;
      whether the lease is gone when progress is reported; whether the job was told to stop. */
  datatype ChunkFate = ChunkFate(crashes: bool, begun: nat, leaseLost: bool, stop: bool)

  datatype Outcome = Completed | Stopped | Crashed

  /** How many items of the chunk at `start` are started: all, or with a crash any number up to all. */
  function Begun(u: Setup, start: nat, fate: ChunkFate): (n: nat)
    requires start < u.total
    ensures start + n <= ChunkEnd(u, start)
  {
    var keys := ChunkEnd(u, start) - start;
    if !fate.crashes then keys else if fate.begun < keys then fate.begun else keys
  }

  function Begins(token: Token, n: nat): seq<Event> {
    seq(n, k requires 0 <= k < n => BeginItem(token))
  }

  /** The protocol events of one chunk; `held` says whether the attempt still has the lease. */
  function ChunkScript(u: Setup, token: Token, start: nat, fate: ChunkFate, held: bool): seq<Event>
    requires start < u.total
  {
    Begins(token, Begun(u, start, fate)) +
    if fate.crashes then [Die(token)]
    else (if fate.leaseLost && held then [LoseLease] else []) + [Report(token, fate.stop)]
  }

  /** A report under a lost lease returns nothing, which the loop takes for "carry on". */
  function ChunkOutcome(fate: ChunkFate, held: bool): Outcome {
    if fate.crashes then Crashed else if fate.stop && held && !fate.leaseLost then Stopped else Completed
  }

  /** The fates run out when the process dies. */
  function FirstFate(fates: seq<ChunkFate>): ChunkFate {
    if |fates| == 0 then ChunkFate(true, 0, false, false) else fates[0]
  }

  /** All events of the chunks from `start` on, up to a crash, a stop or the end. */
  function Script(u: Setup, token: Token, start: nat, fates: seq<ChunkFate>, held: bool): seq<Event>
    requires SetupOk(u)
    decreases u.total - start, 1
  {
    if start >= u.total then []
    else ChunkScript(u, token, start, FirstFate(fates), held) + ScriptRest(u, token, start, fates, held)
  }

  function ScriptRest(u: Setup, token: Token, start: nat, fates: seq<ChunkFate>, held: bool): seq<Event>
    requires SetupOk(u) && start < u.total
    decreases u.total - start, 0
  {
    var fate := FirstFate(fates);
    if ChunkOutcome(fate, held) != Completed then []
    else Script(u, token, start + u.width, Later(fates), held && !fate.leaseLost)
  }

  function ScriptOutcome(u: Setup, start: nat, fates: seq<ChunkFate>, held: bool): Outcome
    requires SetupOk(u)
    decreases u.total - start
  {
    if start >= u.total then Completed
    else
      var fate := FirstFate(fates);
      if ChunkOutcome(fate, held) == Completed
      then ScriptOutcome(u, start + u.width, Later(fates), held && !fate.leaseLost) else ChunkOutcome(fate, held)
  }

  /** The starts of `n` items from `start` on. */
  function Starts(token: Token, start: nat, n: nat, recover: bool, from: nat, held: bool, checkpoint: nat): seq<Start> {
    seq(n, k requires 0 <= k < n => Start(token, start + k, recover, from, held, checkpoint))
  }

  /** An execution claimed at `from` has added the starts of the items `from`, `from` + 1 and so on, in this order, the
      first chunk recovered if `recover` says so. */
  predicate AddsStarts(u: Setup, before: seq<Start>, after: seq<Start>, token: Token, from: nat, recover: bool) {
    && |before| <= |after| && after[..|before|] == before
    && forall k | |before| <= k < |after| ::
         && after[k].token == token && after[k].index == from + k - |before| && after[k].from == from
         && (after[k].recover <==> recover && after[k].index < from + u.width)
  }

  lemma MoreStarts(u: Setup, before: seq<Start>, after: seq<Start>, token: Token, from: nat, first: bool,
                   start: nat, n: nat, recover: bool, held: bool, checkpoint: nat)
    requires SetupOk(u) && AddsStarts(u, before, after, token, from, first) && from <= start && |after| - |before| == start - from
    requires if start == from then recover == first && n <= u.width else !recover && start >= from + u.width
    ensures AddsStarts(u, before, after + Starts(token, start, n, recover, from, held, checkpoint), token, from, first)
  {
  }

  function Later(fates: seq<ChunkFate>): seq<ChunkFate> {
    if |fates| == 0 then [] else fates[1..]
  }

  class Job {
    var checkpoint: nat
    var lease: Option<Token>
    var log: seq<Start>
    ghost var attempts: map<Token, Attempt>

    ghost function View(): State
      reads this
    {
      State(checkpoint, lease, attempts, log)
    }

    /** The attempt is about to start the chunk at `start`. */
    ghost predicate AtChunk(token: Token, start: nat, recover: bool, from: nat)
      reads this
    {
      && Active(View(), token)
      && attempts[token].(refused := false) == Attempt(from, start, 0, recover, false, false)
    }

    constructor ()
      ensures View() == FRESH
    {
      checkpoint, lease, log, attempts := 0, None, [], map[];
    }

    /** `report_progress`: nothing when the lease is not the caller's, else whether the job stops. */
    method ReportProgress(u: Setup, token: Token, completed: nat, stop: bool) returns (status: Option<bool>)
      requires Enabled(u, View(), Report(token, stop)) && completed == ChunkEnd(u, attempts[token].start)
      modifies this
      ensures View() == Execute(u, old(View()), Report(token, stop))
      ensures status == if old(lease) == Some(token) then Some(stop) else None
    {
      ghost var moved := NextChunk(u, attempts[token], lease != Some(token));
      if lease != Some(token) {
        attempts := attempts[token := moved];
        return None;
      }
      checkpoint := completed;
      if stop {
        lease := None;
        attempts := attempts[token := moved.(over := true)];
      } else {
        attempts := attempts[token := moved];
      }
      status := Some(stop);
    }

    /** The items of one chunk, started one after the other. */
    method BeginItems(u: Setup, token: Token, start: nat, count: nat, recover: bool, from: nat)
      requires start + count <= ChunkEnd(u, start) && AtChunk(token, start, recover, from)
      modifies this
      ensures View() == Run(u, old(View()), Begins(token, count))
      ensures log == old(log) + Starts(token, start, count, recover, from, old(lease) == Some(token), old(checkpoint))
      ensures checkpoint == old(checkpoint) && lease == old(lease)
      ensures attempts == old(attempts)[token := old(attempts)[token].(begun := count)]
    {
      var k := 0;
      while k < count
        invariant 0 <= k <= count
        invariant View() == Run(u, old(View()), Begins(token, k))
        invariant log == old(log) + Starts(token, start, k, recover, from, old(lease) == Some(token), old(checkpoint))
        invariant checkpoint == old(checkpoint) && lease == old(lease)
        invariant attempts == old(attempts)[token := old(attempts)[token].(begun := k)]
      {
        RunSnoc(u, old(View()), Begins(token, k), BeginItem(token));
        assert Begins(token, k + 1) == Begins(token, k) + [BeginItem(token)];
        log := log + [Start(token, start + k, recover, from, lease == Some(token), checkpoint)];
        attempts := attempts[token := attempts[token].(begun := k + 1)];
        k := k + 1;
      }
      assert attempts[token] == old(attempts)[token].(begun := count);
    }

    /** One chunk: start its items, then report. */
    method RunChunk(u: Setup, token: Token, start: nat, recover: bool, from: nat, fate: ChunkFate) returns (r: Outcome)
      requires SetupOk(u) && start < u.total && AtChunk(token, start, recover, from)
      requires lease.None? || lease == Some(token)
      modifies this
      ensures View() == Run(u, old(View()), ChunkScript(u, token, start, fate, old(lease).Some?))
      ensures log == old(log) + Starts(token, start, Begun(u, start, fate), recover, from, old(lease).Some?, old(checkpoint))
      ensures r == ChunkOutcome(fate, old(lease).Some?)
      ensures r == Completed ==> AtChunk(token, ChunkEnd(u, start), false, from)
      ensures r == Completed ==> lease == if old(lease).Some? && !fate.leaseLost then Some(token) else None
      ensures r == Stopped ==> lease.None? && checkpoint == ChunkEnd(u, start)
    {
      ghost var before, held := View(), lease.Some?;
      ghost var es := Begins(token, Begun(u, start, fate));
      BeginItems(u, token, start, Begun(u, start, fate), recover, from);
      if fate.crashes {
        RunSnoc(u, before, es, Die(token));
        attempts := attempts[token := attempts[token].(over := true)];
        return Crashed;
      }
      if fate.leaseLost && lease.Some? {
        RunSnoc(u, before, es, LoseLease);
        lease := None;
        es := es + [LoseLease];
      }
      RunSnoc(u, before, es, Report(token, fate.stop));
      var status := ReportProgress(u, token, ChunkEnd(u, start), fate.stop);
      assert ChunkScript(u, token, start, fate, held) == es + [Report(token, fate.stop)];
      r := if status == Some(true) then Stopped else Completed;
    }

    /** The worker's claim: the attempt begins at the persisted checkpoint. */
    method ClaimJob(u: Setup, token: Token) returns (recover: bool)
      requires lease.None? && token !in attempts
      modifies this
      ensures View() == Execute(u, old(View()), Claim(token))
      ensures AtChunk(token, checkpoint, recover, checkpoint) && (recover <==> u.recoverFlag || checkpoint > 0)
    {
      recover := u.recoverFlag || checkpoint > 0;
      lease := Some(token);
      attempts := attempts[token := Attempt(checkpoint, checkpoint, 0, recover, false, false)];
    }

    /** One claimed execution of the handler. What it does to the job is the run of the protocol that its
        chunks' fates spell out; when it completes, with or without its lease, every item was started, and
        with the lease the checkpoint is at the end. */
    method BacktestBatch(u: Setup, token: Token, fates: seq<ChunkFate>) returns (r: Outcome)
      requires SetupOk(u) && Inv(u, View()) && lease.None? && token !in attempts
      modifies this
      ensures View() == Run(u, old(View()), [Claim(token)] + Script(u, token, old(checkpoint), fates, true))
      ensures r == ScriptOutcome(u, old(checkpoint), fates, true)
      ensures AddsStarts(u, old(log), log, token, old(checkpoint), u.recoverFlag || old(checkpoint) > 0)
      ensures r == Completed ==> |log| == |old(log)| + u.total - old(checkpoint)
      ensures Inv(u, View()) && old(checkpoint) <= checkpoint
      ensures r == Completed ==> forall i | 0 <= i < u.total :: Reached(log, i)
      ensures r == Completed && lease == Some(token) ==> checkpoint == u.total
      ensures r == Stopped ==> lease.None? && old(checkpoint) < checkpoint
    {
      ghost var script := Script(u, token, checkpoint, fates, true);
      RunKeepsInvariant(u, View(), [Claim(token)] + script);
      assert ([Claim(token)] + script)[1..] == script;
      var recover := ClaimJob(u, token);
      r := RunChunks(u, token, recover, fates);
    }

    /** The first of the chunks that are left, within the execution that began at `from`. */
    method RunNextChunk(u: Setup, token: Token, start: nat, recover: bool, from: nat, recoverFirst: bool, left: seq<ChunkFate>,
                        ghost before: seq<Start>) returns (r: Outcome)
      requires SetupOk(u) && from <= start < u.total && AtChunk(token, start, recover, from)
      requires lease.None? || lease == Some(token)
      requires AddsStarts(u, before, log, token, from, recoverFirst) && |log| == |before| + start - from
      requires if start == from then recover == recoverFirst else !recover && start >= from + u.width
      modifies this
      ensures Run(u, old(View()), Script(u, token, start, left, old(lease).Some?)) ==
                if r == Completed then Run(u, View(), Script(u, token, start + u.width, Later(left), lease.Some?)) else View()
      ensures ScriptOutcome(u, start, left, old(lease).Some?) ==
                if r == Completed then ScriptOutcome(u, start + u.width, Later(left), lease.Some?) else r
      ensures AddsStarts(u, before, log, token, from, recoverFirst)
      ensures r == Completed ==> |log| == |before| + ChunkEnd(u, start) - from
      ensures r == Completed ==> AtChunk(token, ChunkEnd(u, start), false, from) && (lease.None? || lease == Some(token))
      ensures r == Stopped ==> lease.None? && checkpoint == ChunkEnd(u, start)
    {
      ScriptStep(u, View(), token, start, left, lease.Some?);
      MoreStarts(u, before, log, token, from, recoverFirst, start, Begun(u, start, FirstFate(left)), recover, lease.Some?, checkpoint);
      r := RunChunk(u, token, start, recover, from, FirstFate(left));
    }

    method RunChunks(u: Setup, token: Token, recoverFirst: bool, fates: seq<ChunkFate>) returns (r: Outcome)
      requires SetupOk(u) && checkpoint <= u.total && lease == Some(token)
      requires AtChunk(token, checkpoint, recoverFirst, checkpoint)
      modifies this
      ensures View() == Run(u, old(View()), Script(u, token, old(checkpoint), fates, true))
      ensures r == ScriptOutcome(u, old(checkpoint), fates, true)
      ensures AddsStarts(u, old(log), log, token, old(checkpoint), recoverFirst)
      ensures r == Completed ==> |log| == |old(log)| + u.total - old(checkpoint)
      ensures r == Completed ==> token in attempts && attempts[token].start == u.total
      ensures r == Stopped ==> lease.None? && old(checkpoint) < checkpoint
    {
      ghost var end, outcome := Run(u, View(), Script(u, token, checkpoint, fates, true)), ScriptOutcome(u, checkpoint, fates, true);
      var from, start, recover, left := checkpoint, checkpoint, recoverFirst, fates;
      while start < u.total
        invariant from <= start
        invariant AtChunk(token, if start < u.total then start else u.total, recover, from)
        invariant lease.None? || lease == Some(token)
        invariant end == Run(u, View(), Script(u, token, start, left, lease.Some?))
        invariant outcome == ScriptOutcome(u, start, left, lease.Some?)
        invariant AddsStarts(u, old(log), log, token, from, recoverFirst)
        invariant |log| == |old(log)| + (if start < u.total then start else u.total) - from
        invariant if start == from then recover == recoverFirst else !recover && start >= from + u.width
        decreases u.total - start
      {
        r := RunNextChunk(u, token, start, recover, from, recoverFirst, left, old(log));
        if r != Completed {
          return;
        }
        recover := false;
        start := start + u.width;
        left := Later(left);
      }
      r := Completed;
    }
  }

  lemma ScriptStep(u: Setup, s: State, token: Token, start: nat, fates: seq<ChunkFate>, held: bool)
    requires SetupOk(u) && start < u.total
    ensures var fate := FirstFate(fates);
            Run(u, s, Script(u, token, start, fates, held)) ==
            var t := Run(u, s, ChunkScript(u, token, start, fate, held));
            if ChunkOutcome(fate, held) == Completed
            then Run(u, t, Script(u, token, start + u.width, Later(fates), held && !fate.leaseLost)) else t
  {
    var fate := FirstFate(fates);
    RunConcat(u, s, ChunkScript(u, token, start, fate, held), ScriptRest(u, token, start, fates, held));
  }

  // ----- how an execution ends -----

  /** Left alone, with fates enough for its chunks, an execution completes; losing the lease does not end it. */
  lemma {:induction false} UndisturbedCompletes(u: Setup, start: nat, fates: seq<ChunkFate>, held: bool)
    requires SetupOk(u) && |fates| * u.width >= u.total - start
    requires forall f | f in fates :: !f.crashes && !f.stop
    ensures ScriptOutcome(u, start, fates, held) == Completed
    decreases u.total - start
  {
    if start < u.total {
      assert |fates| > 0 && (|fates| - 1) * u.width == |fates| * u.width - u.width;
      UndisturbedCompletes(u, start + u.width, fates[1..], held && !fates[0].leaseLost);
    }
  }

  /** The first chunk that crashes, or is told to stop under a lease kept until then, ends the execution so; a stop
      reported without the lease is not heard. */
  lemma {:induction false} FirstDisturbanceEnds(u: Setup, start: nat, fates: seq<ChunkFate>, held: bool, n: nat)
    requires SetupOk(u) && n < |fates| && start + n * u.width < u.total
    requires forall i | 0 <= i < n :: !fates[i].crashes && (fates[i].stop ==> !held || exists j :: 0 <= j <= i && fates[j].leaseLost)
    ensures fates[n].crashes ==> ScriptOutcome(u, start, fates, held) == Crashed
    ensures !fates[n].crashes && fates[n].stop && held && (forall j | 0 <= j <= n :: !fates[j].leaseLost) ==>
              ScriptOutcome(u, start, fates, held) == Stopped
    decreases n
  {
    if n > 0 {
      var rest := fates[1..];
      assert n * u.width == (n - 1) * u.width + u.width && (n - 1) * u.width >= 0;
      assert forall i | 0 <= i < |rest| :: rest[i] == fates[i + 1];
      forall i | 0 <= i < n - 1
        ensures !rest[i].crashes && (rest[i].stop ==> !(held && !fates[0].leaseLost) || exists j :: 0 <= j <= i && rest[j].leaseLost)
      {
        if fates[i + 1].stop && held && !fates[0].leaseLost {
          var j :| 0 <= j <= i + 1 && fates[j].leaseLost;
          assert rest[j - 1].leaseLost;
        }
      }
      FirstDisturbanceEnds(u, start + u.width, rest, held && !fates[0].leaseLost, n - 1);
    }
  }
}
