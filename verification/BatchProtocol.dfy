/** The checkpointed batch loop as a protocol over one persisted checkpoint and one lease. Attempts may
    crash, be paused, lose their lease and go on without it, and overlap with later attempts
    (backend/src/long_invest/bootstrap/backtest_postgres_jobs.py, with the lease rules of
    backend/src/long_invest/platform/jobs/postgres_service.py). */
module BatchProtocol {
  import opened Wrappers

  /** `total` items run in chunks of `width`; `recoverFlag` is the job's configured `recover`. */
  datatype Setup = Setup(total: nat, width: nat, recoverFlag: bool)

  type Token = nat

  /** One execution of the handler: claimed at checkpoint `from`, now at the chunk beginning at `start` of
      which `begun` items have been started. `refused` records that a progress report returned nothing. */
  datatype Attempt = Attempt(from: nat, start: nat, begun: nat, recover: bool, refused: bool, over: bool)

  /** An item start, with what held at that moment: the attempt's own claim point, whether it held the
      lease, and the persisted checkpoint. */
  datatype Start = Start(token: Token, index: nat, recover: bool, from: nat, held: bool, checkpoint: nat)

  datatype State = State(checkpoint: nat, lease: Option<Token>, attempts: map<Token, Attempt>, log: seq<Start>)

  datatype Event =
    | Claim(token: Token)
    | BeginItem(token: Token)
    | Report(token: Token, stop: bool)
    | Die(token: Token)
    | LoseLease

  predicate SetupOk(u: Setup) {
    u.total > 0 && u.width > 0
  }

  function ChunkEnd(u: Setup, start: nat): nat {
    if start + u.width < u.total then start + u.width else u.total
  }

  predicate Active(s: State, t: Token) {
    t in s.attempts && !s.attempts[t].over
  }

  predicate Enabled(u: Setup, s: State, e: Event) {
    match e
    case Claim(t) => s.lease.None? && t !in s.attempts
    case BeginItem(t) => Active(s, t) && s.attempts[t].start + s.attempts[t].begun < ChunkEnd(u, s.attempts[t].start)
    case Report(t, _) =>
      && Active(s, t) && s.attempts[t].begun > 0
      && s.attempts[t].start + s.attempts[t].begun == ChunkEnd(u, s.attempts[t].start)
    case Die(t) => Active(s, t)
    case LoseLease => s.lease.Some?
  }

  function NextChunk(u: Setup, a: Attempt, refused: bool): Attempt {
    a.(start := ChunkEnd(u, a.start), begun := 0, recover := false, refused := a.refused || refused)
  }

  function Execute(u: Setup, s: State, e: Event): State {
    if !Enabled(u, s, e) then s
    else
      match e
      case Claim(t) =>
        s.(lease := Some(t),
           attempts := s.attempts[t := Attempt(s.checkpoint, s.checkpoint, 0, u.recoverFlag || s.checkpoint > 0, false, false)])
      case BeginItem(t) =>
        var a := s.attempts[t];
        s.(attempts := s.attempts[t := a.(begun := a.begun + 1)],
           log := s.log + [Start(t, a.start + a.begun, a.recover, a.from, s.lease == Some(t), s.checkpoint)])
      case Report(t, stop) =>
        var a := s.attempts[t];
        if s.lease == Some(t) then
          var moved := NextChunk(u, a, false);
          if stop then s.(checkpoint := moved.start, lease := None, attempts := s.attempts[t := moved.(over := true)])
          else s.(checkpoint := moved.start, attempts := s.attempts[t := moved])
        else s.(attempts := s.attempts[t := NextChunk(u, a, true)])
      case Die(t) => s.(attempts := s.attempts[t := s.attempts[t].(over := true)])
      case LoseLease => s.(lease := None)
  }

  function Run(u: Setup, s: State, es: seq<Event>): State
    decreases |es|
  {
    if |es| == 0 then s else Run(u, Execute(u, s, es[0]), es[1..])
  }

  const FRESH := State(0, None, map[], [])

  lemma {:induction false} RunConcat(u: Setup, s: State, a: seq<Event>, b: seq<Event>)
    ensures Run(u, s, a + b) == Run(u, Run(u, s, a), b)
    decreases |a|
  {
    if |a| == 0 {
      assert a + b == b;
    } else {
      assert (a + b)[1..] == a[1..] + b;
      RunConcat(u, Execute(u, s, a[0]), a[1..], b);
    }
  }

  lemma RunSnoc(u: Setup, s: State, es: seq<Event>, e: Event)
    ensures Run(u, s, es + [e]) == Execute(u, Run(u, s, es), e)
  {
    RunConcat(u, s, es, [e]);
    assert Run(u, Execute(u, Run(u, s, es), e), []) == Execute(u, Run(u, s, es), e);
  }

  // ----- what every event keeps -----

  predicate Boundary(u: Setup, n: nat)
    requires SetupOk(u)
  {
    n == u.total || (n < u.total && n % u.width == 0)
  }

  lemma MulMonotone(a: nat, b: nat, c: nat)
    requires a <= b
    ensures a * c <= b * c
  {
  }

  lemma MulStep(a: nat, c: nat)
    ensures (a + 1) * c == a * c + c
  {
  }

  lemma NextBoundary(u: Setup, n: nat)
    requires SetupOk(u) && Boundary(u, n) && n < u.total
    ensures Boundary(u, ChunkEnd(u, n)) && n < ChunkEnd(u, n)
  {
    var w := u.width;
    var k, l, r := n / w, (n + w) / w, (n + w) % w;
    assert n == k * w && n + w == l * w + r && 0 <= r < w;
    MulStep(k, w);
    if l <= k { MulMonotone(l, k, w); }
    if k + 1 < l { MulMonotone(k + 2, l, w); MulStep(k + 1, w); }
  }

  /** Two boundaries are the same or at least a chunk apart. */
  lemma BoundariesApart(u: Setup, m: nat, n: nat)
    requires SetupOk(u) && Boundary(u, m) && Boundary(u, n) && m < n
    ensures ChunkEnd(u, m) <= n
  {
    if n < u.total {
      var k, l := m / u.width, n / u.width;
      assert m == k * u.width && n == l * u.width;
      if l <= k { MulMonotone(l, k, u.width); }
      MulMonotone(k + 1, l, u.width);
      MulStep(k, u.width);
    }
  }

  predicate AttemptOk(u: Setup, a: Attempt)
    requires SetupOk(u)
  {
    && Boundary(u, a.from) && Boundary(u, a.start) && a.from <= a.start
    && a.start + a.begun <= ChunkEnd(u, a.start)
    && (a.recover <==> (u.recoverFlag || a.from > 0) && a.start == a.from)
  }

  predicate Reached(log: seq<Start>, i: nat) {
    exists j :: 0 <= j < |log| && log[j].index == i
  }

  predicate EntryOk(u: Setup, e: Start) {
    && (e.recover <==> (u.recoverFlag || e.from > 0) && e.index < e.from + u.width)
    && e.from <= e.index < u.total
    && (e.held ==> e.checkpoint <= e.index < e.checkpoint + u.width)
  }

  predicate Inv(u: Setup, s: State)
    requires SetupOk(u)
  {
    && Boundary(u, s.checkpoint)
    && (forall t | t in s.attempts :: AttemptOk(u, s.attempts[t]))
    && (forall t | t in s.attempts && !s.attempts[t].refused :: s.attempts[t].start <= s.checkpoint)
    && (s.lease.Some? ==> s.lease.value in s.attempts && s.attempts[s.lease.value].start == s.checkpoint
                          && !s.attempts[s.lease.value].refused)
    && (forall i | 0 <= i < |s.log| :: EntryOk(u, s.log[i]))
    && (forall i | 0 <= i < s.checkpoint :: Reached(s.log, i))
    && (forall t, i | t in s.attempts && 0 <= i < s.attempts[t].start + s.attempts[t].begun :: Reached(s.log, i))
  }

  lemma ReachedGrows(log: seq<Start>, e: Start)
    ensures forall i | Reached(log, i) :: Reached(log + [e], i)
    ensures Reached(log + [e], e.index)
  {
    forall i | Reached(log, i) ensures Reached(log + [e], i) {
      var j :| 0 <= j < |log| && log[j].index == i;
      assert (log + [e])[j].index == i;
    }
    assert (log + [e])[|log|] == e;
  }

  lemma FirstChunkIffRecover(u: Setup, a: Attempt)
    requires SetupOk(u) && AttemptOk(u, a) && a.start + a.begun < ChunkEnd(u, a.start)
    ensures a.start == a.from <==> a.start + a.begun < a.from + u.width
  {
    if a.from < a.start { BoundariesApart(u, a.from, a.start); }
  }

  lemma BeginKeepsInvariant(u: Setup, s: State, t: Token)
    requires SetupOk(u) && Inv(u, s) && Enabled(u, s, BeginItem(t))
    ensures Inv(u, Execute(u, s, BeginItem(t)))
  {
    var a := s.attempts[t];
    var v := Execute(u, s, BeginItem(t));
    var e := v.log[|s.log|];
    FirstChunkIffRecover(u, a);
    ReachedGrows(s.log, e);
    assert EntryOk(u, e);
    forall r, i | r in v.attempts && 0 <= i < v.attempts[r].start + v.attempts[r].begun
      ensures Reached(v.log, i)
    {
      if r == t && i == a.start + a.begun { assert i == e.index; } else { assert Reached(s.log, i); }
    }
  }

  lemma HeldReportKeepsInvariant(u: Setup, s: State, t: Token, stop: bool)
    requires SetupOk(u) && Inv(u, s) && Enabled(u, s, Report(t, stop)) && s.lease == Some(t)
    ensures Inv(u, Execute(u, s, Report(t, stop)))
    ensures s.checkpoint < Execute(u, s, Report(t, stop)).checkpoint
  {
    var a := s.attempts[t];
    NextBoundary(u, a.start);
    var v := Execute(u, s, Report(t, stop));
    forall i | 0 <= i < v.checkpoint ensures Reached(v.log, i) {
      assert 0 <= i < a.start + a.begun;
    }
  }

  lemma RefusedReportKeepsInvariant(u: Setup, s: State, t: Token, stop: bool)
    requires SetupOk(u) && Inv(u, s) && Enabled(u, s, Report(t, stop)) && s.lease != Some(t)
    ensures Inv(u, Execute(u, s, Report(t, stop)))
  {
    NextBoundary(u, s.attempts[t].start);
  }

  lemma EventKeepsInvariant(u: Setup, s: State, e: Event)
    requires SetupOk(u) && Inv(u, s)
    ensures Inv(u, Execute(u, s, e)) && s.checkpoint <= Execute(u, s, e).checkpoint
  {
    if Enabled(u, s, e) {
      match e
      case Claim(t) =>
      case BeginItem(t) => BeginKeepsInvariant(u, s, t);
      case Report(t, stop) =>
        if s.lease == Some(t) { HeldReportKeepsInvariant(u, s, t, stop); } else { RefusedReportKeepsInvariant(u, s, t, stop); }
      case Die(t) =>
      case LoseLease =>
    }
  }

  lemma {:induction false} RunKeepsInvariant(u: Setup, s: State, es: seq<Event>)
    requires SetupOk(u) && Inv(u, s)
    ensures Inv(u, Run(u, s, es)) && s.checkpoint <= Run(u, s, es).checkpoint
    decreases |es|
  {
    if |es| > 0 {
      EventKeepsInvariant(u, s, es[0]);
      RunKeepsInvariant(u, Execute(u, s, es[0]), es[1..]);
    }
  }

  // ----- theorems over every run -----

  /** In every run, overlapping and stale attempts included: the checkpoint only grows and is always a
      chunk boundary, everything below it was started, and whoever starts an item while holding the lease
      starts it inside the chunk at the checkpoint, never below. */
  lemma CheckpointSafety(u: Setup, es: seq<Event>, n: nat)
    requires SetupOk(u) && n <= |es|
    ensures var s, v := Run(u, FRESH, es[..n]), Run(u, FRESH, es);
            && s.checkpoint <= v.checkpoint && Boundary(u, v.checkpoint)
            && (forall i | 0 <= i < v.checkpoint :: Reached(v.log, i))
            && (forall j | 0 <= j < |v.log| && v.log[j].held ::
                  v.log[j].checkpoint <= v.log[j].index < v.log[j].checkpoint + u.width)
  {
    assert es == es[..n] + es[n..];
    RunConcat(u, FRESH, es[..n], es[n..]);
    RunKeepsInvariant(u, FRESH, es[..n]);
    RunKeepsInvariant(u, Run(u, FRESH, es[..n]), es[n..]);
  }

  /** An attempt has passed every key below its position: each was started, by it or by an earlier attempt.
      So one that ran to the end has passed them all, whether or not it still held its lease, and so has a
      batch whose checkpoint is at the end. */
  lemma CompleteMeansAllStarted(u: Setup, es: seq<Event>)
    requires SetupOk(u)
    ensures var v := Run(u, FRESH, es);
            && (forall t, i | t in v.attempts && 0 <= i < v.attempts[t].start + v.attempts[t].begun :: Reached(v.log, i))
            && ((v.checkpoint == u.total || exists t :: t in v.attempts && v.attempts[t].start == u.total) ==>
                forall i | 0 <= i < u.total :: Reached(v.log, i))
  {
    RunKeepsInvariant(u, FRESH, es);
  }

  /** An item is recovered exactly when it lies in the first chunk of an attempt that was configured to
      recover or was claimed at a positive checkpoint; every later chunk of the attempt is run fresh. */
  lemma RecoveredIffFirstChunk(u: Setup, es: seq<Event>)
    requires SetupOk(u)
    ensures forall j | 0 <= j < |Run(u, FRESH, es).log| ::
              var e := Run(u, FRESH, es).log[j];
              e.recover <==> (u.recoverFlag || e.from > 0) && e.index < e.from + u.width
  {
    RunKeepsInvariant(u, FRESH, es);
  }

  // ----- started items and the window above the checkpoint -----

  /** No item beyond the chunk at the checkpoint has been started. */
  predicate Window(u: Setup, s: State) {
    forall j | 0 <= j < |s.log| :: s.log[j].index < s.checkpoint + u.width
  }

  /** Starting an item keeps the window exactly when the attempt has not moved past the checkpoint. */
  lemma BeginKeepsWindowIff(u: Setup, s: State, t: Token)
    requires SetupOk(u) && Inv(u, s) && Window(u, s) && Enabled(u, s, BeginItem(t))
    ensures Window(u, Execute(u, s, BeginItem(t))) <==> s.attempts[t].start <= s.checkpoint
  {
    var a := s.attempts[t];
    var v := Execute(u, s, BeginItem(t));
    assert v.log[|s.log|].index == a.start + a.begun;
    if s.checkpoint < a.start { BoundariesApart(u, s.checkpoint, a.start); }
  }

  /** An attempt moves past the checkpoint in one way only: it reports a chunk, gets nothing back because
      it no longer holds the lease, and carries on. */
  lemma PassesCheckpointOnlyWhenRefused(u: Setup, s: State, e: Event, t: Token)
    requires SetupOk(u) && Inv(u, s) && t in s.attempts && s.attempts[t].start <= s.checkpoint
    requires t in Execute(u, s, e).attempts
    ensures Execute(u, s, e).attempts[t].start > Execute(u, s, e).checkpoint
            <==> e.Report? && e.token == t && Enabled(u, s, e) && s.lease != Some(t) && s.attempts[t].start == s.checkpoint
  {
    EventKeepsInvariant(u, s, e);
    if e.Report? && e.token == t && Enabled(u, s, e) {
      var a := s.attempts[t];
      NextBoundary(u, a.start);
      if s.lease != Some(t) && a.start < s.checkpoint { BoundariesApart(u, a.start, s.checkpoint); }
    }
  }

  /** No attempt starts an item after a progress report returned nothing. */
  predicate StopsWhenRefused(u: Setup, s: State, es: seq<Event>)
    decreases |es|
  {
    |es| == 0 ||
    (&& (es[0].BeginItem? && Enabled(u, s, es[0]) ==> !s.attempts[es[0].token].refused)
     && StopsWhenRefused(u, Execute(u, s, es[0]), es[1..]))
  }

  /** If attempts stopped once refused, started items would always lie below checkpoint + width. */
  lemma {:induction false} WindowWhenStopping(u: Setup, s: State, es: seq<Event>)
    requires SetupOk(u) && Inv(u, s) && Window(u, s) && StopsWhenRefused(u, s, es)
    ensures Window(u, Run(u, s, es))
    decreases |es|
  {
    if |es| > 0 {
      EventKeepsInvariant(u, s, es[0]);
      if es[0].BeginItem? && Enabled(u, s, es[0]) { BeginKeepsWindowIff(u, s, es[0].token); }
      WindowWhenStopping(u, Execute(u, s, es[0]), es[1..]);
    }
  }

  /** The code does not stop: a report that returns nothing is treated like a report that says running. An
      attempt that loses its lease during its first chunk starts the second one with nothing persisted. */
  lemma RefusedAttemptLeavesWindow()
    ensures exists es :: !Window(Setup(2, 1, false), Run(Setup(2, 1, false), FRESH, es))
  {
    var u := Setup(2, 1, false);
    var s1 := Execute(u, FRESH, Claim(0));
    var s2 := Execute(u, s1, BeginItem(0));
    var s3 := Execute(u, s2, LoseLease);
    var s4 := Execute(u, s3, Report(0, false));
    var s5 := Execute(u, s4, BeginItem(0));
    var es := [Claim(0), BeginItem(0), LoseLease, Report(0, false), BeginItem(0)];
    assert Run(u, s5, []) == s5;
    assert Run(u, s4, [BeginItem(0)]) == s5;
    assert es[1..][1..][1..][1..] == [BeginItem(0)];
    assert Run(u, FRESH, es) == s5;
    assert s5.log[1].index == 1 && s5.checkpoint == 0;
  }

  // ----- restarts -----

  /** Every restart of an already started item is a recovery, except in a first chunk claimed at checkpoint
      0 without the configured recover flag, which runs its items again. */
  predicate RestartsRecovered(u: Setup, log: seq<Start>) {
    forall i, j | 0 <= i < j < |log| && log[i].index == log[j].index ::
      log[j].recover || (log[j].from == 0 && log[j].index < u.width && !u.recoverFlag)
  }

  /** What is logged so far, seen from the lease: an attempt beyond its first chunk has nothing above its
      own position. */
  predicate LogBelowHolder(u: Setup, s: State) {
    s.lease.Some? && s.lease.value in s.attempts ==>
      var a := s.attempts[s.lease.value];
      a.from < a.start ==> forall j | 0 <= j < |s.log| :: s.log[j].index < a.start + a.begun
  }

  /** Items are started only under the lease. */
  predicate AllHeld(u: Setup, s: State, es: seq<Event>)
    decreases |es|
  {
    |es| == 0 ||
    (&& (es[0].BeginItem? && Enabled(u, s, es[0]) ==> s.lease == Some(es[0].token))
     && AllHeld(u, Execute(u, s, es[0]), es[1..]))
  }

  lemma HeldBeginKeepsRestarts(u: Setup, s: State, t: Token)
    requires SetupOk(u) && Inv(u, s) && Enabled(u, s, BeginItem(t)) && s.lease == Some(t)
    requires Window(u, s) && LogBelowHolder(u, s) && RestartsRecovered(u, s.log)
    ensures var v := Execute(u, s, BeginItem(t));
            LogBelowHolder(u, v) && RestartsRecovered(u, v.log)
  {
    var a := s.attempts[t];
    var v := Execute(u, s, BeginItem(t));
    FirstChunkIffRecover(u, a);
    forall i, j | 0 <= i < j < |v.log| && v.log[i].index == v.log[j].index
      ensures v.log[j].recover || (v.log[j].from == 0 && v.log[j].index < u.width && !u.recoverFlag)
    {
      if j < |s.log| { assert v.log[i] == s.log[i] && v.log[j] == s.log[j]; }
      else { assert v.log[i] == s.log[i]; }
    }
  }

  lemma HeldReportKeepsBelow(u: Setup, s: State, t: Token, stop: bool)
    requires SetupOk(u) && Inv(u, s) && Enabled(u, s, Report(t, stop)) && Window(u, s) && LogBelowHolder(u, s)
    ensures LogBelowHolder(u, Execute(u, s, Report(t, stop)))
  {
    var a := s.attempts[t];
    NextBoundary(u, a.start);
    if s.lease == Some(t) && a.from == a.start {
      assert forall j | 0 <= j < |s.log| :: s.log[j].index < u.total;
    }
  }

  lemma HeldEventKeepsDiscipline(u: Setup, s: State, e: Event)
    requires SetupOk(u) && Inv(u, s) && Enabled(u, s, e) && (e.BeginItem? ==> s.lease == Some(e.token))
    requires Window(u, s) && LogBelowHolder(u, s) && RestartsRecovered(u, s.log)
    ensures var v := Execute(u, s, e); Window(u, v) && LogBelowHolder(u, v) && RestartsRecovered(u, v.log)
  {
    EventKeepsInvariant(u, s, e);
    match e
    case BeginItem(t) =>
      HeldBeginKeepsRestarts(u, s, t);
      BeginKeepsWindowIff(u, s, t);
    case Report(t, stop) => HeldReportKeepsBelow(u, s, t, stop);
    case Claim(t) =>
    case Die(t) =>
    case LoseLease =>
  }

  /** In every run in which items are started under the lease only: a chunk started but not checkpointed by
      an earlier attempt is started again only as the first chunk of a later attempt, where it is recovered,
      or run again in the one exceptional case. */
  lemma {:induction false} RestartDiscipline(u: Setup, s: State, es: seq<Event>)
    requires SetupOk(u) && Inv(u, s) && AllHeld(u, s, es)
    requires Window(u, s) && LogBelowHolder(u, s) && RestartsRecovered(u, s.log)
    ensures Window(u, Run(u, s, es)) && RestartsRecovered(u, Run(u, s, es).log)
    decreases |es|
  {
    if |es| > 0 {
      EventKeepsInvariant(u, s, es[0]);
      if Enabled(u, s, es[0]) { HeldEventKeepsDiscipline(u, s, es[0]); }
      RestartDiscipline(u, Execute(u, s, es[0]), es[1..]);
    }
  }

  /** The next attempt starts at the checkpoint, recovering when that is positive or recovery was configured. Its
      first chunk holds everything earlier attempts started and left unfinished exactly when nothing was started
      beyond the window. */
  lemma NextAttemptTakesUnfinishedChunk(u: Setup, s: State, t: Token)
    requires SetupOk(u) && Inv(u, s) && Enabled(u, s, Claim(t))
    ensures var a := Execute(u, s, Claim(t)).attempts[t];
            && a.from == a.start == s.checkpoint && (a.recover <==> u.recoverFlag || s.checkpoint > 0)
            && ((forall j | 0 <= j < |s.log| && s.log[j].index >= s.checkpoint :: s.log[j].index < ChunkEnd(u, a.start)) <==>
                Window(u, s))
  {
    assert forall j | 0 <= j < |s.log| :: EntryOk(u, s.log[j]);
  }

  /** From a new job. */
  lemma RestartDisciplineFromStart(u: Setup, es: seq<Event>)
    requires SetupOk(u) && AllHeld(u, FRESH, es)
    ensures var v := Run(u, FRESH, es);
            && RestartsRecovered(u, v.log)
            && forall j | 0 <= j < |v.log| :: v.log[j].index < v.checkpoint + u.width
  {
    RestartDiscipline(u, FRESH, es);
  }

  // ----- restarts without the lease -----

  /** The attempt is beyond its first chunk and its next item was started before. */
  predicate RestartsUnrecovered(s: State, t: Token)
    requires t in s.attempts
  {
    var a := s.attempts[t];
    a.from < a.start && Reached(s.log, a.start + a.begun)
  }

  /** Starting an item keeps the restart discipline exactly when the attempt, leased or not, does not come
      upon a started item beyond its first chunk. */
  lemma BeginKeepsRestartsIff(u: Setup, s: State, t: Token)
    requires SetupOk(u) && Inv(u, s) && RestartsRecovered(u, s.log) && Enabled(u, s, BeginItem(t))
    ensures RestartsRecovered(u, Execute(u, s, BeginItem(t)).log) <==> !RestartsUnrecovered(s, t)
  {
    var a := s.attempts[t];
    var log := Execute(u, s, BeginItem(t)).log;
    var e := log[|s.log|];
    FirstChunkIffRecover(u, a);
    assert forall i | 0 <= i < |s.log| :: log[i] == s.log[i];
    if RestartsUnrecovered(s, t) {
      var i :| 0 <= i < |s.log| && s.log[i].index == e.index;
      assert log[i].index == log[|s.log|].index;
    }
  }

  /** An attempt starts an item below the checkpoint exactly when it has fallen behind the checkpoint, and
      one beyond the window exactly when it has passed it. */
  lemma BeginsOffCheckpointIff(u: Setup, s: State, t: Token)
    requires SetupOk(u) && Inv(u, s) && Enabled(u, s, BeginItem(t))
    ensures var e := Execute(u, s, BeginItem(t)).log[|s.log|];
            && (e.index < e.checkpoint <==> s.attempts[t].start < s.checkpoint)
            && (e.index >= e.checkpoint + u.width <==> s.attempts[t].start > s.checkpoint)
  {
    var a := s.attempts[t];
    if a.start < s.checkpoint { BoundariesApart(u, a.start, s.checkpoint); }
    if s.checkpoint < a.start { BoundariesApart(u, s.checkpoint, a.start); }
  }

  lemma {:induction false} LogGrows(u: Setup, s: State, es: seq<Event>)
    ensures |s.log| <= |Run(u, s, es).log| && Run(u, s, es).log[..|s.log|] == s.log
    decreases |es|
  {
    if |es| > 0 {
      var v := Execute(u, s, es[0]);
      LogGrows(u, v, es[1..]);
      assert s.log == v.log[..|s.log|] == Run(u, v, es[1..]).log[..|v.log|][..|s.log|];
    }
  }

  /** No item is started unrecovered that was started before, outside first chunks. */
  predicate NeverRestartsUnrecovered(u: Setup, s: State, es: seq<Event>)
    decreases |es|
  {
    |es| == 0 ||
    (&& (es[0].BeginItem? && Enabled(u, s, es[0]) ==> !RestartsUnrecovered(s, es[0].token))
     && NeverRestartsUnrecovered(u, Execute(u, s, es[0]), es[1..]))
  }

  /** Over any run, overlapping attempts and lost leases included: every restart is a recovery, or the one
      exception, exactly when no attempt beyond its first chunk ever starts an item that was started before. */
  lemma {:induction false} RestartsRecoveredIff(u: Setup, s: State, es: seq<Event>)
    requires SetupOk(u) && Inv(u, s) && RestartsRecovered(u, s.log)
    ensures RestartsRecovered(u, Run(u, s, es).log) <==> NeverRestartsUnrecovered(u, s, es)
    decreases |es|
  {
    if |es| > 0 {
      var e, v := es[0], Execute(u, s, es[0]);
      EventKeepsInvariant(u, s, e);
      if e.BeginItem? && Enabled(u, s, e) { BeginKeepsRestartsIff(u, s, e.token); }
      if RestartsRecovered(u, v.log) {
        RestartsRecoveredIff(u, v, es[1..]);
      } else {
        LogGrows(u, v, es[1..]);
        BrokenStaysBroken(u, v.log, Run(u, v, es[1..]).log);
      }
    }
  }

  lemma BrokenStaysBroken(u: Setup, a: seq<Start>, b: seq<Start>)
    requires |a| <= |b| && b[..|a|] == a && !RestartsRecovered(u, a)
    ensures !RestartsRecovered(u, b)
  {
    assert forall i | 0 <= i < |a| :: a[i] == b[i];
  }

  /** No started item lay below the checkpoint of its moment. */
  predicate NoneBelow(log: seq<Start>) {
    forall j | 0 <= j < |log| :: log[j].checkpoint <= log[j].index
  }

  predicate NeverBehind(u: Setup, s: State, es: seq<Event>)
    decreases |es|
  {
    |es| == 0 ||
    (&& (es[0].BeginItem? && Enabled(u, s, es[0]) ==> s.checkpoint <= s.attempts[es[0].token].start)
     && NeverBehind(u, Execute(u, s, es[0]), es[1..]))
  }

  /** Over any run: no item below the checkpoint is started exactly when no attempt that has fallen behind
      the checkpoint goes on. */
  lemma {:induction false} NoneBelowIff(u: Setup, s: State, es: seq<Event>)
    requires SetupOk(u) && Inv(u, s) && NoneBelow(s.log)
    ensures NoneBelow(Run(u, s, es).log) <==> NeverBehind(u, s, es)
    decreases |es|
  {
    if |es| > 0 {
      var e, v := es[0], Execute(u, s, es[0]);
      EventKeepsInvariant(u, s, e);
      if e.BeginItem? && Enabled(u, s, e) {
        BeginsOffCheckpointIff(u, s, e.token);
        assert NoneBelow(v.log) <==> v.log[|s.log|].checkpoint <= v.log[|s.log|].index;
      }
      if NoneBelow(v.log) {
        NoneBelowIff(u, v, es[1..]);
      } else {
        LogGrows(u, v, es[1..]);
        assert forall j | 0 <= j < |v.log| :: Run(u, v, es[1..]).log[j] == v.log[j];
      }
    }
  }

  /** Every started item lay below the checkpoint of its moment plus the width. */
  predicate NoneAhead(u: Setup, log: seq<Start>) {
    forall j | 0 <= j < |log| :: log[j].index < log[j].checkpoint + u.width
  }

  predicate NeverAhead(u: Setup, s: State, es: seq<Event>)
    decreases |es|
  {
    |es| == 0 ||
    (&& (es[0].BeginItem? && Enabled(u, s, es[0]) ==> s.attempts[es[0].token].start <= s.checkpoint)
     && NeverAhead(u, Execute(u, s, es[0]), es[1..]))
  }

  /** Over any run: started items lie in the window at the checkpoint, or below it, exactly when no attempt that
      has passed the checkpoint goes on. */
  lemma {:induction false} NoneAheadIff(u: Setup, s: State, es: seq<Event>)
    requires SetupOk(u) && Inv(u, s) && NoneAhead(u, s.log)
    ensures NoneAhead(u, Run(u, s, es).log) <==> NeverAhead(u, s, es)
    decreases |es|
  {
    if |es| > 0 {
      var e, v := es[0], Execute(u, s, es[0]);
      EventKeepsInvariant(u, s, e);
      if e.BeginItem? && Enabled(u, s, e) {
        BeginsOffCheckpointIff(u, s, e.token);
        assert NoneAhead(u, v.log) <==> v.log[|s.log|].index < v.log[|s.log|].checkpoint + u.width;
      }
      if NoneAhead(u, v.log) {
        NoneAheadIff(u, v, es[1..]);
      } else {
        LogGrows(u, v, es[1..]);
        assert forall j | 0 <= j < |v.log| :: Run(u, v, es[1..]).log[j] == v.log[j];
      }
    }
  }

  const LOST_EVENTS := [Claim(0), BeginItem(0), LoseLease, Claim(1), BeginItem(1)]

  const STALE_EVENTS := [Report(1, false), BeginItem(1), Report(1, false), Report(0, false), BeginItem(0)]

  /** Attempt 0 has lost its lease in its first chunk and attempt 1 has taken the chunk over. */
  const LOST_STATE := State(0, Some(1),
    map[0 := Attempt(0, 0, 1, false, false, false), 1 := Attempt(0, 0, 1, false, false, false)],
    [Start(0, 0, false, 0, true, 0), Start(1, 0, false, 0, true, 0)])

  lemma LeaseIsLost()
    ensures Run(Setup(2, 1, false), FRESH, LOST_EVENTS) == LOST_STATE
  {
    var u, es := Setup(2, 1, false), LOST_EVENTS;
    assert es[0..] == es;
    var s1 := Advance(u, FRESH, es, 0);
    var s2 := Advance(u, s1, es, 1);
    var s3 := Advance(u, s2, es, 2);
    var s4 := Advance(u, s3, es, 3);
    var s5 := Advance(u, s4, es, 4);
  }

  lemma StaleAttemptGoesOn()
    ensures var v := Run(Setup(2, 1, false), LOST_STATE, STALE_EVENTS);
            |v.log| == 4 && v.log[2] == Start(1, 1, false, 0, true, 1) && v.log[3] == Start(0, 1, false, 0, false, 2)
  {
    var u, es := Setup(2, 1, false), STALE_EVENTS;
    assert es[0..] == es;
    var s1 := Advance(u, LOST_STATE, es, 0);
    var s2 := Advance(u, s1, es, 1);
    var s3 := Advance(u, s2, es, 2);
    var s4 := Advance(u, s3, es, 3);
    var s5 := Advance(u, s4, es, 4);
  }

  /** Both disciplines can fail: an attempt loses its lease in its first chunk, the next one carries the checkpoint past the
      second, and the first, carrying on, starts the second chunk again, unrecovered and below the checkpoint. */
  lemma StaleAttemptRestarts()
    ensures var v := Run(Setup(2, 1, false), FRESH, LOST_EVENTS + STALE_EVENTS);
            !RestartsRecovered(Setup(2, 1, false), v.log) && !NoneBelow(v.log)
  {
    LeaseIsLost();
    StaleAttemptGoesOn();
    RunConcat(Setup(2, 1, false), FRESH, LOST_EVENTS, STALE_EVENTS);
    var log := Run(Setup(2, 1, false), FRESH, LOST_EVENTS + STALE_EVENTS).log;
    assert log[2].index == log[3].index && !log[3].recover;
  }

  lemma Advance(u: Setup, s: State, es: seq<Event>, i: nat) returns (v: State)
    requires i < |es|
    ensures v == Execute(u, s, es[i]) && Run(u, s, es[i..]) == Run(u, v, es[i + 1..])
  {
    v := Execute(u, s, es[i]);
    assert es[i..][1..] == es[i + 1..];
  }
}
