/** The dirty flag between enqueuers and a scan in flight, for one path:
    internal/analytics/indexer.go (enqueue, run) over the durable queue of
    internal/analytics/factsindex.go. Every action is one critical section or one
    transaction; writers, enqueuers, direct readers and the worker interleave freely. */
module DirtyHandshake {

  // Where the worker stands with the path. Read carries the version it has read.
  datatype Phase = Idle | Cleared | Read(version: int) | Wrote | Completed

  // disk and row are versions of the file: a write that changes size or time makes a new
  // one. recent and early count the enqueuers between marking and queueing, by whether they
  // marked after the last write. covered says that an enqueue begun after the last write
  // has returned. readers are the versions direct reads are about to publish.
  datatype State = State(
    disk: int,
    row: int,
    queued: bool,
    dirty: bool,
    phase: Phase,
    recent: int,
    early: int,
    covered: bool,
    readers: set<int>)

  datatype Action =
    | Write
    | MarkDirty
    | QueueRecent
    | QueueEarly
    | ClearDirty
    | ReadFile
    | Upsert
    | CompleteScan
    | Requeue
    | Fail
    | CheckRead
    | PublishRead(published: int)
    | Restart

  ghost predicate Enabled(s: State, a: Action) {
    match a
    case QueueRecent => s.recent > 0
    case QueueEarly => s.early > 0
    case ClearDirty => s.phase == Idle && s.queued
    case ReadFile => s.phase == Cleared
    case Upsert => s.phase.Read?
    case CompleteScan => s.phase == Wrote
    case Requeue => s.phase == Completed
    case Fail => s.phase == Cleared || s.phase.Read? || s.phase == Wrote
    case CheckRead => s.row != s.disk
    case PublishRead(v) => v in s.readers
    case _ => true
  }

  ghost function Apply(s: State, a: Action): State {
    match a
    case Write => s.(disk := s.disk + 1, covered := false, early := s.early + s.recent, recent := 0)
    case MarkDirty => s.(dirty := true, recent := s.recent + 1)
    case QueueRecent => s.(queued := true, covered := true, recent := s.recent - 1)
    case QueueEarly => s.(queued := true, early := s.early - 1)
    case ClearDirty => s.(dirty := false, phase := Cleared)
    case ReadFile => s.(phase := Read(s.disk))
    case Upsert => if s.phase.Read? then s.(row := s.phase.version, phase := Wrote) else s
    case CompleteScan => s.(queued := false, phase := Completed)
    case Requeue => s.(queued := s.queued || s.dirty, phase := Idle)
    case Fail => s.(phase := Idle)
    case CheckRead => s.(readers := s.readers + {s.disk})
    case PublishRead(v) => s.(row := v, readers := s.readers - {v})
    case Restart => s.(dirty := false, phase := Idle, recent := 0, early := 0, readers := {})
  }

  /** The promise: a stale row whose last write was followed by an enqueue is queued, or
      dirty with its scan in flight. */
  ghost predicate NoLostUpdate(s: State) {
    s.covered && s.row != s.disk ==> s.queued || (s.dirty && s.phase == Completed)
  }

  /** The flag was set after the last write, whether or not the enqueue has returned. */
  ghost predicate MarkedSinceWrite(s: State) { s.covered || s.recent > 0 }

  ghost predicate Invariant(s: State) {
    && NoLostUpdate(s)
    && (s.phase == Cleared || s.phase.Read? || s.phase == Wrote ==> s.queued)
    && (MarkedSinceWrite(s) && !s.dirty ==>
          match s.phase
          case Idle => s.row == s.disk || s.queued
          case Cleared => true
          case Read(v) => v == s.disk
          case Wrote => s.row == s.disk
          case Completed => s.row == s.disk)
  }

  /** A scan under way or still to come reads the path again, so whatever the row holds
      now will be replaced. */
  ghost predicate ScanComing(s: State) {
    && (s.covered ==> s.queued || (s.dirty && s.phase == Completed))
    && (MarkedSinceWrite(s) && !s.dirty ==> s.phase == Cleared || s.phase.Read? || (s.phase == Idle && s.queued))
  }

  /** When an action is safe: a direct read publishes the version on disk, or one that a
      scan will replace; the process does not stop while the flag is the only trace of an
      enqueue that the row has yet to follow. */
  ghost predicate Careful(s: State, a: Action) {
    match a
    case PublishRead(v) => v == s.disk || ScanComing(s)
    case Restart => !(s.covered && s.row != s.disk && s.phase == Completed && s.dirty && !s.queued)
    case _ => true
  }

  /** An action keeps the invariant if and only if it is careful; all but late reads and
      restarts always are. */
  lemma KeepsInvariantIffCareful(s: State, a: Action)
    requires Invariant(s) && Enabled(s, a)
    ensures Invariant(Apply(s, a)) <==> Careful(s, a)
  {
    match a
    case Upsert =>
      assert s.phase == Read(s.phase.version);
    case _ =>
  }

  ghost function After(s: State, run: seq<Action>): State
    decreases |run|
  {
    if run == [] then s else After(Apply(s, run[0]), run[1..])
  }

  ghost predicate Possible(s: State, run: seq<Action>)
    decreases |run|
  {
    run == [] || (Enabled(s, run[0]) && Possible(Apply(s, run[0]), run[1..]))
  }

  ghost predicate AllCareful(s: State, run: seq<Action>)
    decreases |run|
  {
    run == [] || (Careful(s, run[0]) && AllCareful(Apply(s, run[0]), run[1..]))
  }

  // A file indexed at its current version, nothing under way.
  function Settled(version: int): State { State(version, version, false, false, Idle, 0, 0, false, {}) }

  lemma {:induction false} RunsKeepInvariant(s: State, run: seq<Action>)
    requires Invariant(s) && Possible(s, run) && AllCareful(s, run)
    ensures Invariant(After(s, run))
    decreases |run|
  {
    if run != [] {
      KeepsInvariantIffCareful(s, run[0]);
      hide Invariant, Apply;
      RunsKeepInvariant(Apply(s, run[0]), run[1..]);
    }
  }

  /** No interleaving of writes, enqueues, scans, failed scans and restarts loses an
      update, as long as direct reads and restarts are careful. */
  lemma NoUpdateIsLost(version: int, run: seq<Action>)
    requires Possible(Settled(version), run) && AllCareful(Settled(version), run)
    ensures NoLostUpdate(After(Settled(version), run))
  {
    RunsKeepInvariant(Settled(version), run);
  }

  // The worker on its own: the next action it takes.
  ghost function WorkerAction(s: State): Action {
    match s.phase
    case Idle => ClearDirty
    case Cleared => ReadFile
    case Read(_) => Upsert
    case Wrote => CompleteScan
    case Completed => Requeue
  }

  /** The worker alone, for at most the given number of steps. */
  ghost function Settle(s: State, steps: nat): State
    decreases steps
  {
    if steps == 0 || !Enabled(s, WorkerAction(s)) then s else Settle(Apply(s, WorkerAction(s)), steps - 1)
  }

  /** With writers and enqueuers quiet, a covered row is up to date and the path off the
      queue once the worker has gone round at most twice. */
  lemma CoveredRowsCatchUp(s: State)
    requires Invariant(s) && s.covered
    ensures var end := Settle(s, 10); end.row == end.disk == s.disk && !end.queued && end.phase == Idle
  {
    CatchUpSteps(s, 10);
  }

  // How many worker steps are left: those to the end of this scan, plus a further scan if
  // the path will be queued then.
  ghost function StepsLeft(s: State): nat {
    match s.phase
    case Idle => if s.queued then 5 else 0
    case Cleared => if s.dirty then 9 else 4
    case Read(_) => if s.dirty then 8 else 3
    case Wrote => if s.dirty then 7 else 2
    case Completed => if s.dirty || s.queued then 6 else 1
  }

  lemma {:induction false} CatchUpSteps(s: State, steps: nat)
    requires Invariant(s) && s.covered && StepsLeft(s) <= steps
    ensures var end := Settle(s, steps); end.row == end.disk == s.disk && !end.queued && end.phase == Idle
    decreases steps
  {
    var a := WorkerAction(s);
    if Enabled(s, a) {
      KeepsInvariantIffCareful(s, a);
      assert StepsLeft(Apply(s, a)) < StepsLeft(s);
      CatchUpSteps(Apply(s, a), steps - 1);
    }
  }

  /** A restart keeps the promise if and only if the process was not between completing a
      scan and requeueing a path that was enqueued meanwhile. */
  lemma RestartLosesOnlyTheFlag(s: State)
    requires Invariant(s) && s.covered && s.row != s.disk
    ensures NoLostUpdate(Apply(s, Restart)) <==> !(s.phase == Completed && s.dirty && !s.queued)
  {
  }

  /** A late read breaks the promise at once if and only if it publishes a superseded
      version of a covered row that is neither queued nor about to be requeued. */
  lemma LateReadLosesOnlyUnqueued(s: State, v: int)
    requires Invariant(s) && v in s.readers
    ensures NoLostUpdate(Apply(s, PublishRead(v)))
       <==> v == s.disk || (s.covered ==> s.queued || (s.dirty && s.phase == Completed))
  {
  }

  lemma {:induction false} Extend(s: State, run: seq<Action>, a: Action)
    requires Possible(s, run) && AllCareful(s, run) && Enabled(After(s, run), a) && Careful(After(s, run), a)
    ensures Possible(s, run + [a]) && AllCareful(s, run + [a]) && After(s, run + [a]) == Apply(After(s, run), a)
    decreases |run|
  {
    if run == [] {
      assert run + [a] == [a];
    } else {
      Extend(Apply(s, run[0]), run[1..], a);
      assert (run + [a])[1..] == run[1..] + [a];
    }
  }

  /** One careful step more. */
  lemma Then(s: State, run: seq<Action>, a: Action, next: State) returns (longer: seq<Action>)
    requires Possible(s, run) && AllCareful(s, run) && Enabled(After(s, run), a) && Careful(After(s, run), a)
    requires next == Apply(After(s, run), a)
    ensures Possible(s, longer) && AllCareful(s, longer) && After(s, longer) == next
  {
    Extend(s, run, a);
    longer := run + [a];
  }

  // From a stale row: its enqueue, and a scan that has read the file.
  lemma ScanUnderWay(s: State, before: seq<Action>, now: State) returns (run: seq<Action>)
    requires Possible(s, before) && AllCareful(s, before) && After(s, before) == now
    requires now == State(now.disk, now.row, false, false, Idle, 0, 0, false, now.readers)
    ensures Possible(s, run) && AllCareful(s, run)
    ensures After(s, run) == now.(queued := true, covered := true, phase := Read(now.disk))
  {
    hide Possible, AllCareful, After;
    run := Then(s, before, MarkDirty, now.(dirty := true, recent := 1));
    run := Then(s, run, QueueRecent, now.(dirty := true, queued := true, covered := true));
    run := Then(s, run, ClearDirty, now.(queued := true, covered := true, phase := Cleared));
    run := Then(s, run, ReadFile, now.(queued := true, covered := true, phase := Read(now.disk)));
  }

  /** Such a stop does happen: a write and its enqueue land while the scan holds the older
      version, and the process stops before the worker looks at the flag again. */
  lemma RestartCanLoseAnUpdate(version: int) returns (run: seq<Action>)
    ensures Possible(Settled(version), run) && AllCareful(Settled(version), run)
    ensures var s := After(Settled(version), run); NoLostUpdate(s) && !NoLostUpdate(Apply(s, Restart))
  {
    var v, s := version, Settled(version);
    run := Then(s, [], Write, State(v + 1, v, false, false, Idle, 0, 0, false, {}));
    run := ScanUnderWay(s, run, State(v + 1, v, false, false, Idle, 0, 0, false, {}));
    hide Possible, AllCareful, After;
    run := Then(s, run, Write, State(v + 2, v, true, false, Read(v + 1), 0, 0, false, {}));
    run := Then(s, run, MarkDirty, State(v + 2, v, true, true, Read(v + 1), 1, 0, false, {}));
    run := Then(s, run, QueueRecent, State(v + 2, v, true, true, Read(v + 1), 0, 0, true, {}));
    run := Then(s, run, Upsert, State(v + 2, v + 1, true, true, Wrote, 0, 0, true, {}));
    run := Then(s, run, CompleteScan, State(v + 2, v + 1, false, true, Completed, 0, 0, true, {}));
  }

  /** And so does a late read: its lookup misses after a first write, and it publishes that
      version after a second write has been enqueued and indexed. */
  lemma LateReadCanLoseAnUpdate(version: int) returns (run: seq<Action>)
    ensures Possible(Settled(version), run) && AllCareful(Settled(version), run)
    ensures var s := After(Settled(version), run);
            && Enabled(s, PublishRead(version + 1)) && NoLostUpdate(s)
            && !NoLostUpdate(Apply(s, PublishRead(version + 1)))
  {
    var v, s := version, Settled(version);
    run := Then(s, [], Write, State(v + 1, v, false, false, Idle, 0, 0, false, {}));
    run := Then(s, run, CheckRead, State(v + 1, v, false, false, Idle, 0, 0, false, {v + 1}));
    run := Then(s, run, Write, State(v + 2, v, false, false, Idle, 0, 0, false, {v + 1}));
    run := ScanUnderWay(s, run, State(v + 2, v, false, false, Idle, 0, 0, false, {v + 1}));
    hide Possible, AllCareful, After;
    run := Then(s, run, Upsert, State(v + 2, v + 2, true, false, Wrote, 0, 0, true, {v + 1}));
    run := Then(s, run, CompleteScan, State(v + 2, v + 2, false, false, Completed, 0, 0, true, {v + 1}));
    run := Then(s, run, Requeue, State(v + 2, v + 2, false, false, Idle, 0, 0, true, {v + 1}));
  }
}
