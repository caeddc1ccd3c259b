/** The single work lane: internal/analytics/processor.go. Priority items run first, but
    waiting background items get a turn after MAX_STREAK priority runs. */
module WorkProcessor {
  import opened Wrappers

  const MAX_STREAK := 2

  // run identifies the closure an item would execute.
  datatype Item = Item(key: string, priority: bool, run: int)

  datatype Lane = Lane(
    pending: map<string, Item>,
    priority: seq<string>,
    background: seq<string>,
    running: set<string>,
    streak: int,
    wake: bool)

  const EMPTY := Lane(map[], [], [], {}, 0, false)

  ghost predicate NoDuplicates(s: seq<string>) {
    forall i, j :: 0 <= i < j < |s| ==> s[i] != s[j]
  }

  /** The queues hold exactly the pending keys, each once, in the class its item records. */
  ghost predicate QueuesMatch(l: Lane) {
    && NoDuplicates(l.priority) && NoDuplicates(l.background)
    && (forall k :: k in l.priority <==> k in l.pending && l.pending[k].priority)
    && (forall k :: k in l.background <==> k in l.pending && !l.pending[k].priority)
    && (forall k :: k in l.pending ==> l.pending[k].key == k)
    && l.streak >= 0
  }

  // ---- The operations, each atomic under the mutex ----

  function Without(s: seq<string>, key: string): seq<string> {
    if s == [] then [] else if s[0] == key then s[1..] else [s[0]] + Without(s[1..], key)
  }

  function Promoted(l: Lane, key: string): Lane
    requires key in l.pending
  {
    l.(pending := l.pending[key := l.pending[key].(priority := true)],
       background := Without(l.background, key),
       priority := l.priority + [key])
  }

  function Added(l: Lane, item: Item): Lane {
    l.(pending := l.pending[item.key := item],
       priority := if item.priority then l.priority + [item.key] else l.priority,
       background := if item.priority then l.background else l.background + [item.key],
       wake := true)
  }

  function Enqueued(l: Lane, item: Item, followup: bool): Lane {
    if item.key in l.running && !followup then l
    else if item.key in l.pending then
      if item.priority && !l.pending[item.key].priority then Promoted(l, item.key) else l
    else Added(l, item)
  }

  function NextClass(l: Lane): bool {
    !(l.priority == [] || (l.background != [] && l.streak >= MAX_STREAK))
  }

  function NextKey(l: Lane): Option<string> {
    if NextClass(l) then Some(l.priority[0])
    else if l.background != [] then Some(l.background[0])
    else None
  }

  function TakePriority(l: Lane): Lane
    requires l.priority != []
  {
    var key := l.priority[0];
    l.(pending := l.pending - {key}, running := l.running + {key}, priority := l.priority[1..], streak := l.streak + 1)
  }

  function TakeBackground(l: Lane): Lane
    requires l.background != []
  {
    var key := l.background[0];
    l.(pending := l.pending - {key}, running := l.running + {key}, background := l.background[1..], streak := 0)
  }

  function Popped(l: Lane): Lane {
    if NextClass(l) then TakePriority(l) else if l.background != [] then TakeBackground(l) else l
  }

  function Finished(l: Lane, key: string): Lane { l.(running := l.running - {key}) }

  // ---- The worker's loop over those operations ----

  datatype Worker = Waiting | Draining | Busy(key: string)

  datatype System = System(lane: Lane, worker: Worker)

  const START := System(EMPTY, Waiting)

  datatype Action =
    | Enqueue(item: Item, followup: bool)
    | Wake
    | Pop
    | Finish

  ghost predicate Enabled(s: System, a: Action) {
    match a
    case Enqueue(_, _) => true
    case Wake => s.worker == Waiting && s.lane.wake
    case Pop => s.worker == Draining
    case Finish => s.worker.Busy?
  }

  ghost function Apply(s: System, a: Action): System {
    match a
    case Enqueue(item, followup) => s.(lane := Enqueued(s.lane, item, followup))
    case Wake => System(s.lane.(wake := false), Draining)
    case Pop =>
      if NextKey(s.lane).None? then s.(worker := Waiting)
      else System(Popped(s.lane), Busy(NextKey(s.lane).value))
    case Finish => if s.worker.Busy? then System(Finished(s.lane, s.worker.key), Draining) else s
  }

  /** Nothing waits while the worker sleeps without a wake token. */
  ghost predicate Invariant(s: System) {
    && QueuesMatch(s.lane)
    && (s.lane.pending.Keys != {} ==> s.lane.wake || s.worker != Waiting)
    && s.lane.running == if s.worker.Busy? then {s.worker.key} else {}
  }

  ghost predicate Possible(s: System, run: seq<Action>)
    decreases |run|
  {
    run == [] || (Enabled(s, run[0]) && Possible(Apply(s, run[0]), run[1..]))
  }

  ghost function After(s: System, run: seq<Action>): System
    decreases |run|
  {
    if run == [] then s else After(Apply(s, run[0]), run[1..])
  }

  // ---- Invariants ----

  lemma Dropped(s: seq<string>)
    requires NoDuplicates(s) && s != []
    ensures NoDuplicates(s[1..])
    ensures forall k :: k in s[1..] <==> k in s && k != s[0]
  {
  }

  lemma Prepended(key: string, s: seq<string>)
    requires NoDuplicates(s) && key !in s
    ensures NoDuplicates([key] + s)
    ensures forall k :: k in [key] + s <==> k in s || k == key
  {
  }

  lemma Appended(s: seq<string>, key: string)
    requires NoDuplicates(s) && key !in s
    ensures NoDuplicates(s + [key])
    ensures forall k :: k in s + [key] <==> k in s || k == key
  {
  }

  lemma {:induction false} WithoutKeeps(s: seq<string>, key: string)
    requires NoDuplicates(s)
    ensures NoDuplicates(Without(s, key))
    ensures forall k :: k in Without(s, key) <==> k in s && k != key
  {
    if s != [] {
      hide NoDuplicates;
      Dropped(s);
      WithoutKeeps(s[1..], key);
      if s[0] != key { Prepended(s[0], Without(s[1..], key)); }
    }
  }

  lemma EnqueuedMatches(l: Lane, item: Item, followup: bool)
    requires QueuesMatch(l)
    ensures QueuesMatch(Enqueued(l, item, followup))
  {
    hide NoDuplicates;
    if item.key in l.pending {
      WithoutKeeps(l.background, item.key);
      if item.key !in l.priority { Appended(l.priority, item.key); }
    } else {
      Appended(l.priority, item.key);
      Appended(l.background, item.key);
    }
  }

  lemma TakePriorityMatches(l: Lane)
    requires QueuesMatch(l) && l.priority != []
    ensures QueuesMatch(TakePriority(l))
  {
  }

  lemma TakeBackgroundMatches(l: Lane)
    requires QueuesMatch(l) && l.background != []
    ensures QueuesMatch(TakeBackground(l))
  {
  }

  lemma PoppedMatches(l: Lane)
    requires QueuesMatch(l)
    ensures QueuesMatch(Popped(l))
  {
    if NextClass(l) {
      TakePriorityMatches(l);
    } else if l.background != [] {
      TakeBackgroundMatches(l);
    }
  }

  lemma ApplyKeepsInvariant(s: System, a: Action)
    requires Invariant(s) && Enabled(s, a)
    ensures Invariant(Apply(s, a))
  {
    hide QueuesMatch;
    match a
    case Enqueue(item, followup) => EnqueuedMatches(s.lane, item, followup);
    case Wake => WakeMatches(s.lane);
    case Pop =>
      PoppedMatches(s.lane);
      NothingPending(s.lane);
    case Finish => FinishMatches(s.lane, s.worker.key);
  }

  lemma WakeMatches(l: Lane)
    requires QueuesMatch(l)
    ensures QueuesMatch(l.(wake := false))
  {
  }

  lemma FinishMatches(l: Lane, key: string)
    requires QueuesMatch(l)
    ensures QueuesMatch(Finished(l, key))
  {
  }

  lemma NothingPending(l: Lane)
    requires QueuesMatch(l)
    ensures NextKey(l).None? <==> l.pending.Keys == {}
    ensures NextKey(l).Some? ==> NextKey(l).value in l.pending
  {
    if l.priority != [] { assert l.priority[0] in l.priority; }
    if l.background != [] { assert l.background[0] in l.background; }
    if k :| k in l.pending.Keys { assert k in l.priority || k in l.background; }
  }

  /** Every interleaving of enqueues with the worker's steps keeps the invariant. */
  lemma {:induction false} RunsKeepInvariant(s: System, run: seq<Action>)
    requires Invariant(s) && Possible(s, run)
    ensures Invariant(After(s, run))
    decreases |run|
  {
    if run != [] {
      ApplyKeepsInvariant(s, run[0]);
      RunsKeepInvariant(Apply(s, run[0]), run[1..]);
    }
  }

  /** So it holds in every state the lane can reach. */
  lemma ReachableInvariant(run: seq<Action>)
    requires Possible(START, run)
    ensures Invariant(After(START, run))
  {
    RunsKeepInvariant(START, run);
  }

  // ---- Bounded waiting ----

  /** How many items are ahead of key in its queue. */
  function Ahead(s: seq<string>, key: string): nat
    requires key in s
  {
    if s[0] == key then 0 else 1 + Ahead(s[1..], key)
  }

  lemma {:induction false} AheadAppend(s: seq<string>, key: string, other: string)
    requires key in s
    ensures Ahead(s + [other], key) == Ahead(s, key)
  {
    if s[0] != key {
      AheadAppend(s[1..], key, other);
      assert (s + [other])[1..] == s[1..] + [other];
    }
  }

  lemma {:induction false} AheadWithout(s: seq<string>, key: string, other: string)
    requires key in s && other != key
    ensures key in Without(s, other) && Ahead(Without(s, other), key) <= Ahead(s, key)
  {
    if s[0] != key && s[0] != other {
      AheadWithout(s[1..], key, other);
      assert Without(s, other)[1..] == Without(s[1..], other);
    } else if s[0] == other {
      assert key in s[1..];
    }
  }

  function Least(a: int, b: int): int { if a < b then a else b }

  /** Pops a background item still needs: three per item ahead, less the current streak. */
  function BackgroundRank(l: Lane, key: string): int
    requires key in l.background
  {
    3 * Ahead(l.background, key) + 3 - Least(l.streak, MAX_STREAK)
  }

  /** Pops a priority item still needs: two per item ahead. */
  function PriorityRank(l: Lane, key: string): int
    requires key in l.priority
  {
    2 * Ahead(l.priority, key) + (if l.streak >= MAX_STREAK then 2 else 1)
  }

  predicate Promotes(a: Action, key: string) {
    a.Enqueue? && a.item.key == key && a.item.priority
  }

  predicate Serves(s: System, a: Action, key: string) {
    a.Pop? && NextKey(s.lane) == Some(key)
  }

  ghost predicate ServedIn(s: System, run: seq<Action>, key: string)
    decreases |run|
  {
    run != [] && (Serves(s, run[0], key) || ServedIn(Apply(s, run[0]), run[1..], key))
  }

  function Pops(run: seq<Action>): nat {
    if run == [] then 0 else (if run[0].Pop? then 1 else 0) + Pops(run[1..])
  }

  lemma EnqueueKeepsBackground(l: Lane, item: Item, followup: bool, key: string)
    requires QueuesMatch(l) && key in l.background && !(item.key == key && item.priority)
    ensures var now := Enqueued(l, item, followup);
            key in now.background && BackgroundRank(now, key) <= BackgroundRank(l, key)
  {
    if item.key in l.pending {
      if item.key != key { AheadWithout(l.background, key, item.key); }
    } else {
      AheadAppend(l.background, key, item.key);
    }
  }

  lemma BackgroundStep(s: System, a: Action, key: string)
    requires Invariant(s) && Enabled(s, a) && key in s.lane.background
    requires !Promotes(a, key) && !Serves(s, a, key)
    ensures key in Apply(s, a).lane.background
    ensures BackgroundRank(Apply(s, a).lane, key) <= BackgroundRank(s.lane, key) - (if a.Pop? then 1 else 0)
  {
    if a.Enqueue? {
      EnqueueKeepsBackground(s.lane, a.item, a.followup, key);
    }
  }

  /** A background item with i items ahead is run within 3(i + 1) pops, whatever priority
      work keeps arriving, unless it is itself promoted. */
  lemma {:induction false} BackgroundIsServed(s: System, run: seq<Action>, key: string)
    requires Invariant(s) && Possible(s, run) && key in s.lane.background
    requires forall a :: a in run ==> !Promotes(a, key)
    requires Pops(run) >= BackgroundRank(s.lane, key)
    ensures ServedIn(s, run, key)
    ensures BackgroundRank(s.lane, key) <= 3 * (Ahead(s.lane.background, key) + 1)
    decreases |run|
  {
    if run != [] && !Serves(s, run[0], key) {
      assert run[0] in run;
      BackgroundStep(s, run[0], key);
      ApplyKeepsInvariant(s, run[0]);
      assert forall a :: a in run[1..] ==> a in run;
      hide Invariant, Apply, Enabled, BackgroundRank;
      BackgroundIsServed(Apply(s, run[0]), run[1..], key);
    }
  }

  lemma EnqueueKeepsPriority(l: Lane, item: Item, followup: bool, key: string)
    requires QueuesMatch(l) && key in l.priority
    ensures var now := Enqueued(l, item, followup);
            key in now.priority && PriorityRank(now, key) == PriorityRank(l, key)
  {
    AheadAppend(l.priority, key, item.key);
  }

  lemma PriorityStep(s: System, a: Action, key: string)
    requires Invariant(s) && Enabled(s, a) && key in s.lane.priority && !Serves(s, a, key)
    ensures key in Apply(s, a).lane.priority
    ensures PriorityRank(Apply(s, a).lane, key) <= PriorityRank(s.lane, key) - (if a.Pop? then 1 else 0)
  {
    if a.Enqueue? {
      EnqueueKeepsPriority(s.lane, a.item, a.followup, key);
    }
  }

  /** A priority item with j items ahead is run within 2(j + 1) pops. */
  lemma {:induction false} PriorityIsServed(s: System, run: seq<Action>, key: string)
    requires Invariant(s) && Possible(s, run) && key in s.lane.priority
    requires Pops(run) >= PriorityRank(s.lane, key)
    ensures ServedIn(s, run, key)
    ensures PriorityRank(s.lane, key) <= 2 * (Ahead(s.lane.priority, key) + 1)
    decreases |run|
  {
    if run != [] && !Serves(s, run[0], key) {
      PriorityStep(s, run[0], key);
      ApplyKeepsInvariant(s, run[0]);
      hide Invariant, Apply, Enabled, PriorityRank;
      PriorityIsServed(Apply(s, run[0]), run[1..], key);
    }
  }

  lemma PendingStays(s: System, a: Action, key: string)
    requires Enabled(s, a) && key in s.lane.pending && !Serves(s, a, key)
    ensures key in Apply(s, a).lane.pending
  {
  }

  /** Nothing queued is lost: in every run a pending key is popped or still pending. */
  lemma {:induction false} PendingUntilServed(s: System, run: seq<Action>, key: string)
    requires Possible(s, run) && key in s.lane.pending
    ensures ServedIn(s, run, key) || key in After(s, run).lane.pending
    decreases |run|
  {
    if run != [] && !Serves(s, run[0], key) {
      PendingStays(s, run[0], key);
      PendingUntilServed(Apply(s, run[0]), run[1..], key);
    }
  }

  /** A follow-up accepted while its key runs is queued behind the run, so the key is run
      again: it stays pending until a later pop takes it, and the worker cannot go back
      to sleep before that. */
  lemma FollowupRunsAgain(s: System, item: Item, run: seq<Action>)
    requires Invariant(s) && s.worker == Busy(item.key)
    requires var queued := Apply(s, Enqueue(item, true)); Possible(queued, run)
    ensures var queued := Apply(s, Enqueue(item, true));
            || ServedIn(queued, run, item.key)
            || (item.key in After(queued, run).lane.pending
                && (After(queued, run).lane.wake || After(queued, run).worker != Waiting))
  {
    var queued := Apply(s, Enqueue(item, true));
    ApplyKeepsInvariant(s, Enqueue(item, true));
    PendingUntilServed(queued, run, item.key);
    RunsKeepInvariant(queued, run);
  }

  // ---- The processor as the program updates it ----

  /** The first such key of the queue is taken out and the others keep their order. */
  ghost predicate TakenOut(was: seq<string>, key: string, now: seq<string>) {
    exists i :: 0 <= i < |was| && was[i] == key && key !in was[..i] && now == was[..i] + was[i + 1..]
  }

  class Processor {
    var pending: map<string, Item>
    var priorityQueue: seq<string>
    var backgroundQueue: seq<string>
    var running: set<string>
    var streak: int
    var wake: bool

    ghost function State(): Lane
      reads this
    {
      Lane(pending, priorityQueue, backgroundQueue, running, streak, wake)
    }

    constructor ()
      ensures State() == EMPTY
    {
      pending, priorityQueue, backgroundQueue, running, streak, wake := map[], [], [], {}, 0, false;
    }

    /** The result says whether a new run was queued for a key that is not running. */
    method EnqueueWithFollowup(key: string, priority: bool, followup: bool, run: int) returns (queued: bool)
      requires QueuesMatch(State())
      modifies this
      ensures State() == old(Enqueued(State(), Item(key, priority, run), followup)) && QueuesMatch(State())
      ensures queued <==> key !in old(pending) && key !in old(running)
      ensures running == old(running) && streak == old(streak)
      // A new request is last in the class asked for.
      ensures old(key !in pending && (key !in running || followup)) ==>
                && pending == old(pending)[key := Item(key, priority, run)] && wake
                && priorityQueue == old(priorityQueue) + (if priority then [key] else [])
                && backgroundQueue == old(backgroundQueue) + (if priority then [] else [key])
      // A background request asked for with priority moves over and keeps its run.
      ensures old(key in pending && !pending[key].priority && (key !in running || followup)) && priority ==>
                && pending == old(pending)[key := Item(key, true, old(pending)[key].run)] && wake == old(wake)
                && priorityQueue == old(priorityQueue) + [key]
                && TakenOut(old(backgroundQueue), key, backgroundQueue)
      // Everything else changes nothing.
      ensures old(key in running && !followup) || old(key in pending && (pending[key].priority || !priority)) ==>
                && pending == old(pending) && wake == old(wake)
                && priorityQueue == old(priorityQueue) && backgroundQueue == old(backgroundQueue)
    {
      EnqueuedMatches(State(), Item(key, priority, run), followup);
      assert key in pending ==> pending[key].key == key && (!pending[key].priority ==> key in backgroundQueue);
      hide QueuesMatch, TakenOut, Without;
      var isRunning := key in running;
      if isRunning && !followup {
        return false;
      }
      if key in pending {
        if priority && !pending[key].priority {
          RemoveBackground(key);
          pending := pending[key := pending[key].(priority := true)];
          priorityQueue := priorityQueue + [key];
        }
        return false;
      }
      pending := pending[key := Item(key, priority, run)];
      if priority {
        priorityQueue := priorityQueue + [key];
      } else {
        backgroundQueue := backgroundQueue + [key];
      }
      wake := true;
      return !isRunning;
    }

    method RemoveBackground(key: string)
      modifies this`backgroundQueue
      ensures backgroundQueue == Without(old(backgroundQueue), key)
      ensures if key in old(backgroundQueue) then TakenOut(old(backgroundQueue), key, backgroundQueue)
              else backgroundQueue == old(backgroundQueue)
    {
      var i := 0;
      while i < |backgroundQueue|
        invariant 0 <= i <= |backgroundQueue|
        invariant backgroundQueue == old(backgroundQueue) && key !in backgroundQueue[..i]
        invariant Without(backgroundQueue, key) == backgroundQueue[..i] + Without(backgroundQueue[i..], key)
      {
        if backgroundQueue[i] == key {
          assert backgroundQueue[i..][1..] == backgroundQueue[i + 1..];
          backgroundQueue := backgroundQueue[..i] + backgroundQueue[i + 1..];
          return;
        }
        WithoutSkip(backgroundQueue, key, i);
        i := i + 1;
      }
    }

    method Pop() returns (item: Option<Item>)
      requires QueuesMatch(State())
      modifies this
      ensures State() == old(Popped(State())) && QueuesMatch(State())
      ensures item.None? <==> old(NextKey(State())).None?
      ensures item.None? <==> old(pending) == map[]
      ensures item.Some? ==> old(NextKey(State())) == Some(item.value.key) && item.value == old(pending)[item.value.key]
      ensures item.Some? ==>
                pending == old(pending) - {item.value.key} && running == old(running) + {item.value.key}
      // Priority first, but after two in a row the background gets its turn.
      ensures old(priorityQueue != [] && (backgroundQueue == [] || streak < 2)) ==>
                && item.Some? && [item.value.key] + priorityQueue == old(priorityQueue)
                && backgroundQueue == old(backgroundQueue) && streak == old(streak) + 1
      ensures old(backgroundQueue != [] && (priorityQueue == [] || streak >= 2)) ==>
                && item.Some? && [item.value.key] + backgroundQueue == old(backgroundQueue)
                && priorityQueue == old(priorityQueue) && streak == 0
    {
      PoppedMatches(State());
      NothingPending(State());
      if NextKey(State()).Some? { KeysRecorded(State(), NextKey(State()).value); }
      hide QueuesMatch;
      if |priorityQueue| == 0 || (|backgroundQueue| > 0 && streak >= MAX_STREAK) {
        if |backgroundQueue| == 0 {
          assert pending == map[];
          return None;
        }
        var key := backgroundQueue[0];
        backgroundQueue := backgroundQueue[1..];
        item := Some(pending[key]);
        pending, running, streak := pending - {key}, running + {key}, 0;
      } else {
        var key := priorityQueue[0];
        priorityQueue := priorityQueue[1..];
        item := Some(pending[key]);
        pending, running, streak := pending - {key}, running + {key}, streak + 1;
      }
    }

    method Finish(key: string)
      modifies this`running
      ensures State() == old(Finished(State(), key))
    {
      running := running - {key};
    }

    method Active(key: string) returns (active: bool)
      ensures active <==> key in pending || key in running
    {
      active := key in pending || key in running;
    }
  }

  lemma KeysRecorded(l: Lane, key: string)
    requires QueuesMatch(l) && key in l.pending
    ensures l.pending[key].key == key
  {
  }

  lemma WithoutSkip(s: seq<string>, key: string, i: nat)
    requires i < |s| && s[i] != key
    ensures s[..i] + Without(s[i..], key) == s[..i + 1] + Without(s[i + 1..], key)
  {
  }
}
