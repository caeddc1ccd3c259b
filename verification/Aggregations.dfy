/** Command, unknown-command and scalar-write aggregations: internal/analytics/
    aggregations.go. Their partials keep one value per key; the median of a command's
    durations is exact however its windows were merged. */
module Aggregations {
  import opened Wrappers
  import opened Sorting
  import opened Sums
  import opened Keyed

  // ---- Durations ----

  // durationCounts: how often each duration was recorded.
  type Durations = map<int, int>

  function PlusCounts(a: int, b: int): int { a + b }

  function CountShape(): Shape<int, int, int> { Shape(d => Some(d), d => 1, PlusCounts) }

  /** The counts of a list of durations. */
  function Counts(durations: seq<int>): Durations { Build(CountShape(), durations) }

  lemma {:induction false} CountsAreMultiplicities(durations: seq<int>)
    ensures forall d :: d in Counts(durations) <==> d in durations
    ensures forall d :: d in durations ==> Counts(durations)[d] == multiset(durations)[d]
  {
    if durations != [] {
      var front, last := durations[..|durations| - 1], durations[|durations| - 1];
      CountsAreMultiplicities(front);
      assert durations == front + [last];
      assert CountShape().key(last) == Some(last);
    }
  }

  function Itself(d: int): int { d }

  ghost predicate SortedPermutation(sorted: seq<int>, durations: seq<int>) {
    SortedBy(sorted, Itself) && multiset(sorted) == multiset(durations)
  }

  function Repeat(d: int, n: int): seq<int> {
    if n <= 0 then [] else [d] + Repeat(d, n - 1)
  }

  /** The sorted list that distinct sorted values and their counts stand for. */
  function Expand(values: seq<int>, counts: Durations): seq<int>
    requires forall v :: v in values ==> v in counts
  {
    if values == [] then [] else Repeat(values[0], counts[values[0]]) + Expand(values[1..], counts)
  }

  lemma {:induction false} RepeatIs(d: int, n: int)
    requires n >= 0
    ensures |Repeat(d, n)| == n && (forall x :: x in Repeat(d, n) ==> x == d) && multiset(Repeat(d, n))[d] == n
    ensures forall i :: 0 <= i < n ==> Repeat(d, n)[i] == d
  {
    if n > 0 { RepeatIs(d, n - 1); }
  }

  ghost predicate Increasing(values: seq<int>) {
    forall i, j :: 0 <= i < j < |values| ==> values[i] < values[j]
  }

  ghost predicate Positive(counts: Durations) {
    forall d :: d in counts ==> counts[d] > 0
  }

  lemma IncreasingTail(values: seq<int>)
    requires Increasing(values) && values != []
    ensures Increasing(values[1..]) && forall v :: v in values[1..] ==> values[0] < v
    ensures forall v :: v in values <==> v == values[0] || v in values[1..]
  {
  }

  lemma {:induction false} ExpandCounts(values: seq<int>, counts: Durations)
    requires (forall v :: v in values ==> v in counts) && Increasing(values) && Positive(counts)
    ensures forall d :: multiset(Expand(values, counts))[d] == if d in values then counts[d] else 0
  {
    if values != [] {
      var first, rest := Repeat(values[0], counts[values[0]]), Expand(values[1..], counts);
      IncreasingTail(values);
      assert values[0] in counts;
      RepeatIs(values[0], counts[values[0]]);
      ExpandCounts(values[1..], counts);
      assert multiset(first + rest) == multiset(first) + multiset(rest);
      forall d
        ensures multiset(first)[d] == if d == values[0] then counts[d] else 0
      {
        if d != values[0] { assert d !in first; }
      }
    }
  }

  lemma {:induction false} ExpandSorted(values: seq<int>, counts: Durations)
    requires (forall v :: v in values ==> v in counts) && Increasing(values) && Positive(counts)
    ensures SortedBy(Expand(values, counts), Itself)
    ensures forall d :: d in Expand(values, counts) ==> d in values
  {
    if values != [] {
      var first, rest := Repeat(values[0], counts[values[0]]), Expand(values[1..], counts);
      IncreasingTail(values);
      assert values[0] in counts;
      RepeatIs(values[0], counts[values[0]]);
      ExpandSorted(values[1..], counts);
      hide Repeat, Expand;
      assert forall i :: 0 <= i < |rest| ==> rest[i] in rest;
    }
  }

  /** A list has one sorted permutation. */
  lemma {:induction false} SortedUnique(a: seq<int>, b: seq<int>)
    requires SortedBy(a, Itself) && SortedBy(b, Itself) && multiset(a) == multiset(b)
    ensures a == b
    decreases |a|
  {
    hide SortedBy;
    if a == [] || b == [] {
      SameLength(a, b);
    } else {
      SameHead(a, b);
      SortedTail(a);
      SortedTail(b);
      SortedUnique(a[1..], b[1..]);
      assert a == [a[0]] + a[1..];
      assert b == [b[0]] + b[1..];
    }
  }

  lemma SameLength(a: seq<int>, b: seq<int>)
    requires multiset(a) == multiset(b)
    ensures |a| == |b|
  {
    SameMembers(a, b);
  }

  lemma SameHead(a: seq<int>, b: seq<int>)
    requires SortedBy(a, Itself) && SortedBy(b, Itself) && multiset(a) == multiset(b) && a != [] && b != []
    ensures a[0] == b[0]
  {
    SameMembers(a, b);
    assert a[0] in b && b[0] in a;
    LeastFirst(a, b[0], Itself);
    LeastFirst(b, a[0], Itself);
  }

  lemma SortedTail(a: seq<int>)
    requires SortedBy(a, Itself) && a != []
    ensures SortedBy(a[1..], Itself) && multiset(a[1..]) == multiset(a) - multiset{a[0]}
  {
    assert a == [a[0]] + a[1..];
    assert forall i :: 0 <= i < |a[1..]| ==> a[1..][i] == a[i + 1];
  }

  ghost function CountAt(counts: Durations): int -> int { d => if d in counts then counts[d] else 0 }

  lemma {:induction false} ExpandLength(values: seq<int>, counts: Durations)
    requires (forall v :: v in values ==> v in counts) && Increasing(values) && Positive(counts)
    ensures |Expand(values, counts)| == Sum((set v | v in values), CountAt(counts))
  {
    if values == [] {
      assert (set v | v in values) == {};
    } else {
      IncreasingTail(values);
      assert values[0] in values && values[0] in counts;
      RepeatIs(values[0], counts[values[0]]);
      ExpandLength(values[1..], counts);
      var rest := set v | v in values[1..];
      assert values[0] !in rest && (set v | v in values) == rest + {values[0]};
      SumInsert(rest, CountAt(counts), values[0]);
    }
  }

  /** m is element (n-1)/2 of the sorted durations; 0 when there are none. */
  ghost predicate IsMedian(m: int, durations: seq<int>) {
    if durations == [] then m == 0
    else forall sorted :: SortedPermutation(sorted, durations) ==>
        |sorted| == |durations| && m == sorted[(|durations| - 1) / 2]
  }

  /** The expansion of all counts is the sorted list. */
  lemma ExpandsTo(values: seq<int>, durations: seq<int>)
    requires Increasing(values) && forall v :: v in values <==> v in Counts(durations)
    ensures Positive(Counts(durations)) && SortedPermutation(Expand(values, Counts(durations)), durations)
    ensures |Expand(values, Counts(durations))| == |durations|
  {
    var counts := Counts(durations);
    CountsAreMultiplicities(durations);
    assert Positive(counts) by {
      forall d | d in counts
        ensures counts[d] > 0
      {
        assert d in multiset(durations);
      }
    }
    ExpandCounts(values, counts);
    ExpandSorted(values, counts);
    var all := Expand(values, counts);
    hide Expand;
    forall d
      ensures multiset(all)[d] == multiset(durations)[d]
    {
      if d !in counts { assert d !in multiset(durations); }
    }
    assert multiset(all) == multiset(durations);
    SameMembers(all, durations);
  }

  lemma OnlyMedian(m: int, sorted: seq<int>, durations: seq<int>)
    requires SortedPermutation(sorted, durations) && durations != [] && |sorted| == |durations|
    requires m == sorted[(|durations| - 1) / 2]
    ensures IsMedian(m, durations)
  {
    forall other | SortedPermutation(other, durations)
      ensures other == sorted
    {
      SortedUnique(other, sorted);
    }
  }

  /** median: walk the sorted distinct durations, counting down to the middle. */
  method Median(counts: Durations, ghost durations: seq<int>) returns (m: int)
    requires counts == Counts(durations)
    ensures IsMedian(m, durations)
  {
    hide *;
    var values, total := Distinct(counts);
    ExpandsWhole(values, durations, total);
    if total == 0 {
      NoMedian();
      return 0;
    }
    m := Walk(values, counts, (total - 1) / 2);
    OnlyMedian(m, Expand(values, counts), durations);
  }

  lemma ExpandsWhole(values: seq<int>, durations: seq<int>, total: int)
    requires Increasing(values) && forall v :: v in values <==> v in Counts(durations)
    requires total == Sum(Counts(durations).Keys, CountAt(Counts(durations)))
    ensures Positive(Counts(durations)) && total == |durations| == |Expand(values, Counts(durations))|
    ensures SortedPermutation(Expand(values, Counts(durations)), durations)
  {
    hide *;
    ExpandsTo(values, durations);
    ExpandLength(values, Counts(durations));
    ValuesAreKeys(values, Counts(durations));
  }

  lemma ValuesAreKeys(values: seq<int>, counts: Durations)
    requires forall v :: v in values <==> v in counts
    ensures (set v | v in values) == counts.Keys
  {
    var s := set v | v in values;
    assert forall v :: v in s <==> v in counts.Keys;
    assert s == counts.Keys;
  }

  lemma NoMedian()
    ensures IsMedian(0, [])
  {
  }

  /** The element at an index of the sorted list, from the counts alone. */
  method Walk(values: seq<int>, counts: Durations, start: int) returns (m: int)
    requires (forall v :: v in values ==> v in counts) && Positive(counts)
    requires 0 <= start < |Expand(values, counts)|
    ensures m == Expand(values, counts)[start]
  {
    var index := start;
    assert values[0..] == values;
    for i := 0 to |values|
      invariant 0 <= index < |Expand(values[i..], counts)|
      invariant Expand(values[i..], counts)[index] == Expand(values, counts)[start]
    {
      var value := values[i];
      RepeatIs(value, counts[value]);
      assert values[i..][1..] == values[i + 1..];
      if index < counts[value] {
        return value;
      }
      index := index - counts[value];
    }
    assert false;
    m := 0;
  }

  /** The distinct durations in increasing order, and how many were recorded in all. */
  method Distinct(counts: Durations) returns (values: seq<int>, total: int)
    ensures Increasing(values) && forall v :: v in values <==> v in counts
    ensures total == Sum(counts.Keys, CountAt(counts))
  {
    var found: seq<int> := [];
    total := 0;
    var todo := counts.Keys;
    while todo != {}
      invariant todo <= counts.Keys
      invariant NoDuplicates(found) && forall v :: v in found <==> v in counts && v !in todo
      invariant total == Sum(counts.Keys - todo, CountAt(counts))
      decreases todo
    {
      Inhabited(todo);
      var value :| value in todo;
      SumInsert(counts.Keys - todo, CountAt(counts), value);
      assert counts.Keys - (todo - {value}) == counts.Keys - todo + {value};
      found := found + [value];
      total := total + counts[value];
      todo := todo - {value};
    }
    assert counts.Keys - {} == counts.Keys;
    values := SortBy(found, Itself);
    SameMembers(values, found);
    PermutedDistinct(found, values);
    SortedIncreasing(values);
  }

  lemma SortedIncreasing(values: seq<int>)
    requires SortedBy(values, Itself) && NoDuplicates(values)
    ensures Increasing(values)
  {
  }

  // ---- Commands ----

  datatype CommandEvent = CommandEvent(transport: string, principal: string, session: string, command: string,
      failed: bool, duration: int)

  datatype Stats = Stats(count: int, errors: int, principals: set<string>, sessions: set<string>, durations: Durations)

  // Which command events count, whether people are recorded, and the key of an event.
  datatype Commands = Commands(transport: string, people: bool, keyOf: CommandEvent -> string)

  function PlusStats(a: Stats, b: Stats): Stats {
    Stats(a.count + b.count, a.errors + b.errors, a.principals + b.principals, a.sessions + b.sessions,
          Merged(PlusCounts, a.durations, b.durations))
  }

  function OneStats(people: bool, e: CommandEvent): Stats {
    Stats(1, if e.failed then 1 else 0, if people then {e.principal} else {}, if people then {e.session} else {},
        map[e.duration := 1])
  }

  function CommandShape(c: Commands): Shape<CommandEvent, string, Stats> {
    Shape((e: CommandEvent) => if c.transport != "" && e.transport != c.transport then None else Some(c.keyOf(e)),
          (e: CommandEvent) => OneStats(c.people, e), PlusStats)
  }

  lemma MergedAssociative(a: Durations, b: Durations, c: Durations)
    ensures Merged(PlusCounts, Merged(PlusCounts, a, b), c) == Merged(PlusCounts, a, Merged(PlusCounts, b, c))
  {
  }

  lemma StatsAssociative()
    ensures Associative(PlusStats)
  {
    forall a: Stats, b: Stats, c: Stats
      ensures PlusStats(PlusStats(a, b), c) == PlusStats(a, PlusStats(b, c))
    {
      MergedAssociative(a.durations, b.durations, c.durations);
      assert (a.principals + b.principals) + c.principals == a.principals + (b.principals + c.principals);
      assert (a.sessions + b.sessions) + c.sessions == a.sessions + (b.sessions + c.sessions);
    }
  }

  ghost function Failures(events: seq<CommandEvent>): int {
    if events == [] then 0 else Failures(events[..|events| - 1]) + if events[|events| - 1].failed then 1 else 0
  }

  ghost function DurationsOf(events: seq<CommandEvent>): seq<int> {
    seq(|events|, i requires 0 <= i < |events| => events[i].duration)
  }

  ghost function Principals(events: seq<CommandEvent>): set<string> { set e | e in events :: e.principal }

  ghost function Sessions(events: seq<CommandEvent>): set<string> { set e | e in events :: e.session }

  /** What the stats of a key say about its events. */
  ghost predicate Describes(s: Stats, people: bool, events: seq<CommandEvent>) {
    && s.count == |events| && s.errors == Failures(events)
    && s.durations == Counts(DurationsOf(events))
    && s.principals == (if people then Principals(events) else {})
    && s.sessions == (if people then Sessions(events) else {})
  }

  lemma DurationsMore(front: seq<CommandEvent>, e: CommandEvent)
    ensures Counts(DurationsOf(front + [e])) == Merged(PlusCounts, Counts(DurationsOf(front)), map[e.duration := 1])
  {
    var all := DurationsOf(front + [e]);
    assert all[..|all| - 1] == DurationsOf(front) && all[|all| - 1] == e.duration;
    assert CountShape().key(e.duration) == Some(e.duration) && CountShape().one(e.duration) == 1;
    var before := Counts(DurationsOf(front));
    assert Put(PlusCounts, before, e.duration, 1) == Merged(PlusCounts, before, map[e.duration := 1]);
  }

  lemma {:induction false} FoldDescribes(c: Commands, events: seq<CommandEvent>)
    requires events != []
    ensures Describes(Fold(CommandShape(c), events), c.people, events)
  {
    var front, e := events[..|events| - 1], events[|events| - 1];
    assert events == front + [e];
    if |events| == 1 {
      DescribesOne(c.people, e);
    } else {
      FoldDescribes(c, front);
      var s := Fold(CommandShape(c), front);
      DescribesMore(s, c.people, front, e);
    }
  }

  lemma DescribesOne(people: bool, e: CommandEvent)
    ensures Describes(OneStats(people, e), people, [e])
  {
    DurationsMore([], e);
    assert [] + [e] == [e] && DurationsOf([]) == [];
    assert Merged(PlusCounts, map[], map[e.duration := 1]) == map[e.duration := 1];
    assert [e][..0] == [];
  }

  lemma DescribesMore(s: Stats, people: bool, front: seq<CommandEvent>, e: CommandEvent)
    requires Describes(s, people, front)
    ensures Describes(PlusStats(s, OneStats(people, e)), people, front + [e])
  {
    var events := front + [e];
    DurationsMore(front, e);
    hide Counts, Merged, DurationsOf;
    assert events[..|events| - 1] == front;
    assert Failures(events) == Failures(front) + (if e.failed then 1 else 0);
    hide Failures;
    assert Principals(events) == Principals(front) + {e.principal};
    assert Sessions(events) == Sessions(front) + {e.session};
    hide Principals, Sessions;
  }

  /** The events of the configured transport, or of any when none is, under the key. */
  ghost function OwnEvents(c: Commands, events: seq<CommandEvent>, key: string): seq<CommandEvent> {
    if events == [] then []
    else
      var front, e := OwnEvents(c, events[..|events| - 1], key), events[|events| - 1];
      if (c.transport == "" || e.transport == c.transport) && c.keyOf(e) == key then front + [e] else front
  }

  lemma {:induction false} OwnAreGathered(c: Commands, events: seq<CommandEvent>, key: string)
    ensures Gather(CommandShape(c), events, key) == OwnEvents(c, events, key)
  {
    if events != [] {
      OwnAreGathered(c, events[..|events| - 1], key);
    }
  }

  class CommandsPartial {
    const config: Commands
    var commands: map<string, Stats>

    constructor (config: Commands)
      ensures this.config == config && commands == Build(CommandShape(config), [])
    {
      this.config, commands := config, map[];
    }

    method AddEvent(e: CommandEvent)
      modifies this`commands
      ensures commands == Add(CommandShape(config), old(commands), e)
    {
      if config.transport != "" && e.transport != config.transport {
        return;
      }
      var key := config.keyOf(e);
      if key !in commands {
        commands := commands[key := OneStats(config.people, e)];
        return;
      }
      var stats := commands[key];
      stats := stats.(count := stats.count + 1);
      if config.people {
        stats := stats.(principals := stats.principals + {e.principal}, sessions := stats.sessions + {e.session});
      }
      if e.failed {
        stats := stats.(errors := stats.errors + 1);
      }
      stats := stats.(durations := Put(PlusCounts, stats.durations, e.duration, 1));
      assert stats == PlusStats(commands[key], OneStats(config.people, e));
      commands := commands[key := stats];
    }

    /** Add a later, adjacent window. */
    method Merge(later: CommandsPartial)
      requires later != this
      modifies this`commands
      ensures commands == Merged(PlusStats, old(commands), later.commands)
    {
      commands := MergeInto(PlusStats, commands, later.commands);
    }

    /** One row of the table: every figure is that of the key's own events. */
    method Row(key: string, ghost events: seq<CommandEvent>)
      returns (count: int, principals: int, sessions: int, errors: int, p50: int)
      requires commands == Build(CommandShape(config), events) && key in commands
      ensures var own := OwnEvents(config, events, key);
              && count == |own| && errors == Failures(own) && IsMedian(p50, DurationsOf(own))
              && (config.people ==> principals == |Principals(own)| && sessions == |Sessions(own)|)
    {
      ghost var own := Gather(CommandShape(config), events, key);
      OwnAreGathered(config, events, key);
      EntriesAreFolds(CommandShape(config), events, key);
      FoldDescribes(config, own);
      var stats := commands[key];
      p50 := Median(stats.durations, DurationsOf(own));
      count, principals, sessions, errors := stats.count, |stats.principals|, |stats.sessions|, stats.errors;
    }
  }

  /** A table over a window split anywhere is the table over the whole window. */
  method CommandsOfSplit(config: Commands, xs: seq<CommandEvent>, ys: seq<CommandEvent>)
    returns (partial: CommandsPartial)
    ensures fresh(partial) && partial.config == config
    ensures partial.commands == Build(CommandShape(config), xs + ys)
  {
    partial := CommandsOf(config, xs);
    var later := CommandsOf(config, ys);
    partial.Merge(later);
    StatsAssociative();
    MergeIsConcatenation(CommandShape(config), xs, ys);
  }

  method CommandsOf(config: Commands, events: seq<CommandEvent>) returns (partial: CommandsPartial)
    ensures fresh(partial) && partial.config == config
    ensures partial.commands == Build(CommandShape(config), events)
  {
    partial := new CommandsPartial(config);
    for i := 0 to |events|
      invariant fresh(partial) && partial.config == config
      invariant partial.commands == Build(CommandShape(config), events[..i])
    {
      assert events[..i + 1][..i] == events[..i];
      partial.AddEvent(events[i]);
    }
    assert events[..|events|] == events;
  }

  // ---- Unknown commands ----

  datatype UnknownEvent = UnknownEvent(command: string, syntax: string, principal: string, time: int)

  datatype Unknown = Unknown(count: int, principals: set<string>, last: int)

  function PlusUnknown(a: Unknown, b: Unknown): Unknown {
    Unknown(a.count + b.count, a.principals + b.principals, if b.last > a.last then b.last else a.last)
  }

  function UnknownShape(): Shape<UnknownEvent, string, Unknown> {
    Shape((e: UnknownEvent) => Some(if e.command == "" then e.syntax else e.command),
        (e: UnknownEvent) => Unknown(1, {e.principal}, e.time), PlusUnknown)
  }

  /** What an entry says about its events. */
  ghost predicate DescribesUnknown(u: Unknown, events: seq<UnknownEvent>) {
    && u.count == |events|
    && u.principals == (set e | e in events :: e.principal)
    && (exists e :: e in events && e.time == u.last) && (forall e :: e in events ==> e.time <= u.last)
  }

  lemma UnknownAssociative()
    ensures Associative(PlusUnknown)
  {
  }

  lemma {:induction false} UnknownFoldDescribes(events: seq<UnknownEvent>)
    requires events != []
    ensures DescribesUnknown(Fold(UnknownShape(), events), events)
  {
    var front, e := events[..|events| - 1], events[|events| - 1];
    assert events == front + [e];
    assert e in events;
    if |events| > 1 {
      UnknownFoldDescribes(front);
      UnknownMore(Fold(UnknownShape(), front), front, e);
    }
  }

  lemma UnknownMore(u: Unknown, front: seq<UnknownEvent>, e: UnknownEvent)
    requires DescribesUnknown(u, front)
    ensures DescribesUnknown(PlusUnknown(u, Unknown(1, {e.principal}, e.time)), front + [e])
  {
    var events := front + [e];
    assert e in events && forall x :: x in events <==> x in front || x == e;
    var latest :| latest in front && latest.time == u.last;
    assert latest in events;
    assert (set x | x in events :: x.principal) == (set x | x in front :: x.principal) + {e.principal};
  }

  /** The events that name the command, or, naming none, that syntax. */
  ghost function UnknownEvents(events: seq<UnknownEvent>, name: string): seq<UnknownEvent> {
    if events == [] then []
    else
      var front, e := UnknownEvents(events[..|events| - 1], name), events[|events| - 1];
      if (e.command != "" && e.command == name) || (e.command == "" && e.syntax == name) then front + [e] else front
  }

  lemma {:induction false} UnknownAreGathered(events: seq<UnknownEvent>, name: string)
    ensures Gather(UnknownShape(), events, name) == UnknownEvents(events, name)
  {
    if events != [] {
      UnknownAreGathered(events[..|events| - 1], name);
    }
  }

  /** However the window is split, an unknown command's row describes exactly its events. */
  lemma UnknownCommandsMean(xs: seq<UnknownEvent>, ys: seq<UnknownEvent>, name: string)
    ensures var merged := Merged(PlusUnknown, Build(UnknownShape(), xs), Build(UnknownShape(), ys));
            var own := UnknownEvents(xs + ys, name);
            && (name in merged <==> own != [])
            && (name in merged ==> DescribesUnknown(merged[name], own))
  {
    UnknownAssociative();
    UnknownAreGathered(xs + ys, name);
    MergeIsConcatenation(UnknownShape(), xs, ys);
    EntriesAreFolds(UnknownShape(), xs + ys, name);
    var own := Gather(UnknownShape(), xs + ys, name);
    if own != [] { UnknownFoldDescribes(own); }
  }

  class UnknownCommandsPartial {
    var commands: map<string, Unknown>

    constructor ()
      ensures commands == Build(UnknownShape(), [])
    {
      commands := map[];
    }

    method MergeOne(name: string, later: Unknown)
      modifies this
      ensures commands == Put(PlusUnknown, old(commands), name, later)
    {
      if name !in commands {
        commands := commands[name := later];
        return;
      }
      var current := commands[name];
      current := current.(count := current.count + later.count, principals := current.principals + later.principals);
      if later.last > current.last {
        current := current.(last := later.last);
      }
      commands := commands[name := current];
    }

    method AddEvent(e: UnknownEvent)
      modifies this
      ensures commands == Add(UnknownShape(), old(commands), e)
    {
      var name := e.command;
      if name == "" {
        name := e.syntax;
      }
      MergeOne(name, Unknown(1, {e.principal}, e.time));
    }

    method Merge(later: UnknownCommandsPartial)
      requires later != this
      modifies this
      ensures commands == Merged(PlusUnknown, old(commands), later.commands)
    {
      commands := MergeInto(PlusUnknown, commands, later.commands);
    }
  }

  // ---- Scalar writes ----

  datatype Writer = Human | Agent | OtherWriter

  // counted: an authored write; delta tracks inventory for every write.
  datatype ScalarWrite = ScalarWrite(bucket: string, docset: string, writer: Writer, counted: bool,
      delta: map<string, int>)

  datatype ScalarEvent = ScalarEvent(id: string, write: ScalarWrite)

  function FirstOf(a: ScalarWrite, b: ScalarWrite): ScalarWrite { a }

  function WriteShape(): Shape<ScalarEvent, string, ScalarWrite> {
    Shape((e: ScalarEvent) => Some(e.id), (e: ScalarEvent) => e.write, FirstOf)
  }

  lemma {:induction false} FoldIsFirst(events: seq<ScalarEvent>)
    requires events != []
    ensures Fold(WriteShape(), events) == events[0].write
  {
    if |events| > 1 { FoldIsFirst(events[..|events| - 1]); }
  }

  /** However the window is split, each commit and path counts once, as its first event
      recorded it. */
  lemma FirstWriteWins(xs: seq<ScalarEvent>, ys: seq<ScalarEvent>, id: string)
    ensures var merged := Merged(FirstOf, Build(WriteShape(), xs), Build(WriteShape(), ys));
            var own := Gather(WriteShape(), xs + ys, id);
            && (id in merged <==> own != [])
            && (id in merged ==> merged[id] == own[0].write)
  {
    assert Associative(FirstOf);
    MergeIsConcatenation(WriteShape(), xs, ys);
    EntriesAreFolds(WriteShape(), xs + ys, id);
    var own := Gather(WriteShape(), xs + ys, id);
    if own != [] { FoldIsFirst(own); }
  }

  class ScalarWritesPartial {
    var writes: map<string, ScalarWrite>

    constructor ()
      ensures writes == Build(WriteShape(), [])
    {
      writes := map[];
    }

    method AddEvent(e: ScalarEvent)
      modifies this
      ensures writes == Add(WriteShape(), old(writes), e)
    {
      if e.id in writes {
        return;
      }
      writes := writes[e.id := e.write];
    }

    method Merge(later: ScalarWritesPartial)
      requires later != this
      modifies this
      ensures writes == Merged(FirstOf, old(writes), later.writes)
    {
      var todo := later.writes.Keys;
      while todo != {}
        invariant todo <= later.writes.Keys && later.writes == old(later.writes)
        invariant writes.Keys == old(writes).Keys + (later.writes.Keys - todo)
        invariant forall id :: id in writes ==>
            writes[id] == if id in old(writes) then old(writes)[id] else later.writes[id]
        decreases todo
      {
        var id :| id in todo;
        if id !in writes {
          writes := writes[id := later.writes[id]];
        }
        todo := todo - {id};
      }
    }

    /** write-ratio: every counted write and its bytes go to its own writer. */
    method WriteRatio() returns (human: int, agent: int, unknown: int, humanBytes: int, agentBytes: int,
                                 unknownBytes: int)
      ensures human + agent + unknown == |CountedWrites(writes, writes.Keys)|
      ensures human == |ByWriter(writes, writes.Keys, Human)| && humanBytes == BytesBy(writes, writes.Keys, Human)
      ensures agent == |ByWriter(writes, writes.Keys, Agent)| && agentBytes == BytesBy(writes, writes.Keys, Agent)
      ensures unknown == |ByWriter(writes, writes.Keys, OtherWriter)|
      ensures unknownBytes == BytesBy(writes, writes.Keys, OtherWriter)
    {
      human, agent, unknown, humanBytes, agentBytes, unknownBytes := 0, 0, 0, 0, 0, 0;
      var todo := writes.Keys;
      ghost var done: set<string> := {};
      NothingCounted(writes);
      hide *;
      while todo != {}
        invariant todo <= writes.Keys && done == writes.Keys - todo
        invariant human == |ByWriter(writes, done, Human)| && humanBytes == BytesBy(writes, done, Human)
        invariant agent == |ByWriter(writes, done, Agent)| && agentBytes == BytesBy(writes, done, Agent)
        invariant unknown == |ByWriter(writes, done, OtherWriter)| && unknownBytes == BytesBy(writes, done, OtherWriter)
        decreases todo
      {
        var id :| id in todo;
        var write := writes[id];
        WriterMore(writes, done, id, Human);
        WriterMore(writes, done, id, Agent);
        WriterMore(writes, done, id, OtherWriter);
        todo, done := todo - {id}, done + {id};
        var bytes := if "bytes" in write.delta then write.delta["bytes"] else 0;
        if write.counted {
          match write.writer
          case Human => human, humanBytes := human + 1, humanBytes + bytes;
          case Agent => agent, agentBytes := agent + 1, agentBytes + bytes;
          case OtherWriter => unknown, unknownBytes := unknown + 1, unknownBytes + bytes;
        }
      }
      assert done == writes.Keys;
      WritersPartition(writes, done);
    }
  }

  ghost function CountedWrites(writes: map<string, ScalarWrite>, ids: set<string>): set<string> {
    set id | id in ids && id in writes && writes[id].counted
  }

  ghost function ByWriter(writes: map<string, ScalarWrite>, ids: set<string>, writer: Writer): set<string> {
    set id | id in ids && id in writes && writes[id].counted && writes[id].writer == writer
  }

  ghost function BytesOf(writes: map<string, ScalarWrite>): string -> int {
    id => if id in writes && "bytes" in writes[id].delta then writes[id].delta["bytes"] else 0
  }

  ghost function BytesBy(writes: map<string, ScalarWrite>, ids: set<string>, writer: Writer): int {
    Sum(ByWriter(writes, ids, writer), BytesOf(writes))
  }

  lemma NothingCounted(writes: map<string, ScalarWrite>)
    ensures forall w :: ByWriter(writes, {}, w) == {} && BytesBy(writes, {}, w) == 0
  {
  }

  lemma WriterMore(writes: map<string, ScalarWrite>, done: set<string>, id: string, w: Writer)
    requires id in writes && id !in done
    ensures var own := writes[id].counted && writes[id].writer == w;
            var bytes := if "bytes" in writes[id].delta then writes[id].delta["bytes"] else 0;
            && |ByWriter(writes, done + {id}, w)| == |ByWriter(writes, done, w)| + (if own then 1 else 0)
            && BytesBy(writes, done + {id}, w) == BytesBy(writes, done, w) + (if own then bytes else 0)
  {
    var before := ByWriter(writes, done, w);
    if writes[id].counted && writes[id].writer == w {
      assert ByWriter(writes, done + {id}, w) == before + {id};
      SumInsert(before, BytesOf(writes), id);
    } else {
      assert ByWriter(writes, done + {id}, w) == before;
    }
  }

  /** Every counted write has exactly one writer. */
  lemma WritersPartition(writes: map<string, ScalarWrite>, ids: set<string>)
    ensures |CountedWrites(writes, ids)| ==
            |ByWriter(writes, ids, Human)| + |ByWriter(writes, ids, Agent)| + |ByWriter(writes, ids, OtherWriter)|
  {
    var human, agent := ByWriter(writes, ids, Human), ByWriter(writes, ids, Agent);
    var other := ByWriter(writes, ids, OtherWriter);
    assert CountedWrites(writes, ids) == human + agent + other;
    assert |human + agent| == |human| + |agent|;
    assert |human + agent + other| == |human + agent| + |other|;
  }
}
