/** The day cache behind dashboard views: internal/analytics/service.go, dayPartials. A
    view over [since, until] merges cached partials of settled UTC days with fresh scans
    of the window's edges, and must equal one uncached scan. */
module DayCache {
  import opened Wrappers
  import opened Sums

  const DAY: int := 86_400_000_000_000
  const MARGIN: int := 600_000_000_000
  const RETENTION: int := 366
  const MAX_WINDOW: int := (RETENTION - 1) * DAY

  /** Go's integer division truncates toward zero. */
  function TruncDiv(a: int, b: int): int
    requires b > 0
  {
    if a >= 0 then a / b else -((-a) / b)
  }

  function DayStart(day: int): int { day * DAY }

  function DayEnd(day: int): int { (day + 1) * DAY - 1 }

  // ---- Which days are settled ----

  function FirstDay(since: int): int { TruncDiv(since + DAY - 1, DAY) }

  function LastDay(since: int, until: int): int {
    var last := TruncDiv(until - MARGIN, DAY);
    if FirstDay(since) < last then last else FirstDay(since)
  }

  /** The edge, the settled days and the tail, when some day is settled. */
  ghost predicate InEdge(since: int, x: int) { since <= x < DayStart(FirstDay(since)) }

  ghost predicate InDay(since: int, until: int, day: int, x: int) {
    FirstDay(since) <= day < LastDay(since, until) && DayStart(day) <= x <= DayEnd(day)
  }

  ghost predicate InTail(since: int, until: int, x: int) { DayStart(LastDay(since, until)) <= x <= until }

  lemma DayOf(x: int, day: int)
    ensures DayStart(day) <= x <= DayEnd(day) <==> day == x / DAY
  {
  }

  lemma FirstDayBounds(since: int)
    requires -DAY < since
    ensures 0 <= FirstDay(since)
    ensures since <= DayStart(FirstDay(since)) < since + DAY
  {
  }

  lemma LastDayBounds(since: int, until: int)
    requires -DAY < since && FirstDay(since) < LastDay(since, until)
    ensures DayStart(LastDay(since, until)) + MARGIN <= until < DayStart(LastDay(since, until) + 1) + MARGIN
  {
  }

  /** The left edge, the days and the tail are disjoint and cover the window exactly. */
  lemma PartitionIsExact(since: int, until: int, x: int)
    requires -DAY < since && FirstDay(since) < LastDay(since, until)
    ensures since <= x <= until <==>
            InEdge(since, x) || (exists day :: InDay(since, until, day, x)) || InTail(since, until, x)
    ensures !(InEdge(since, x) && InTail(since, until, x))
    ensures forall day :: InDay(since, until, day, x) ==>
        day == x / DAY && !InEdge(since, x) && !InTail(since, until, x)
  {
    FirstDayBounds(since);
    LastDayBounds(since, until);
    DayOf(x, x / DAY);
    forall day | InDay(since, until, day, x)
      ensures day == x / DAY && !InEdge(since, x) && !InTail(since, until, x) && since <= x <= until
    {
      DayOf(x, day);
    }
    if since <= x <= until && !InEdge(since, x) && !InTail(since, until, x) {
      assert InDay(since, until, x / DAY, x);
    }
  }

  ghost predicate InParts(since: int, until: int, x: int) {
    InEdge(since, x) || (exists day :: InDay(since, until, day, x)) || InTail(since, until, x)
  }

  /** For any window with a settled day, before 1970 too, the parts cover exactly the window
      if and only if the last settled day ends by the end of the window. */
  lemma PartitionExactIff(since: int, until: int)
    requires since <= until && FirstDay(since) < LastDay(since, until)
    ensures (forall x :: since <= x <= until <==> InParts(since, until, x)) <==>
        DayStart(LastDay(since, until)) <= until + 1
  {
    var first, last := FirstDay(since), LastDay(since, until);
    assert since <= DayStart(first);
    if DayStart(last) <= until + 1 {
      forall x
        ensures since <= x <= until <==> InParts(since, until, x)
      {
        DayOf(x, x / DAY);
        if since <= x <= until && !InEdge(since, x) && !InTail(since, until, x) {
          assert InDay(since, until, x / DAY, x);
        }
        forall day | InDay(since, until, day, x)
          ensures since <= x <= until
        {
          DayOf(x, day);
        }
      }
    } else {
      var x := DayEnd(last - 1);
      assert InDay(since, until, last - 1, x) && x > until;
      assert InParts(since, until, x);
    }
  }

  /** Windows that start a day or more before 1970 can fail it, since Go truncates the
      division: here the settled day [-DAY, 0) runs past the end of the window. */
  lemma PartitionFailsBeforeEpoch()
    ensures var since, until := -2 * DAY, -DAY / 2;
            FirstDay(since) < LastDay(since, until) && DayStart(LastDay(since, until)) > until + 1
  {
  }

  /** Windows up to the maximum never need a day that pruning removes. */
  lemma NoNeededDayPruned(since: int, until: int, day: int)
    requires -DAY < since <= until && until - since <= MAX_WINDOW
    requires FirstDay(since) <= day
    ensures day >= TruncDiv(until, DAY) - RETENTION
  {
  }

  predicate Needed(since: int, until: int, day: int) { FirstDay(since) <= day < LastDay(since, until) }

  /** No needed day of a window is pruned if and only if no day is needed or the first one
      is within the retention. */
  lemma NeededDaysKeptIff(since: int, until: int)
    ensures (forall day :: Needed(since, until, day) ==> day >= TruncDiv(until, DAY) - RETENTION)
       <==> FirstDay(since) >= LastDay(since, until) || FirstDay(since) >= TruncDiv(until, DAY) - RETENTION
  {
    assert FirstDay(since) < LastDay(since, until) ==> Needed(since, until, FirstDay(since));
  }

  /** A window two days above the maximum fails it. */
  lemma LongerWindowIsPruned()
    ensures var since, until := 0, MAX_WINDOW + 2 * DAY;
            FirstDay(since) == 0 < LastDay(since, until) && 0 < TruncDiv(until, DAY) - RETENTION
  {
  }

  // ---- Which days an event can change ----

  /** The days invalidate visits for an event at time t. */
  predicate Hits(t: int, day: int) {
    TruncDiv(t - MARGIN, DAY) <= day <= TruncDiv(t + MARGIN, DAY)
  }

  predicate Near(t: int, from: int, to: int) {
    from - MARGIN <= t <= to + MARGIN
  }

  /** For days from 1970 on, every day within the margin is visited; for times from 1970
      on, only those are. */
  lemma HitsAreNear(t: int, day: int)
    requires day >= 0
    ensures Near(t, DayStart(day), DayEnd(day)) ==> Hits(t, day)
    ensures t >= 0 && Hits(t, day) ==> Near(t, DayStart(day), DayEnd(day))
  {
  }

  /** All events near a day visit it if and only if the day is not before 1970. */
  lemma NearHitsIff(day: int)
    ensures (forall t :: Near(t, DayStart(day), DayEnd(day)) ==> Hits(t, day)) <==> day >= 0
  {
    var t := DayStart(day) + MARGIN + 1;
    assert day < 0 ==> Near(t, DayStart(day), DayEnd(day)) && !Hits(t, day);
  }

  /** Only events near a day visit it if and only if the day is after the first of 1970,
      where truncation also sends events from before the margin. */
  lemma HitsOnlyNearIff(day: int)
    ensures (forall t :: Hits(t, day) ==> Near(t, DayStart(day), DayEnd(day))) <==> day >= 1
  {
    var t := DayStart(day) - MARGIN - 1;
    assert day < 1 ==> Hits(t, day) && !Near(t, DayStart(day), DayEnd(day));
  }

  // ---- The tables ----

  // One cached partial. valid is valid_rowid: rows up to it were visible to the build.
  datatype Day<P> = Day(value: P, valid: int)

  // analytics_events in rowid order (rowid is index + 1) and dashboard_days.
  datatype Tables<E, P> = Tables(rows: seq<E>, days: map<(string, int), Day<P>>)

  // One view: its key, its scan of a range, and the merge of adjacent ranges.
  datatype View<!E(!new), !P> = View(
    key: string,
    time: E -> int,
    build: (set<E>, int, int) -> P,
    merge: (P, P) -> Option<P>)

  function Indexed<E(==)>(rows: seq<E>): set<E> { set e | e in rows }

  ghost function Around<E(!new), P>(view: View<E, P>, events: set<E>, from: int, to: int): set<E> {
    set e | e in events && Near(view.time(e), from, to)
  }

  /** A scan looks no further than the margin beyond its range. */
  ghost predicate Local<E(!new), P>(view: View<E, P>) {
    forall events, other, from, to :: Around(view, events, from, to) == Around(view, other, from, to)
      ==> view.build(events, from, to) == view.build(other, from, to)
  }

  ghost predicate Joins<E(!new), P>(view: View<E, P>, events: set<E>, a: int, b: int, c: int) {
    var joined := view.merge(view.build(events, a, b - 1), view.build(events, b, c));
    joined.None? || joined.value == view.build(events, a, c)
  }

  /** Merging adjacent ranges is scanning their union, or is refused. */
  ghost predicate Mergeable<E(!new), P>(view: View<E, P>, events: set<E>) {
    forall a, b, c :: a < b <= c ==> Joins(view, events, a, b, c)
  }

  ghost function FullScan<E(!new), P>(view: View<E, P>, rows: seq<E>, day: int): P {
    view.build(Indexed(rows), DayStart(day), DayEnd(day))
  }

  // The cached day was built from a snapshot of the rows taken at or after its valid_rowid.
  ghost predicate SoundDay<E(!new), P>(view: View<E, P>, rows: seq<E>, day: int, cached: Day<P>) {
    && day >= 0 && 0 <= cached.valid
    && exists seen :: cached.valid <= seen <= |rows| && cached.value == FullScan(view, rows[..seen], day)
  }

  ghost predicate Sound<E(!new), P>(view: View<E, P>, t: Tables<E, P>) {
    forall day :: (view.key, day) in t.days ==> SoundDay(view, t.rows, day, t.days[(view.key, day)])
  }

  /** Every cached day of the view equals a scan of all indexed events. */
  ghost predicate Fresh<E(!new), P>(view: View<E, P>, t: Tables<E, P>) {
    forall day :: (view.key, day) in t.days ==>
      day >= 0 && t.days[(view.key, day)].valid == |t.rows|
          && t.days[(view.key, day)].value == FullScan(view, t.rows, day)
  }

  // ---- The steps, as statements on the tables ----

  /** consume: a new event gets the next rowid; indexing an event again keeps its row. */
  function Consume<E(==), P>(t: Tables<E, P>, e: E): Tables<E, P> {
    if e in t.rows then t else t.(rows := t.rows + [e])
  }

  ghost predicate Stale<E(!new), P>(view: View<E, P>, rows: seq<E>, day: int, valid: int) {
    exists i :: valid <= i < |rows| && 0 <= i && Hits(view.time(rows[i]), day)
  }

  /** invalidate: drop days a later row hits; the rest are valid up to the newest row. */
  ghost function Invalidated<E(!new), P>(view: View<E, P>, t: Tables<E, P>): Tables<E, P> {
    t.(days := map k | k in t.days && !(k.0 == view.key && Stale(view, t.rows, k.1, t.days[k].valid)) ::
      if k.0 == view.key && t.days[k].valid < |t.rows| then t.days[k].(valid := |t.rows|) else t.days[k])
  }

  /** No day goes without need: only one of this view that a row it has not seen hits. */
  lemma OnlyStaleDaysGo<E(!new), P>(view: View<E, P>, t: Tables<E, P>)
    ensures forall k :: k in t.days ==>
              (k !in Invalidated(view, t).days <==>
                 k.0 == view.key
                 && exists i :: 0 <= i < |t.rows| && t.days[k].valid <= i && Hits(view.time(t.rows[i]), k.1))
    ensures forall k :: k in Invalidated(view, t).days ==>
              k in t.days && Invalidated(view, t).days[k].value == t.days[k].value
  {
  }

  function Pruned<E, P>(t: Tables<E, P>, before: int): Tables<E, P> {
    t.(days := map k | k in t.days && k.1 >= before :: t.days[k])
  }

  /** Store a day built now, valid only up to the rows counted before the build. */
  ghost function Built<E(!new), P>(view: View<E, P>, t: Tables<E, P>, day: int, counted: int): Tables<E, P> {
    t.(days := t.days[(view.key, day) := Day(FullScan(view, t.rows, day), counted)])
  }

  // What can happen to the tables between and during turns; other views share them.
  datatype Action<E, P> =
    | Index(event: E)
    | Invalidate
    | Prune(before: int)
    | Build(day: int, counted: int)
    | OtherView(other: string, otherDay: int, cached: Option<Day<P>>)

  ghost predicate Enabled<E(!new), P>(view: View<E, P>, t: Tables<E, P>, a: Action<E, P>) {
    match a
    case Build(day, counted) => day >= 0 && 0 <= counted <= |t.rows|
    case OtherView(other, _, _) => other != view.key
    case _ => true
  }

  ghost function Apply<E(!new), P>(view: View<E, P>, t: Tables<E, P>, a: Action<E, P>): Tables<E, P> {
    match a
    case Index(e) => Consume(t, e)
    case Invalidate => Invalidated(view, t)
    case Prune(before) => Pruned(t, before)
    case Build(day, counted) => Built(view, t, day, counted)
    case OtherView(other, day, cached) =>
      t.(days := if cached.Some? then t.days[(other, day) := cached.value] else t.days - {(other, day)})
  }

  /** The tables after a run; None if some action was not possible. */
  ghost function Run<E(!new), P>(view: View<E, P>, t: Tables<E, P>, actions: seq<Action<E, P>>): Option<Tables<E, P>> {
    if actions == [] then Some(t)
    else
      var before := Run(view, t, actions[..|actions| - 1]);
      var a := actions[|actions| - 1];
      if before.None? || !Enabled(view, before.value, a) then None else Some(Apply(view, before.value, a))
  }

  // ---- Soundness ----

  lemma InvalidatedDay<E(!new), P>(view: View<E, P>, t: Tables<E, P>, day: int)
    requires Local(view) && Sound(view, t)
    requires (view.key, day) in Invalidated(view, t).days
    ensures var now := Invalidated(view, t).days[(view.key, day)];
            day >= 0 && now.valid == |t.rows| && now.value == FullScan(view, t.rows, day)
  {
  }

  /** After invalidate no indexed event a surviving day has not seen can change it: every
      cached day equals a scan of everything indexed, late and backfilled events included. */
  lemma InvalidateFreshens<E(!new), P>(view: View<E, P>, t: Tables<E, P>)
    requires Local(view) && Sound(view, t)
    ensures Fresh(view, Invalidated(view, t))
  {
    forall day | (view.key, day) in Invalidated(view, t).days
      ensures var now := Invalidated(view, t).days[(view.key, day)];
              day >= 0 && now.valid == |t.rows| && now.value == FullScan(view, t.rows, day)
    {
      InvalidatedDay(view, t, day);
    }
  }

  lemma FreshIsSound<E(!new), P>(view: View<E, P>, t: Tables<E, P>)
    requires Fresh(view, t)
    ensures Sound(view, t)
  {
    forall day | (view.key, day) in t.days
      ensures SoundDay(view, t.rows, day, t.days[(view.key, day)])
    {
      assert t.rows[..|t.rows|] == t.rows;
      assert t.days[(view.key, day)].value == FullScan(view, t.rows[..|t.rows|], day);
    }
  }

  lemma ConsumeSound<E(!new), P>(view: View<E, P>, t: Tables<E, P>, e: E)
    requires Sound(view, t)
    ensures Sound(view, Consume(t, e))
  {
    var now := Consume(t, e);
    forall day | (view.key, day) in now.days
      ensures SoundDay(view, now.rows, day, now.days[(view.key, day)])
    {
      var cached := t.days[(view.key, day)];
      assert SoundDay(view, t.rows, day, cached);
      var seen :| cached.valid <= seen <= |t.rows| && cached.value == FullScan(view, t.rows[..seen], day);
      assert now.rows[..seen] == t.rows[..seen];
    }
  }

  lemma BuiltSound<E(!new), P>(view: View<E, P>, t: Tables<E, P>, day: int, counted: int)
    requires Sound(view, t) && day >= 0 && 0 <= counted <= |t.rows|
    ensures Sound(view, Built(view, t, day, counted))
  {
    assert t.rows[..|t.rows|] == t.rows;
    assert FullScan(view, t.rows, day) == FullScan(view, t.rows[..|t.rows|], day);
    var now := Built(view, t, day, counted);
    forall d | (view.key, d) in now.days
      ensures SoundDay(view, now.rows, d, now.days[(view.key, d)])
    {
      if d != day { assert SoundDay(view, t.rows, d, t.days[(view.key, d)]); }
    }
  }

  /** Every step keeps the cache sound, builds that race with indexing included. */
  lemma ApplySound<E(!new), P>(view: View<E, P>, t: Tables<E, P>, a: Action<E, P>)
    requires Local(view) && Sound(view, t) && Enabled(view, t, a)
    ensures Sound(view, Apply(view, t, a))
  {
    match a
    case Index(e) => ConsumeSound(view, t, e);
    case Invalidate =>
      InvalidateFreshens(view, t);
      FreshIsSound(view, Invalidated(view, t));
    case Prune(before) =>
      forall day | (view.key, day) in Pruned(t, before).days
        ensures SoundDay(view, t.rows, day, t.days[(view.key, day)])
      {
      }
    case Build(day, counted) => BuiltSound(view, t, day, counted);
    case OtherView(other, otherDay, cached) =>
      forall day | (view.key, day) in Apply(view, t, a).days
        ensures SoundDay(view, t.rows, day, t.days[(view.key, day)])
      {
      }
  }

  /** In every run from an empty cache, a view's cached days are sound. */
  lemma {:induction false} RunSound<E(!new), P>(view: View<E, P>, t: Tables<E, P>, actions: seq<Action<E, P>>)
    requires Local(view) && Sound(view, t) && Run(view, t, actions).Some?
    ensures Sound(view, Run(view, t, actions).value)
  {
    if actions != [] {
      var front := actions[..|actions| - 1];
      RunSound(view, t, front);
      ApplySound(view, Run(view, t, front).value, actions[|actions| - 1]);
    }
  }

  /** The cache agrees with a full rescan: whatever was indexed, built, pruned or
      invalidated before, in any order, once invalidate has run every cached day of the view
      holds what a scan of all indexed events gives. */
  lemma InvalidatedRunIsFresh<E(!new), P>(view: View<E, P>, actions: seq<Action<E, P>>)
    requires Local(view) && Run(view, Tables([], map[]), actions).Some?
    ensures Fresh(view, Invalidated(view, Run(view, Tables([], map[]), actions).value))
  {
    RunSound(view, Tables([], map[]), actions);
    InvalidateFreshens(view, Run(view, Tables([], map[]), actions).value);
  }

  // ---- The turn as the program runs it ----

  /** SELECT MIN(valid_rowid) of one view's days. */
  method MinValid<P>(key: string, days: map<(string, int), Day<P>>) returns (least: Option<int>)
    ensures least.None? <==> forall k :: k in days ==> k.0 != key
    ensures least.Some? ==> forall k :: k in days && k.0 == key ==> least.value <= days[k].valid
    ensures least.Some? ==> exists k :: k in days && k.0 == key && least.value == days[k].valid
  {
    least := None;
    var todo := days.Keys;
    while todo != {}
      invariant todo <= days.Keys
      invariant least.None? <==> forall k :: k in days && k !in todo ==> k.0 != key
      invariant least.Some? ==> forall k :: k in days && k !in todo && k.0 == key ==> least.value <= days[k].valid
      invariant least.Some? ==> exists k :: k in days && k.0 == key && least.value == days[k].valid
      decreases todo
    {
      var k :| k in todo;
      if k.0 == key && (least.None? || days[k].valid < least.value) {
        least := Some(days[k].valid);
      }
      todo := todo - {k};
    }
  }

  // changed holds, per visited day, the newest of the rows from checked up to n.
  ghost predicate Newest<E>(changed: map<int, int>, rows: seq<E>, time: E -> int, checked: nat, n: nat)
    requires n <= |rows|
  {
    && (forall i, day :: checked <= i < n && Hits(time(rows[i]), day) ==> day in changed && i < changed[day])
    && (forall day :: day in changed ==> checked < changed[day] <= n && Hits(time(rows[changed[day] - 1]), day))
  }

  method ChangedDays<E>(rows: seq<E>, time: E -> int, checked: nat) returns (changed: map<int, int>)
    requires checked <= |rows|
    ensures Newest(changed, rows, time, checked, |rows|)
  {
    changed := map[];
    for i := checked to |rows|
      invariant Newest(changed, rows, time, checked, i)
    {
      hide Newest;
      ghost var before := changed;
      changed := MarkDays(changed, time(rows[i]), i + 1);
      NewestMore(before, changed, rows, time, checked, i);
    }
  }

  lemma NewestMore<E>(before: map<int, int>, changed: map<int, int>, rows: seq<E>, time: E -> int, checked: nat, i: nat)
    requires checked <= i < |rows| && Newest(before, rows, time, checked, i)
    requires forall d :: d in changed <==> d in before || Hits(time(rows[i]), d)
    requires forall d :: d in changed ==> changed[d] == if Hits(time(rows[i]), d) then i + 1 else before[d]
    ensures Newest(changed, rows, time, checked, i + 1)
  {
  }

  /** The inner loop: rowid is newer than every row marked so far. */
  method MarkDays(before: map<int, int>, t: int, rowid: int) returns (changed: map<int, int>)
    ensures forall d :: d in changed <==> d in before || Hits(t, d)
    ensures forall d :: d in changed ==> changed[d] == if Hits(t, d) then rowid else before[d]
  {
    changed := before;
    var day := TruncDiv(t - MARGIN, DAY);
    while day <= TruncDiv(t + MARGIN, DAY)
      invariant TruncDiv(t - MARGIN, DAY) <= day <= TruncDiv(t + MARGIN, DAY) + 1
      invariant forall d :: d in changed <==> d in before || (Hits(t, d) && d < day)
      invariant forall d :: d in changed ==> changed[d] == if Hits(t, d) && d < day then rowid else before[d]
    {
      changed := changed[day := rowid];
      day := day + 1;
    }
  }

  class DayPartials<E(!new, ==), P> {
    const view: View<E, P>
    var rows: seq<E>
    var days: map<(string, int), Day<P>>

    ghost function State(): Tables<E, P>
      reads this
    {
      Tables(rows, days)
    }

    constructor (view: View<E, P>)
      ensures this.view == view && State() == Tables([], map[])
    {
      this.view, rows, days := view, [], map[];
    }

    /** consume: upsert one event of the log. */
    method Index(e: E)
      requires Sound(view, State())
      modifies this`rows
      ensures State() == old(Consume(State(), e)) && Sound(view, State())
      ensures rows == old(rows) + (if e in old(rows) then [] else [e]) && days == old(days)
    {
      ConsumeSound(view, State(), e);
      if e !in rows {
        rows := rows + [e];
      }
    }

    /** Drop cached days that events indexed since they were built could change. */
    method Invalidate()
      requires Sound(view, State())
      modifies this`days
      ensures State() == old(Invalidated(view, State()))
    {
      var checked := MinValid(view.key, days);
      if checked.None? || |rows| <= checked.value {
        NothingStale(view, State());
        return;
      }
      SoundValid(view, State());
      hide Sound;
      var changed := ChangedDays(rows, view.time, checked.value);
      ghost var before := days;
      DropChanged(changed);
      days := map k | k in days ::
        if k.0 == view.key && days[k].valid < |rows| then days[k].(valid := |rows|) else days[k];
      DroppedAreStale(view, Tables(rows, before), changed, checked.value);
    }

    /** The days in changed go, where the cached value is older than the row that hit it. */
    method DropChanged(changed: map<int, int>)
      modifies this`days
      ensures days == Unhit(view.key, old(days), changed, changed.Keys)
    {
      ghost var before := days;
      var todo := changed.Keys;
      while todo != {}
        invariant todo <= changed.Keys
        invariant days == Unhit(view.key, before, changed, changed.Keys - todo)
        decreases todo
      {
        Inhabited(todo);
        var day :| day in todo;
        UnhitMore(view.key, before, changed, changed.Keys - todo, day);
        assert changed.Keys - (todo - {day}) == changed.Keys - todo + {day};
        if (view.key, day) in days && days[(view.key, day)].valid < changed[day] {
          days := days - {(view.key, day)};
        }
        todo := todo - {day};
      }
    }

    /** One turn: merge cached days with fresh scans of the edges of [since, until],
        building missing days until the budget is spent. None means more turns are needed. */
    method Summarize(since: int, until: int, budget: nat) returns (result: Option<P>)
      requires Sound(view, State()) && Local(view) && Mergeable(view, Indexed(rows))
      requires -DAY < since <= until
      modifies this`days
      ensures result.Some? ==> result.value == view.build(Indexed(rows), since, until)
      ensures Fresh(view, State())
      ensures result.None? && old(Fresh(view, State())) && until - since <= MAX_WINDOW ==>
        Missing(view.key, days, since, until) < Missing(view.key, old(days), since, until)
      ensures forall k :: k in days && k.0 != view.key ==> k in old(days) && days[k] == old(days)[k]
    {
      InvalidateFreshens(view, State());
      if Fresh(view, State()) { FreshUnchanged(view, State()); }
      Invalidate();
      ghost var invalidated := days;
      var first, last := FirstDay(since), LastDay(since, until);
      days := map k | k in days && k.1 >= TruncDiv(until, DAY) - RETENTION :: days[k];
      PrunedFresh(view, Tables(rows, invalidated), TruncDiv(until, DAY) - RETENTION);
      ghost var pruned := days;
      FirstDayBounds(since);
      var done, built, cached := BuildMissing(view, rows, days, first, last, budget);
      days := built;
      if !done {
        if until - since <= MAX_WINDOW {
          PruneMissesNothing(view.key, invalidated, since, until);
          FewerMissing(view.key, pruned, days, since, until);
        }
        return None;
      }
      var total := MergeWindow(view, rows, since, until, cached);
      return Some(total);
    }
  }

  /** Repeated turns of one view over unchanged events end, with the full scan's result. */
  method SummarizeFully<E(!new, ==), P>(partials: DayPartials<E, P>, since: int, until: int, budget: nat)
    returns (total: P)
    requires Sound(partials.view, partials.State()) && Local(partials.view)
        && Mergeable(partials.view, Indexed(partials.rows))
    requires -DAY < since <= until && until - since <= MAX_WINDOW
    modifies partials`days
    ensures total == partials.view.build(Indexed(partials.rows), since, until)
    ensures Fresh(partials.view, partials.State())
  {
    var result := partials.Summarize(since, until, budget);
    while result.None?
      invariant Fresh(partials.view, partials.State())
      invariant result.Some? ==> result.value == partials.view.build(Indexed(partials.rows), since, until)
      decreases result.None?, Missing(partials.view.key, partials.days, since, until)
    {
      FreshIsSound(partials.view, partials.State());
      result := partials.Summarize(since, until, budget);
    }
    total := result.value;
  }

  /** The settled days of a window with no cached row. */
  ghost function Missing<P>(key: string, days: map<(string, int), Day<P>>, since: int, until: int): set<int> {
    set d | FirstDay(since) <= d < LastDay(since, until) && (key, d) !in days
  }

  lemma FreshUnchanged<E(!new), P>(view: View<E, P>, t: Tables<E, P>)
    requires Fresh(view, t)
    ensures Invalidated(view, t) == t
  {
  }

  lemma PrunedFresh<E(!new), P>(view: View<E, P>, t: Tables<E, P>, before: int)
    requires Fresh(view, t)
    ensures Fresh(view, Pruned(t, before))
  {
  }

  lemma PruneMissesNothing<P>(key: string, days: map<(string, int), Day<P>>, since: int, until: int)
    requires -DAY < since <= until && until - since <= MAX_WINDOW
    ensures var kept := map k | k in days && k.1 >= TruncDiv(until, DAY) - RETENTION :: days[k];
            Missing(key, kept, since, until) == Missing(key, days, since, until)
  {
  }

  lemma FewerMissing<P>(key: string, before: map<(string, int), Day<P>>, now: map<(string, int), Day<P>>, since: int,
                        until: int)
    requires before.Keys <= now.Keys
    requires Progress(key, before, now, FirstDay(since), LastDay(since, until))
    ensures Missing(key, now, since, until) < Missing(key, before, since, until)
  {
    var d :| FirstDay(since) <= d < LastDay(since, until) && (key, d) !in before && (key, d) in now;
    assert d in Missing(key, before, since, until) && d !in Missing(key, now, since, until);
  }

  lemma FreshBuilt<E(!new), P>(view: View<E, P>, rows: seq<E>, days: map<(string, int), Day<P>>, day: int)
    requires Fresh(view, Tables(rows, days)) && day >= 0
    ensures Fresh(view, Tables(rows, days[(view.key, day) := Day(FullScan(view, rows, day), |rows|)]))
  {
  }

  lemma FreshValue<E(!new), P>(view: View<E, P>, rows: seq<E>, days: map<(string, int), Day<P>>, first: int, last: int)
    requires Fresh(view, Tables(rows, days))
    ensures forall d :: first <= d < last && (view.key, d) in days ==>
        days[(view.key, d)].value == FullScan(view, rows, d)
  {
  }

  // Days after day are cached; the others are as they were found.
  ghost predicate Building<E(!new), P>(view: View<E, P>, rows: seq<E>, days: map<(string, int), Day<P>>,
                                       now: map<(string, int), Day<P>>,
                                       cached: map<int, P>, first: int, last: int, day: int) {
    && days.Keys <= now.Keys
    && (forall k :: k in now && k.0 != view.key ==> k in days && now[k] == days[k])
    && (forall d :: d in cached ==> cached[d] == FullScan(view, rows, d))
    && (forall d :: first <= d && day < d < last ==> d in cached)
    && (forall d :: first <= d <= day ==> (d in cached <==> (view.key, d) in days))
  }

  ghost predicate Progress<P>(key: string, days: map<(string, int), Day<P>>, now: map<(string, int), Day<P>>,
                              first: int, last: int) {
    exists d :: first <= d < last && (key, d) !in days && (key, d) in now
  }

  lemma BuildingSkip<E(!new), P>(view: View<E, P>, rows: seq<E>, days: map<(string, int), Day<P>>,
                                 now: map<(string, int), Day<P>>,
                                 cached: map<int, P>, first: int, last: int, day: int)
    requires Building(view, rows, days, now, cached, first, last, day) && day in cached
    ensures Building(view, rows, days, now, cached, first, last, day - 1)
  {
  }

  lemma BuildingAdd<E(!new), P>(view: View<E, P>, rows: seq<E>, days: map<(string, int), Day<P>>,
                                now: map<(string, int), Day<P>>,
                                cached: map<int, P>, first: int, last: int, day: int, valid: int)
    requires Building(view, rows, days, now, cached, first, last, day) && day !in cached && first <= day < last
    ensures Building(view, rows, days, now[(view.key, day) := Day(FullScan(view, rows, day), valid)],
        cached[day := FullScan(view, rows, day)], first, last, day - 1)
    ensures Progress(view.key, days, now[(view.key, day) := Day(FullScan(view, rows, day), valid)], first, last)
  {
  }

  /** Build missing days, newest first, at least one per turn. A day is stored as valid up
      to the rows counted before its scan. */
  method BuildMissing<E(!new, ==), P>(view: View<E, P>, rows: seq<E>, days: map<(string, int), Day<P>>, first: int,
                                      last: int, budget: nat)
    returns (done: bool, now: map<(string, int), Day<P>>, cached: map<int, P>)
    requires Fresh(view, Tables(rows, days)) && 0 <= first
    ensures Fresh(view, Tables(rows, now)) && days.Keys <= now.Keys
    ensures forall k :: k in now && k.0 != view.key ==> k in days && now[k] == days[k]
    ensures done ==> forall d :: first <= d < last ==> d in cached && cached[d] == FullScan(view, rows, d)
    ensures !done ==> Progress(view.key, days, now, first, last)
  {
    now := days;
    cached := map d | first <= d < last && (view.key, d) in days :: days[(view.key, d)].value;
    FreshValue(view, rows, days, first, last);
    hide Fresh, Progress;
    var maxRow := |rows|;
    var built := 0;
    var day := last - 1;
    while day >= first
      invariant first - 1 <= day <= last - 1 || day == last - 1
      invariant Fresh(view, Tables(rows, now))
      invariant Building(view, rows, days, now, cached, first, last, day)
      invariant built > 0 ==> Progress(view.key, days, now, first, last)
    {
      if day in cached {
        BuildingSkip(view, rows, days, now, cached, first, last, day);
      } else {
        if built > 0 && built >= budget {
          done := false;
          return;
        }
        built := built + 1;
        var partial := view.build(Indexed(rows), DayStart(day), DayEnd(day));
        FreshBuilt(view, rows, now, day);
        BuildingAdd(view, rows, days, now, cached, first, last, day, maxRow);
        now := now[(view.key, day) := Day(partial, maxRow)];
        cached := cached[day := partial];
      }
      day := day - 1;
    }
    done := true;
  }

  // partials are the scans of consecutive ranges, the first from since, the i-th to ends[i].
  ghost predicate Chain<E(!new), P>(view: View<E, P>, events: set<E>, since: int, partials: seq<P>, ends: seq<int>) {
    && |partials| == |ends|
    && forall i :: 0 <= i < |ends| ==> ChainAt(view, events, since, partials, ends, i)
  }

  function ChainStart(since: int, ends: seq<int>, i: nat): int
    requires i <= |ends|
  {
    if i == 0 then since else ends[i - 1] + 1
  }

  ghost predicate ChainAt<E(!new), P>(view: View<E, P>, events: set<E>, since: int, partials: seq<P>, ends: seq<int>,
                                      i: nat)
    requires i < |partials| == |ends|
  {
    ChainStart(since, ends, i) <= ends[i] && partials[i] == view.build(events, ChainStart(since, ends, i), ends[i])
  }

  lemma ChainMore<E(!new), P>(view: View<E, P>, events: set<E>, since: int, partials: seq<P>, ends: seq<int>,
                              partial: P, end: int)
    requires Chain(view, events, since, partials, ends)
    requires ChainStart(since, ends, |ends|) <= end
        && partial == view.build(events, ChainStart(since, ends, |ends|), end)
    ensures Chain(view, events, since, partials + [partial], ends + [end])
  {
    forall i | 0 <= i < |ends| + 1
      ensures ChainAt(view, events, since, partials + [partial], ends + [end], i)
    {
      if i < |ends| { assert ChainAt(view, events, since, partials, ends, i); }
    }
  }

  /** Edge, cached days and tail, merged oldest first; a refused merge scans the window. */
  method MergeWindow<E(!new, ==), P>(view: View<E, P>, rows: seq<E>, since: int, until: int, cached: map<int, P>)
    returns (total: P)
    requires Mergeable(view, Indexed(rows)) && -DAY < since <= until
    requires forall d :: FirstDay(since) <= d < LastDay(since, until) ==>
        d in cached && cached[d] == FullScan(view, rows, d)
    ensures total == view.build(Indexed(rows), since, until)
  {
    var events := Indexed(rows);
    var first, last := FirstDay(since), LastDay(since, until);
    FirstDayBounds(since);
    var partials: seq<P> := [];
    ghost var ends: seq<int> := [];
    var tailSince := since;
    if first < last {
      LastDayBounds(since, until);
      if since < DayStart(first) {
        var edge := view.build(events, since, DayStart(first) - 1);
        ChainMore(view, events, since, partials, ends, edge, DayStart(first) - 1);
        partials, ends := partials + [edge], ends + [DayStart(first) - 1];
      }
      for day := first to last
        invariant Chain(view, events, since, partials, ends)
        invariant ChainStart(since, ends, |ends|) == DayStart(day)
      {
        ChainMore(view, events, since, partials, ends, cached[day], DayEnd(day));
        partials, ends := partials + [cached[day]], ends + [DayEnd(day)];
      }
      tailSince := DayStart(last);
    }
    var tail := view.build(events, tailSince, until);
    ChainMore(view, events, since, partials, ends, tail, until);
    partials, ends := partials + [tail], ends + [until];
    assert ChainAt(view, events, since, partials, ends, 0);
    total := partials[0];
    for i := 1 to |partials|
      invariant total == view.build(events, since, ends[i - 1])
      invariant since <= ends[i - 1]
    {
      assert ChainAt(view, events, since, partials, ends, i);
      assert Joins(view, events, since, ends[i - 1] + 1, ends[i]);
      var joined := view.merge(total, partials[i]);
      if joined.None? {
        total := view.build(events, since, until);
        return;
      }
      total := joined.value;
    }
  }

  // The days left after deleting those of the given days that changed since they were built.
  function Unhit<P>(key: string, days: map<(string, int), Day<P>>, changed: map<int, int>,
                    done: set<int>): map<(string, int), Day<P>> {
    map k | k in days && !(k.0 == key && k.1 in done && k.1 in changed && days[k].valid < changed[k.1]) :: days[k]
  }

  lemma UnhitMore<P>(key: string, days: map<(string, int), Day<P>>, changed: map<int, int>, done: set<int>, day: int)
    requires day in changed
    ensures var left := Unhit(key, days, changed, done);
            Unhit(key, days, changed, done + {day})
            == if (key, day) in left && left[(key, day)].valid < changed[day] then left - {(key, day)} else left
  {
  }

  /** The days deleted are exactly the stale ones. */
  lemma DroppedAreStale<E(!new), P>(view: View<E, P>, t: Tables<E, P>, changed: map<int, int>, checked: nat)
    requires checked <= |t.rows| && Newest(changed, t.rows, view.time, checked, |t.rows|)
    requires forall k :: k in t.days && k.0 == view.key ==> checked <= t.days[k].valid
    ensures forall k :: k in t.days && k.0 == view.key ==>
      (k.1 in changed && t.days[k].valid < changed[k.1] <==> Stale(view, t.rows, k.1, t.days[k].valid))
  {
  }

  lemma SoundValid<E(!new), P>(view: View<E, P>, t: Tables<E, P>)
    requires Sound(view, t)
    ensures forall k :: k in t.days && k.0 == view.key ==> t.days[k].valid >= 0
  {
    forall k | k in t.days && k.0 == view.key
      ensures t.days[k].valid >= 0
    {
      var day := k.1;
      assert k == (view.key, day);
      assert SoundDay(view, t.rows, day, t.days[k]);
    }
  }

  lemma NothingStale<E(!new), P>(view: View<E, P>, t: Tables<E, P>)
    requires forall k :: k in t.days && k.0 == view.key ==> |t.rows| <= t.days[k].valid
    ensures Invalidated(view, t) == t
  {
  }
}
