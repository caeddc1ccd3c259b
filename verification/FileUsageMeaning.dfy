/** What the usage of one file counts, in the events' own terms:
    internal/analytics/quality_aggregations.go:255-349. A file's history is followed back
    through the moves; its usage is that of the events on the path it had at the time. */
module FileUsageMeaning {
  import opened Wrappers
  import opened FileUsageSpec
  import LineCoverage

  // ---- Where a file was ----

  /** A live move between two paths the partial covers. */
  predicate IsMove(cfg: Config, e: Event) {
    && e.kind == DocWrite && e.action == "move" && Within(cfg.prefix, e.path)
    && e.from.Some? && e.from.value != "" && e.from.value != e.path && Within(cfg.prefix, e.from.value)
  }

  /** The path before e of the file at p after it; a path just moved away has no file. */
  function Before(cfg: Config, e: Event, p: Path): Option<Path> {
    if !IsMove(cfg, e) then Some(p)
    else if p == e.from.value then None
    else if p == e.path then e.from
    else Some(p)
  }

  /** The path after the first i events of the file that ends at p. */
  function Was(cfg: Config, events: seq<Event>, i: nat, p: Path): Option<Path>
    requires i <= |events|
    decreases |events| - i
  {
    if i == |events| then Some(p)
    else
      match Was(cfg, events, i + 1, p)
      case None => None
      case Some(q) => Before(cfg, events[i], q)
  }

  /** Event i names the file that ends at p. */
  predicate Mine(cfg: Config, events: seq<Event>, p: Path, i: int) {
    0 <= i < |events| && Was(cfg, events, i + 1, p) == Some(events[i].path) && Within(cfg.prefix, events[i].path)
  }

  predicate IsRead(e: Event) { e.kind == DocRead || e.kind == DocHit }

  /** Scalars of a file in place: an inventory that is no move's, or a generated write. */
  predicate IsObservation(e: Event) {
    || (e.kind == DocScalars && e.action != "move" && e.action != "move_source")
    || (e.kind == DocWrite && e.action != "move" && e.generated && e.after.Some?)
  }

  // ---- What is recorded of it ----

  ghost function Numbered(cfg: Config, events: seq<Event>, p: Path, kind: EventType): set<int> {
    set i | 0 <= i < |events| && Mine(cfg, events, p, i) && events[i].kind == kind
  }

  /** The first of the reads and hits at the newest time. */
  ghost predicate NewestRead(cfg: Config, events: seq<Event>, p: Path, last: Option<Stamp>) {
    if last.None? then forall i :: Mine(cfg, events, p, i) ==> !IsRead(events[i])
    else exists i :: Mine(cfg, events, p, i) && FirstNewest(cfg, events, p, i, last.value)
  }

  ghost predicate FirstNewest(cfg: Config, events: seq<Event>, p: Path, i: int, last: Stamp)
    requires 0 <= i < |events|
  {
    && IsRead(events[i])
    && last.time == events[i].time && last.hash == (if cfg.summaryOnly then "" else events[i].hash)
    && forall j :: Mine(cfg, events, p, j) && IsRead(events[j]) ==>
         events[j].time <= events[i].time && (j < i ==> events[j].time < events[i].time)
  }

  /** The last of the observations at the newest time. */
  ghost predicate NewestScalars(cfg: Config, events: seq<Event>, p: Path, scalars: Option<Observation>) {
    if scalars.None? then forall i :: Mine(cfg, events, p, i) ==> !IsObservation(events[i])
    else exists i :: Mine(cfg, events, p, i) && LastNewest(cfg, events, p, i, scalars.value)
  }

  ghost predicate LastNewest(cfg: Config, events: seq<Event>, p: Path, i: int, scalars: Observation)
    requires 0 <= i < |events|
  {
    && IsObservation(events[i])
    && scalars.time == events[i].time
    && scalars.tokens == (if events[i].after.Some? then events[i].after.value.tokens else None)
    && (if cfg.summaryOnly then scalars.hash == "" && scalars.lines == 0
        else scalars.hash == events[i].hash
             && scalars.lines == (if events[i].after.Some? then events[i].after.value.lines else 0))
    && forall j :: Mine(cfg, events, p, j) && IsObservation(events[j]) ==>
         events[j].time <= events[i].time && (i < j ==> events[j].time < events[i].time)
  }

  /** Rankings keep no content; otherwise a read without a line range covers its content. */
  ghost predicate CoversWhole(cfg: Config, e: Event, hash: string) {
    IsRead(e) && !cfg.summaryOnly && e.lines.None? && e.hash == hash
  }

  ghost predicate CoversLine(cfg: Config, e: Event, at: (string, int)) {
    IsRead(e) && !cfg.summaryOnly && e.lines.Some? && e.hash == at.0 && e.lines.value.start <= at.1 <= e.lines.value.end
  }

  ghost predicate Describes(cfg: Config, events: seq<Event>, p: Path, u: Usage) {
    && u.readCount == |Numbered(cfg, events, p, DocRead)|
    && u.hitCount == |Numbered(cfg, events, p, DocHit)|
    && NewestRead(cfg, events, p, u.last)
    && NewestScalars(cfg, events, p, u.scalars)
    && Covered(cfg, events, p, u.whole, u.lines)
  }

  /** The contents read whole, and the lines read of each content. */
  ghost predicate Covered(cfg: Config, events: seq<Event>, p: Path, whole: set<string>, lines: iset<(string, int)>) {
    && (forall hash :: hash in whole <==> exists i :: Mine(cfg, events, p, i) && CoversWhole(cfg, events[i], hash))
    && (forall at :: at in lines <==> exists i :: Mine(cfg, events, p, i) && CoversLine(cfg, events[i], at))
  }

  // ---- One event more ----

  lemma {:induction false} WasFront(cfg: Config, front: seq<Event>, e: Event, p: Path, i: nat)
    requires i <= |front|
    ensures Was(cfg, front + [e], i, p) ==
            match Before(cfg, e, p) { case None => None case Some(q) => Was(cfg, front, i, q) }
    decreases |front| - i
  {
    if i == |front| {
      assert Was(cfg, front + [e], i + 1, p) == Some(p);
    } else {
      WasFront(cfg, front, e, p, i + 1);
      assert (front + [e])[i] == front[i];
    }
  }

  /** The events on p's file are those on the file it was, and e if it names p. */
  lemma MineFront(cfg: Config, front: seq<Event>, e: Event, p: Path, i: int)
    ensures 0 <= i < |front| ==>
              (Mine(cfg, front + [e], p, i) <==>
               Before(cfg, e, p).Some? && Mine(cfg, front, Before(cfg, e, p).value, i))
    ensures Mine(cfg, front + [e], p, |front|) <==> e.path == p && Within(cfg.prefix, p)
  {
    if 0 <= i < |front| {
      WasFront(cfg, front, e, p, i + 1);
      assert (front + [e])[i] == front[i];
    }
  }

  // p's file was q's before e, which is or is not counted for it.
  ghost predicate Follows(cfg: Config, front: seq<Event>, e: Event, p: Path, q: Path) {
    && (forall i :: 0 <= i < |front| ==> (Mine(cfg, front + [e], p, i) <==> Mine(cfg, front, q, i)))
    && (Mine(cfg, front + [e], p, |front|) <==> e.path == p && Within(cfg.prefix, p))
    && forall i :: 0 <= i < |front| ==> (front + [e])[i] == front[i]
  }

  lemma BeforeFollows(cfg: Config, front: seq<Event>, e: Event, p: Path)
    requires Before(cfg, e, p).Some?
    ensures Follows(cfg, front, e, p, Before(cfg, e, p).value)
  {
    var q := Before(cfg, e, p).value;
    MineFront(cfg, front, e, p, -1);
    forall i | 0 <= i < |front|
      ensures Mine(cfg, front + [e], p, i) <==> Mine(cfg, front, q, i)
    {
      MineFront(cfg, front, e, p, i);
    }
  }

  lemma NumberedMore(cfg: Config, front: seq<Event>, e: Event, p: Path, q: Path, kind: EventType)
    requires Follows(cfg, front, e, p, q)
    ensures |Numbered(cfg, front + [e], p, kind)| == |Numbered(cfg, front, q, kind)| +
            if e.path == p && Within(cfg.prefix, p) && e.kind == kind then 1 else 0
  {
    var events := front + [e];
    var before, now := Numbered(cfg, front, q, kind), Numbered(cfg, events, p, kind);
    hide Mine;
    if e.path == p && Within(cfg.prefix, p) && e.kind == kind {
      assert now == before + {|front|};
    } else {
      assert now == before;
    }
  }

  function StampOf(cfg: Config, e: Event): Stamp { Stamp(e.time, if cfg.summaryOnly then "" else e.hash) }

  lemma NewestReadMore(cfg: Config, front: seq<Event>, e: Event, p: Path, q: Path, last: Option<Stamp>)
    requires Follows(cfg, front, e, p, q) && NewestRead(cfg, front, q, last)
    ensures var newer := Mine(cfg, front + [e], p, |front|) && IsRead(e) && (last.None? || e.time > last.value.time);
            NewestRead(cfg, front + [e], p, if newer then Some(StampOf(cfg, e)) else last)
  {
    var events, n := front + [e], |front|;
    assert forall i :: Mine(cfg, events, p, i) ==> i == n || Mine(cfg, front, q, i);
    assert forall i :: Mine(cfg, front, q, i) ==> Mine(cfg, events, p, i);
    hide Mine;
    if Mine(cfg, events, p, n) && IsRead(e) && (last.None? || e.time > last.value.time) {
      assert FirstNewest(cfg, events, p, n, StampOf(cfg, e));
    } else if last.Some? {
      var i :| Mine(cfg, front, q, i) && FirstNewest(cfg, front, q, i, last.value);
      assert FirstNewest(cfg, events, p, i, last.value);
    }
  }

  lemma NewestScalarsMore(cfg: Config, front: seq<Event>, e: Event, p: Path, q: Path, scalars: Option<Observation>)
    requires Follows(cfg, front, e, p, q) && NewestScalars(cfg, front, q, scalars)
    ensures var newer := Mine(cfg, front + [e], p, |front|) && IsObservation(e)
                         && (scalars.None? || e.time >= scalars.value.time);
            NewestScalars(cfg, front + [e], p, if newer then Some(Observed(cfg, e)) else scalars)
  {
    var events, n := front + [e], |front|;
    assert forall i :: Mine(cfg, events, p, i) ==> i == n || Mine(cfg, front, q, i);
    assert forall i :: Mine(cfg, front, q, i) ==> Mine(cfg, events, p, i);
    hide Mine;
    if Mine(cfg, events, p, n) && IsObservation(e) && (scalars.None? || e.time >= scalars.value.time) {
      assert LastNewest(cfg, events, p, n, Observed(cfg, e));
    } else if scalars.Some? {
      var i :| Mine(cfg, front, q, i) && LastNewest(cfg, front, q, i, scalars.value);
      assert LastNewest(cfg, events, p, i, scalars.value);
    }
  }

  lemma CoveredMore(cfg: Config, front: seq<Event>, e: Event, p: Path, q: Path, u: Usage)
    requires Follows(cfg, front, e, p, q)
    requires Covered(cfg, front, q, u.whole, u.lines)
    ensures var events, own := front + [e], e.path == p && Within(cfg.prefix, p);
            && (forall hash :: (hash in u.whole || (own && CoversWhole(cfg, e, hash))) <==>
                  exists i :: Mine(cfg, events, p, i) && CoversWhole(cfg, events[i], hash))
            && (forall at :: (at in u.lines || (own && CoversLine(cfg, e, at))) <==>
                  exists i :: Mine(cfg, events, p, i) && CoversLine(cfg, events[i], at))
  {
    hide CoversWhole, CoversLine;
    var events, n := front + [e], |front|;
    assert forall i :: Mine(cfg, events, p, i) ==> i == n || Mine(cfg, front, q, i);
    assert forall i :: Mine(cfg, front, q, i) ==> Mine(cfg, events, p, i);
    hide Mine;
    forall hash
      ensures (hash in u.whole || (Mine(cfg, events, p, n) && CoversWhole(cfg, e, hash))) <==>
              exists i :: Mine(cfg, events, p, i) && CoversWhole(cfg, events[i], hash)
    {
      if hash in u.whole {
        var i :| Mine(cfg, front, q, i) && CoversWhole(cfg, front[i], hash);
        assert Mine(cfg, events, p, i);
      }
    }
    forall at
      ensures (at in u.lines || (Mine(cfg, events, p, n) && CoversLine(cfg, e, at))) <==>
              exists i :: Mine(cfg, events, p, i) && CoversLine(cfg, events[i], at)
    {
      if at in u.lines {
        var i :| Mine(cfg, front, q, i) && CoversLine(cfg, front[i], at);
        assert Mine(cfg, events, p, i);
      }
    }
  }

  /** What e adds to the usage of the file it names. */
  ghost function Added(cfg: Config, e: Event): Usage {
    match EffectOf(cfg, e)
    case Used(_, usage) => usage
    case _ => UNUSED
  }

  /** u is what e tells of a file it does or does not name. */
  ghost predicate Tells(cfg: Config, e: Event, named: bool, u: Usage) {
    && u.readCount == (if named && e.kind == DocRead then 1 else 0)
    && u.hitCount == (if named && e.kind == DocHit then 1 else 0)
    && u.last == (if named && IsRead(e) then Some(StampOf(cfg, e)) else None)
    && u.scalars == (if named && IsObservation(e) then Some(Observed(cfg, e)) else None)
    && (forall hash :: hash in u.whole <==> named && CoversWhole(cfg, e, hash))
    && (forall at :: at in u.lines <==> named && CoversLine(cfg, e, at))
  }

  lemma AddedTells(cfg: Config, e: Event)
    requires Within(cfg.prefix, e.path)
    ensures Tells(cfg, e, true, Added(cfg, e))
  {
    forall at: (string, int) | e.lines.Some?
      ensures LineCoverage.Covers([e.lines.value], at.1) <==> e.lines.value.start <= at.1 <= e.lines.value.end
    {
      LineCoverage.LinesSingle(e.lines.value, at.1);
    }
  }

  lemma NothingTold(cfg: Config, e: Event)
    ensures Tells(cfg, e, false, UNUSED)
  {
  }

  lemma DescribesMore(cfg: Config, front: seq<Event>, e: Event, p: Path, q: Path, u: Usage, more: Usage)
    requires Follows(cfg, front, e, p, q) && Describes(cfg, front, q, u)
    requires Tells(cfg, e, e.path == p && Within(cfg.prefix, p), more)
    ensures Describes(cfg, front + [e], p, Plus(u, more))
  {
    NumberedMore(cfg, front, e, p, q, DocRead);
    NumberedMore(cfg, front, e, p, q, DocHit);
    NewestMore(cfg, front, e, p, q, u, more);
    CoverageMore(cfg, front, e, p, q, u, more);
    hide Mine, Numbered, NewestRead, NewestScalars, CoversWhole, CoversLine, IsRead, IsObservation, Follows, LaterRead,
         LaterScalars, Covered;
  }

  lemma CoverageMore(cfg: Config, front: seq<Event>, e: Event, p: Path, q: Path, u: Usage, more: Usage)
    requires Follows(cfg, front, e, p, q) && Covered(cfg, front, q, u.whole, u.lines)
    requires Tells(cfg, e, e.path == p && Within(cfg.prefix, p), more)
    ensures Covered(cfg, front + [e], p, u.whole + more.whole, u.lines + more.lines)
  {
    CoveredMore(cfg, front, e, p, q, u);
    hide Mine, CoversWhole, CoversLine, IsRead, IsObservation, Follows;
  }

  lemma NewestMore(cfg: Config, front: seq<Event>, e: Event, p: Path, q: Path, u: Usage, more: Usage)
    requires Follows(cfg, front, e, p, q)
    requires NewestRead(cfg, front, q, u.last) && NewestScalars(cfg, front, q, u.scalars)
    requires Tells(cfg, e, e.path == p && Within(cfg.prefix, p), more)
    ensures NewestRead(cfg, front + [e], p, LaterRead(u.last, more.last))
    ensures NewestScalars(cfg, front + [e], p, LaterScalars(u.scalars, more.scalars))
  {
    NewestReadMore(cfg, front, e, p, q, u.last);
    NewestScalarsMore(cfg, front, e, p, q, u.scalars);
    hide NewestRead, NewestScalars, CoversWhole, CoversLine, IsRead, IsObservation, Mine;
  }

  lemma DescribesGone(cfg: Config, front: seq<Event>, e: Event, p: Path)
    requires Before(cfg, e, p).None?
    ensures Describes(cfg, front + [e], p, UNUSED)
  {
    forall i
      ensures !Mine(cfg, front + [e], p, i)
    {
      MineFront(cfg, front, e, p, i);
    }
    hide Mine;
  }

  // ---- Every window ----

  lemma DescribesNothing(cfg: Config, p: Path)
    ensures Describes(cfg, [], p, UNUSED)
  {
    assert Numbered(cfg, [], p, DocRead) == {} && Numbered(cfg, [], p, DocHit) == {};
  }

  lemma MeansStep(cfg: Config, front: seq<Event>, e: Event, p: Path, links: Links)
    requires var q := Before(cfg, e, p); q.Some? ==>
               && Describes(cfg, front, q.value, LinkOf(links, q.value).usage)
               && LinkOf(links, q.value).origin == Was(cfg, front, 0, q.value)
    ensures var now := LinkOf(Step(links, EffectOf(cfg, e)), p);
            Describes(cfg, front + [e], p, now.usage) && now.origin == Was(cfg, front + [e], 0, p)
  {
    WasFront(cfg, front, e, p, 0);
    var before := Before(cfg, e, p);
    if before.None? {
      DescribesGone(cfg, front, e, p);
      GoneOfStep(cfg, links, e, p);
      hide *;
    } else {
      var q, named := before.value, e.path == p && Within(cfg.prefix, p);
      hide *;
      var more := if named then Added(cfg, e) else UNUSED;
      BeforeFollows(cfg, front, e, p);
      UsageOfStep(cfg, links, e, p);
      if named { AddedTells(cfg, e); } else { NothingTold(cfg, e); }
      DescribesMore(cfg, front, e, p, q, LinkOf(links, q).usage, more);
    }
  }

  /** The usage a window records for a path counts exactly the events on that path's file,
      wherever it was at the time, and says where the file was at the start. */
  lemma {:induction false} UsageMeans(cfg: Config, events: seq<Event>, p: Path)
    ensures Describes(cfg, events, p, LinkOf(BuildLinks(cfg, events), p).usage)
    ensures LinkOf(BuildLinks(cfg, events), p).origin == Was(cfg, events, 0, p)
  {
    if events == [] {
      DescribesNothing(cfg, p);
    } else {
      var front, e := events[..|events| - 1], events[|events| - 1];
      assert events == front + [e];
      if Before(cfg, e, p).Some? { UsageMeans(cfg, front, Before(cfg, e, p).value); }
      MeansStep(cfg, front, e, p, BuildLinks(cfg, front));
      assert BuildLinks(cfg, events) == Step(BuildLinks(cfg, front), EffectOf(cfg, e));
      hide *;
    }
  }

  /** Without moves, the usage of a path counts the events that name it. */
  lemma UsageWithoutMoves(cfg: Config, events: seq<Event>, p: Path)
    requires forall e :: e in events ==> !(e.kind == DocWrite && e.action == "move")
    ensures var link := LinkOf(BuildLinks(cfg, events), p);
            && link.origin == Some(p)
            && Describes(cfg, events, p, link.usage)
            && forall i :: Mine(cfg, events, p, i) <==>
                 0 <= i < |events| && events[i].path == p && Within(cfg.prefix, p)
  {
    UsageMeans(cfg, events, p);
    forall i: nat | i <= |events|
      ensures Was(cfg, events, i, p) == Some(p)
    {
      NeverMoved(cfg, events, p, i);
    }
    hide Describes;
  }

  lemma {:induction false} NeverMoved(cfg: Config, events: seq<Event>, p: Path, i: nat)
    requires forall e :: e in events ==> !(e.kind == DocWrite && e.action == "move")
    requires i <= |events|
    ensures Was(cfg, events, i, p) == Some(p)
    decreases |events| - i
  {
    if i < |events| {
      NeverMoved(cfg, events, p, i + 1);
      assert events[i] in events;
    }
  }

  /** A move hands the source's usage to the destination and leaves the source unused. */
  lemma MoveHandsOver(cfg: Config, events: seq<Event>, e: Event, w: World, p: Path)
    requires e.kind == DocWrite && e.action == "move" && Within(cfg.prefix, e.path)
    requires e.from.Some? && e.from.value != "" && e.from.value != e.path && Within(cfg.prefix, e.from.value)
    ensures var before, after := Replay(cfg, events, w), Replay(cfg, events + [e], w);
            UsageOf(after, p) == if p == e.path then UsageOf(before, e.from.value)
                                 else if p == e.from.value then UNUSED
                                 else UsageOf(before, p)
  {
    EffectKind(cfg, e);
    assert (events + [e])[..|events|] == events;
    hide EffectOf, UNUSED;
  }

  /** The event reads or observes the file at p, or moves it or something onto it. */
  predicate Names(cfg: Config, e: Event, p: Path) {
    || (IsMove(cfg, e) && (p == e.path || Some(p) == e.from))
    || (e.path == p && Within(cfg.prefix, p) && (IsRead(e) || IsObservation(e)))
  }

  lemma PathsNamed(cfg: Config, e: Event, p: Path)
    ensures p in PathsOf(EffectOf(cfg, e)) <==> Names(cfg, e, p)
  {
    hide ReadUsage, Observed, UNUSED, Within;
  }

  /** A window has an entry for exactly the paths its events name. */
  lemma {:induction false} TouchedMeans(cfg: Config, events: seq<Event>, p: Path)
    ensures p in Touched(cfg, events) <==> exists e :: e in events && Names(cfg, e, p)
  {
    if events != [] {
      var front, e := events[..|events| - 1], events[|events| - 1];
      assert events == front + [e];
      TouchedMeans(cfg, front, p);
      PathsNamed(cfg, e, p);
      hide EffectOf, Names;
      if p in Touched(cfg, front) {
        var x :| x in front && Names(cfg, x, p);
        assert x in events;
      }
    }
  }

  lemma EffectKind(cfg: Config, e: Event)
    ensures IsMove(cfg, e) ==> EffectOf(cfg, e) == Moved(e.from.value, e.path)
    ensures EffectOf(cfg, e).Moved? ==> IsMove(cfg, e)
    ensures EffectOf(cfg, e).Used? ==> EffectOf(cfg, e).path == e.path && Within(cfg.prefix, e.path)
  {
    hide ReadUsage, Observed, UNUSED, Within;
  }

  lemma GoneOfStep(cfg: Config, links: Links, e: Event, p: Path)
    requires Before(cfg, e, p).None?
    ensures LinkOf(Step(links, EffectOf(cfg, e)), p) == Link(None, UNUSED)
  {
    EffectKind(cfg, e);
    hide EffectOf, UNUSED, Within;
  }

  lemma UsageOfStep(cfg: Config, links: Links, e: Event, p: Path)
    requires Before(cfg, e, p).Some?
    ensures var before, now := LinkOf(links, Before(cfg, e, p).value), LinkOf(Step(links, EffectOf(cfg, e)), p);
            && now.origin == before.origin
            && now.usage == Plus(before.usage, if e.path == p && Within(cfg.prefix, p) then Added(cfg, e) else UNUSED)
  {
    hide *;
    EffectKind(cfg, e);
    AddedIs(cfg, e);
    var effect := EffectOf(cfg, e);
    PlusUnused(LinkOf(links, p).usage);
    PlusUnused(LinkOf(links, Before(cfg, e, p).value).usage);
    BeforeIs(cfg, e, p);
    StepLink(links, effect, p);
  }

  lemma AddedIs(cfg: Config, e: Event)
    ensures match EffectOf(cfg, e) case Used(_, usage) => Added(cfg, e) == usage case _ => Added(cfg, e) == UNUSED
  {
    hide EffectOf, UNUSED;
  }

  lemma BeforeIs(cfg: Config, e: Event, p: Path)
    ensures Before(cfg, e, p) ==
      if !IsMove(cfg, e) then Some(p)
      else if p == e.from.value then None
      else if p == e.path then Some(e.from.value)
      else Some(p)
  {
  }

  lemma StepLink(links: Links, effect: Effect, p: Path)
    ensures var now := LinkOf(Step(links, effect), p);
            match effect
            case Ignored => now == LinkOf(links, p)
            case Moved(source, dest) =>
              now == if p == source then Link(None, UNUSED) else LinkOf(links, if p == dest then source else p)
            case Used(path, usage) =>
              now == if p == path then Link(LinkOf(links, p).origin, Plus(LinkOf(links, p).usage, usage))
                     else LinkOf(links, p)
  {
    hide Plus, UNUSED;
  }
}
