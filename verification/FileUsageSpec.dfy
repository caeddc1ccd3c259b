/** What a window of file-usage events means: internal/analytics/quality_aggregations.go,
    fileUsagePartial. A window is a simultaneous substitution: each path it touches
    inherits the usage some path (or nothing) had before the window, and adds its own. */
module FileUsageSpec {
  import opened Wrappers
  import opened Sums
  import LineCoverage

  type Path = string

  datatype EventType = DocRead | DocHit | DocScalars | DocWrite | OtherType

  datatype Scalars = Scalars(lines: int, tokens: Option<int>)

  // The fields fileUsagePartial.Add reads. Paths are already cleaned.
  datatype Event = Event(
    kind: EventType,
    time: int,
    path: Path,
    action: string,
    generated: bool,
    from: Option<string>,
    after: Option<Scalars>,
    hash: string,
    lines: Option<LineCoverage.Range>)

  datatype Observation = Observation(time: int, hash: string, lines: int, tokens: Option<int>)

  datatype Stamp = Stamp(time: int, hash: string)

  // Usage of one file: counts, the first read at the newest time, the last scalars at
  // the newest time, the content hashes read whole and the lines read at each hash.
  datatype Usage = Usage(
    readCount: int,
    hitCount: int,
    last: Option<Stamp>,
    scalars: Option<Observation>,
    whole: set<string>,
    lines: iset<(string, int)>)

  ghost const UNUSED := Usage(0, 0, None, None, {}, iset{})

  ghost function LaterRead(a: Option<Stamp>, b: Option<Stamp>): Option<Stamp> {
    if b.Some? && (a.None? || b.value.time > a.value.time) then b else a
  }

  ghost function LaterScalars(a: Option<Observation>, b: Option<Observation>): Option<Observation> {
    if b.Some? && (a.None? || b.value.time >= a.value.time) then b else a
  }

  /** Usage a followed by usage b. */
  ghost function Plus(a: Usage, b: Usage): Usage {
    Usage(a.readCount + b.readCount, a.hitCount + b.hitCount, LaterRead(a.last, b.last),
        LaterScalars(a.scalars, b.scalars),
          a.whole + b.whole, a.lines + b.lines)
  }

  lemma PlusUnused(a: Usage)
    ensures Plus(a, UNUSED) == a
    ensures Plus(UNUSED, a) == a
  {
  }

  lemma PlusAssociative(a: Usage, b: Usage, c: Usage)
    ensures Plus(Plus(a, b), c) == Plus(a, Plus(b, c))
  {
  }

  // ---- What one event does ----

  datatype Config = Config(prefix: string, summaryOnly: bool)

  // pathWithin on cleaned paths: candidate is prefix or lies under it.
  predicate Within(prefix: string, candidate: string) {
    prefix == "/" || candidate == prefix || prefix + "/" <= candidate
  }

  datatype Effect =
    | Ignored
    | Moved(source: Path, dest: Path)
    | Used(path: Path, usage: Usage)

  /** A read or hit: rankings keep neither its hash nor its lines. */
  ghost function ReadUsage(cfg: Config, e: Event): Usage {
    var n := if e.kind == DocRead then 1 else 0;
    if cfg.summaryOnly then Usage(n, 1 - n, Some(Stamp(e.time, "")), None, {}, iset{})
    else if e.lines.None? then Usage(n, 1 - n, Some(Stamp(e.time, e.hash)), None, {e.hash}, iset{})
    else Usage(n, 1 - n, Some(Stamp(e.time, e.hash)), None, {}, LinesAt(e.hash, [e.lines.value]))
  }

  ghost function LinesAt(hash: string, ranges: seq<LineCoverage.Range>): iset<(string, int)> {
    iset at: (string, int) | at.0 == hash && LineCoverage.Covers(ranges, at.1)
  }

  ghost function Observed(cfg: Config, e: Event): Observation {
    var after := if e.after.Some? then e.after.value else Scalars(0, None);
    if cfg.summaryOnly then Observation(e.time, "", 0, after.tokens)
    else Observation(e.time, e.hash, after.lines, after.tokens)
  }

  ghost function EffectOf(cfg: Config, e: Event): Effect {
    if !Within(cfg.prefix, e.path) then Ignored
    else match e.kind
      case OtherType => Ignored
      case DocRead => Used(e.path, ReadUsage(cfg, e))
      case DocHit => Used(e.path, ReadUsage(cfg, e))
      case DocScalars =>
        if e.action == "move" || e.action == "move_source" then Ignored
        else Used(e.path, Usage(0, 0, None, Some(Observed(cfg, e)), {}, iset{}))
      case DocWrite =>
        if e.action == "move" then
          if e.from.None? || e.from.value == "" || e.from.value == e.path || !Within(cfg.prefix, e.from.value)
              then Ignored
          else Moved(e.from.value, e.path)
        else if !e.generated || e.after.None? then Ignored
        else Used(e.path, Usage(0, 0, None, Some(Observed(cfg, e)), {}, iset{}))
  }

  // ---- Reference semantics: replay the events on the usage of every path ----

  type World = map<Path, Usage>

  ghost function UsageOf(w: World, p: Path): Usage {
    if p in w then w[p] else UNUSED
  }

  ghost function Replay1(w: World, effect: Effect): World {
    match effect
    case Ignored => w
    case Moved(source, dest) => w[dest := UsageOf(w, source)][source := UNUSED]
    case Used(path, usage) => w[path := Plus(UsageOf(w, path), usage)]
  }

  ghost function Replay(cfg: Config, events: seq<Event>, w: World): World {
    if events == [] then w
    else Replay1(Replay(cfg, events[..|events| - 1], w), EffectOf(cfg, events[|events| - 1]))
  }

  // ---- The compact form a partial keeps ----

  // origin None: nothing inherited; Some(o): what o had before the window.
  datatype Link = Link(origin: Option<Path>, usage: Usage)

  type Links = map<Path, Link>

  ghost function LinkOf(links: Links, p: Path): Link {
    if p in links then links[p] else Link(Some(p), UNUSED)
  }

  ghost function Step(links: Links, effect: Effect): Links {
    match effect
    case Ignored => links
    case Moved(source, dest) => links[dest := LinkOf(links, source)][source := Link(None, UNUSED)]
    case Used(path, usage) =>
      var link := LinkOf(links, path);
      links[path := Link(link.origin, Plus(link.usage, usage))]
  }

  ghost function BuildLinks(cfg: Config, events: seq<Event>): Links {
    if events == [] then map[]
    else Step(BuildLinks(cfg, events[..|events| - 1]), EffectOf(cfg, events[|events| - 1]))
  }

  ghost function Inherit(links: Links, next: Link): Link {
    match next.origin
    case None => next
    case Some(o) => Link(LinkOf(links, o).origin, Plus(LinkOf(links, o).usage, next.usage))
  }

  /** Every inherited input is resolved in the earlier window before any output of the
      later one replaces it. */
  ghost function Compose(links: Links, next: Links): Links {
    map p | p in links.Keys + next.Keys :: if p in next then Inherit(links, next[p]) else links[p]
  }

  /** The usage of p after a window, given every path's usage before it. */
  ghost function ApplyAt(links: Links, w: World, p: Path): Usage {
    match LinkOf(links, p).origin
    case None => LinkOf(links, p).usage
    case Some(o) => Plus(UsageOf(w, o), LinkOf(links, p).usage)
  }

  /** One event on the compact form is one event on the replayed usage. */
  lemma ReplayStep(links: Links, before: World, now: World, effect: Effect, p: Path)
    requires ApplyAt(links, before, p) == UsageOf(now, p)
    requires effect.Moved? ==> ApplyAt(links, before, effect.source) == UsageOf(now, effect.source)
    ensures ApplyAt(Step(links, effect), before, p) == UsageOf(Replay1(now, effect), p)
  {
    hide Plus, UNUSED;
    match effect
    case Ignored =>
    case Moved(source, dest) =>
    case Used(path, usage) =>
      if p == path {
        var link := LinkOf(links, p);
        if link.origin.Some? {
          PlusAssociative(UsageOf(before, link.origin.value), link.usage, usage);
        }
      }
  }

  /** Lineage is meaning-preserving: applying the compact form to any starting usage is
      replaying the events one by one, through chains, swaps, source reuse and overwrites. */
  lemma {:induction false} LinksReplayEvents(cfg: Config, events: seq<Event>, w: World, p: Path)
    ensures ApplyAt(BuildLinks(cfg, events), w, p) == UsageOf(Replay(cfg, events, w), p)
  {
    if events == [] {
      PlusUnused(UsageOf(w, p));
    } else {
      var front, effect := events[..|events| - 1], EffectOf(cfg, events[|events| - 1]);
      LinksReplayEvents(cfg, front, w, p);
      if effect.Moved? {
        LinksReplayEvents(cfg, front, w, effect.source);
      }
      ReplayStep(BuildLinks(cfg, front), w, Replay(cfg, front, w), effect, p);
    }
  }

  lemma ComposeLink(links: Links, next: Links, p: Path)
    ensures LinkOf(Compose(links, next), p) == Inherit(links, LinkOf(next, p))
  {
  }

  lemma InheritUse(links: Links, link: Link, usage: Usage)
    ensures var inherited := Inherit(links, link);
            Inherit(links, Link(link.origin, Plus(link.usage, usage)))
                == Link(inherited.origin, Plus(inherited.usage, usage))
  {
  }

  lemma ComposeMoved(links: Links, next: Links, source: Path, dest: Path)
    ensures Compose(links, Step(next, Moved(source, dest))) == Step(Compose(links, next), Moved(source, dest))
  {
    hide Plus, UNUSED;
    ComposeLink(links, next, source);
    var left, right := Compose(links, Step(next, Moved(source, dest))), Step(Compose(links, next), Moved(source, dest));
    assert left.Keys == right.Keys;
    forall p | p in left
      ensures left[p] == right[p]
    {
    }
  }

  lemma ComposeUsed(links: Links, next: Links, path: Path, usage: Usage)
    ensures Compose(links, Step(next, Used(path, usage))) == Step(Compose(links, next), Used(path, usage))
  {
    hide Plus, UNUSED;
    ComposeLink(links, next, path);
    InheritUse(links, LinkOf(next, path), usage);
    var left, right := Compose(links, Step(next, Used(path, usage))), Step(Compose(links, next), Used(path, usage));
    assert left.Keys == right.Keys;
    forall p | p in left
      ensures left[p] == right[p]
    {
    }
  }

  /** Composing with one more event is composing first, then taking the event. */
  lemma ComposeStep(links: Links, next: Links, effect: Effect)
    ensures Compose(links, Step(next, effect)) == Step(Compose(links, next), effect)
  {
    match effect
    case Ignored =>
    case Moved(source, dest) => ComposeMoved(links, next, source, dest);
    case Used(path, usage) => ComposeUsed(links, next, path, usage);
  }

  /** The law a partial must satisfy: merging adjacent windows is one window over both. */
  lemma {:induction false} ComposeIsConcatenation(cfg: Config, xs: seq<Event>, ys: seq<Event>)
    ensures Compose(BuildLinks(cfg, xs), BuildLinks(cfg, ys)) == BuildLinks(cfg, xs + ys)
  {
    if ys == [] {
      assert xs + ys == xs;
      assert Compose(BuildLinks(cfg, xs), map[]) == BuildLinks(cfg, xs);
    } else {
      var front, effect := ys[..|ys| - 1], EffectOf(cfg, ys[|ys| - 1]);
      ComposeIsConcatenation(cfg, xs, front);
      assert (xs + ys)[..|xs + ys| - 1] == xs + front;
      ComposeStep(BuildLinks(cfg, xs), BuildLinks(cfg, front), effect);
    }
  }

  /** Every inherited origin is itself a path the window touched, so reserving a
      window's paths reserves its inputs too. */
  ghost predicate OriginsTouched(links: Links) {
    forall p :: p in links && links[p].origin.Some? ==> links[p].origin.value in links
  }

  lemma {:induction false} BuildKeepsOrigins(cfg: Config, events: seq<Event>)
    ensures OriginsTouched(BuildLinks(cfg, events))
  {
    if events != [] {
      BuildKeepsOrigins(cfg, events[..|events| - 1]);
    }
  }

  /** No two paths inherit the same usage: a move never copies. */
  ghost predicate OriginsDistinct(links: Links) {
    forall p, q :: p in links && q in links && p != q && links[p].origin.Some? ==> links[p].origin != links[q].origin
  }

  lemma {:induction false} BuildNeverCopies(cfg: Config, events: seq<Event>)
    ensures OriginsDistinct(BuildLinks(cfg, events))
  {
    if events != [] {
      BuildNeverCopies(cfg, events[..|events| - 1]);
      BuildKeepsOrigins(cfg, events[..|events| - 1]);
    }
  }

  // ---- The memory budget ----

  const MAX_PATHS := 25_000
  const MAX_PATH_BYTES := 4 * 1024 * 1024

  function Length(p: string): int { |p| }

  ghost function Bytes(paths: set<Path>): int { Sum(paths, Length) }

  ghost predicate OverBudget(cfg: Config, paths: set<Path>) {
    cfg.summaryOnly && (|paths| > MAX_PATHS || Bytes(paths) > MAX_PATH_BYTES)
  }

  lemma OverBudgetMonotone(cfg: Config, small: set<Path>, large: set<Path>)
    requires small <= large && OverBudget(cfg, small)
    ensures OverBudget(cfg, large)
  {
    assert forall p :: p in large ==> Length(p) >= 0;
    SumMonotone(small, large, Length);
    assert |large| == |small| + |large - small| by { assert large == small + (large - small); }
  }

  ghost function PathsOf(effect: Effect): set<Path> {
    match effect
    case Ignored => {}
    case Moved(source, dest) => {source, dest}
    case Used(path, _) => {path}
  }

  ghost function Touched(cfg: Config, events: seq<Event>): set<Path> {
    if events == [] then {}
    else Touched(cfg, events[..|events| - 1]) + PathsOf(EffectOf(cfg, events[|events| - 1]))
  }

  lemma {:induction false} TouchedConcat(cfg: Config, xs: seq<Event>, ys: seq<Event>)
    ensures Touched(cfg, xs + ys) == Touched(cfg, xs) + Touched(cfg, ys)
  {
    if ys == [] {
      assert xs + ys == xs;
    } else {
      TouchedConcat(cfg, xs, ys[..|ys| - 1]);
      assert (xs + ys)[..|xs + ys| - 1] == xs + ys[..|ys| - 1];
    }
  }

  lemma {:induction false} LinksTouched(cfg: Config, events: seq<Event>)
    ensures BuildLinks(cfg, events).Keys == Touched(cfg, events)
  {
    if events != [] {
      LinksTouched(cfg, events[..|events| - 1]);
    }
  }

  // ---- A partial: its links, or the mark that the budget was exceeded ----

  datatype State = Overflowed | Live(links: Links)

  ghost function AddState(cfg: Config, s: State, e: Event): State {
    match s
    case Overflowed => Overflowed
    case Live(links) =>
      var effect := EffectOf(cfg, e);
      if OverBudget(cfg, links.Keys + PathsOf(effect)) then Overflowed else Live(Step(links, effect))
  }

  ghost function MergeState(cfg: Config, s: State, later: State): State {
    if s.Overflowed? || later.Overflowed? || OverBudget(cfg, s.links.Keys + later.links.Keys) then Overflowed
    else Live(Compose(s.links, later.links))
  }

  ghost function Build(cfg: Config, events: seq<Event>): State {
    if events == [] then Live(map[])
    else AddState(cfg, Build(cfg, events[..|events| - 1]), events[|events| - 1])
  }

  /** Overflow is exactly the budget broken by the distinct touched paths. */
  lemma {:induction false} OverflowIsExact(cfg: Config, events: seq<Event>)
    ensures Build(cfg, events) == if OverBudget(cfg, Touched(cfg, events)) then Overflowed
        else Live(BuildLinks(cfg, events))
  {
    if events == [] {
      assert !OverBudget(cfg, {});
    } else {
      var front := events[..|events| - 1];
      OverflowIsExact(cfg, front);
      LinksTouched(cfg, front);
      if OverBudget(cfg, Touched(cfg, front)) {
        OverBudgetMonotone(cfg, Touched(cfg, front), Touched(cfg, events));
      }
    }
  }

  /** However the window is split, merging gives the partial of the whole window, with
      the same overflow mark. */
  lemma MergeIsConcatenation(cfg: Config, xs: seq<Event>, ys: seq<Event>)
    ensures MergeState(cfg, Build(cfg, xs), Build(cfg, ys)) == Build(cfg, xs + ys)
  {
    OverflowIsExact(cfg, xs);
    OverflowIsExact(cfg, ys);
    OverflowIsExact(cfg, xs + ys);
    TouchedConcat(cfg, xs, ys);
    LinksTouched(cfg, xs);
    LinksTouched(cfg, ys);
    ComposeIsConcatenation(cfg, xs, ys);
    if OverBudget(cfg, Touched(cfg, xs)) {
      OverBudgetMonotone(cfg, Touched(cfg, xs), Touched(cfg, xs + ys));
    } else if OverBudget(cfg, Touched(cfg, ys)) {
      OverBudgetMonotone(cfg, Touched(cfg, ys), Touched(cfg, xs + ys));
    }
  }
}
