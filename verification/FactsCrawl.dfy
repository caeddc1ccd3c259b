/** The durable crawl: internal/analytics/factsindex.go and indexer.go. A queue in the
    database holds the frontier; enqueuers, readers and the single worker interleave at
    transaction boundaries. The tree does not change during the crawl. */
module FactsCrawl {
  import opened Wrappers
  import opened Sums

  // A path as its components; [] is "/".
  type Path = seq<string>

  datatype Node = File(size: int) | Dir(children: set<string>)

  datatype Scope = Scope(name: string, root: Path, exclude: seq<Path>)

  // The indexed tree and the configured scopes.
  datatype World = World(tree: map<Path, Node>, scopes: seq<Scope>)

  const MAX_BYTES: int := 64 * 1024 * 1024
  const BATCH: nat := 32

  /** Every node but the root is listed by its parent directory, and nothing else is. */
  ghost predicate WellFormed(w: World) {
    && (forall p :: p in w.tree && p != [] ==>
          p[..|p| - 1] in w.tree && w.tree[p[..|p| - 1]].Dir? && p[|p| - 1] in w.tree[p[..|p| - 1]].children)
    && (forall p, c :: p in w.tree && w.tree[p].Dir? && c in w.tree[p].children ==> p + [c] in w.tree)
  }

  predicate Within(prefix: Path, p: Path) { prefix <= p }

  predicate Excluded(w: World, p: Path) {
    exists i, j :: 0 <= i < |w.scopes| && 0 <= j < |w.scopes[i].exclude| && Within(w.scopes[i].exclude[j], p)
  }

  /** The scope with the longest root that holds p, the first of several; "" if none. */
  function OwnerAmong(scopes: seq<Scope>, p: Path, owner: string, longest: int): string {
    if scopes == [] then owner
    else if Within(scopes[0].root, p) && |scopes[0].root| > longest
        then OwnerAmong(scopes[1..], p, scopes[0].name, |scopes[0].root|)
    else OwnerAmong(scopes[1..], p, owner, longest)
  }

  function Owner(w: World, p: Path): string { OwnerAmong(w.scopes, p, "", -1) }

  // No root that holds p is longer than that of scope i, and none before i is as long.
  ghost predicate Nearest(scopes: seq<Scope>, p: Path, i: nat)
    requires i < |scopes|
  {
    && scopes[i].root <= p
    && forall j :: 0 <= j < |scopes| && scopes[j].root <= p ==>
         |scopes[j].root| <= |scopes[i].root| && (j < i ==> |scopes[j].root| < |scopes[i].root|)
  }

  lemma {:induction false} OwnerAmongIs(scopes: seq<Scope>, p: Path, owner: string, longest: int)
    requires longest >= -1
    ensures var nearer := exists i :: 0 <= i < |scopes| && scopes[i].root <= p && |scopes[i].root| > longest;
            && (!nearer ==> OwnerAmong(scopes, p, owner, longest) == owner)
            && (nearer ==> exists i :: 0 <= i < |scopes| && Nearest(scopes, p, i) && |scopes[i].root| > longest &&
                                       OwnerAmong(scopes, p, owner, longest) == scopes[i].name)
  {
    if scopes != [] {
      var first, rest := scopes[0], scopes[1..];
      var takes := first.root <= p && |first.root| > longest;
      var name, least := if takes then first.name else owner, if takes then |first.root| else longest;
      OwnerAmongIs(rest, p, name, least);
      assert forall i :: 0 < i < |scopes| ==> scopes[i] == rest[i - 1];
      if i :| 0 <= i < |rest| && rest[i].root <= p && |rest[i].root| > least {
        var k :| 0 <= k < |rest| && Nearest(rest, p, k) && |rest[k].root| > least
                 && OwnerAmong(rest, p, name, least) == rest[k].name;
        assert Nearest(scopes, p, k + 1) && scopes[k + 1] == rest[k];
      } else if takes {
        assert Nearest(scopes, p, 0);
      }
    }
  }

  /** A file belongs to the first of the scopes with the longest root that holds it, and to
      none when no root does. */
  lemma OwnerIsNearest(w: World, p: Path)
    ensures (forall i :: 0 <= i < |w.scopes| ==> !(w.scopes[i].root <= p)) ==> Owner(w, p) == ""
    ensures (exists i :: 0 <= i < |w.scopes| && w.scopes[i].root <= p) ==>
              exists i :: 0 <= i < |w.scopes| && Nearest(w.scopes, p, i) && Owner(w, p) == w.scopes[i].name
  {
    OwnerAmongIs(w.scopes, p, "", -1);
  }

  ghost function Roots(w: World): set<Path> { set i | 0 <= i < |w.scopes| :: w.scopes[i].root }

  /** A file the crawl is promised to index. */
  ghost predicate Indexable(w: World, p: Path) {
    p in w.tree && w.tree[p].File? && w.tree[p].size <= MAX_BYTES && !Excluded(w, p) && Owner(w, p) != ""
  }

  predicate Readable(w: World, p: Path) { p in w.tree && w.tree[p].File? && !Excluded(w, p) }

  datatype FileRow = FileRow(owner: string, generation: int)

  datatype Status = Updating | Ready | Failed

  // What the worker holds between transactions.
  datatype Worker =
    | Idle
    | Scanned(path: Path)
    | Pruning(stale: set<Path>, full: bool)

  // readers are the content reads whose lookup has missed and that have yet to publish.
  // overwritten records the files whose row such a read has written since the generation
  // started, with no owned write after it.
  datatype Crawl = Crawl(
    generation: int,
    status: Status,
    queue: set<Path>,
    rows: map<Path, FileRow>,
    worker: Worker,
    readers: multiset<Path>,
    overwritten: set<Path>)

  datatype Action =
    | Restart
    | QueuePath(queued: Path)
    | LookupMisses(missed: Path)
    | PublishUnowned(unowned: Path)
    | PublishOwned(owned: Path)
    | IndexPath(path: Path)
    | CompletePath
    | FailScan
    | SelectStale(stale: set<Path>)
    | DeleteStale(row: Path)
    | FinishScan

  ghost function Stale(c: Crawl): set<Path> {
    set p | p in c.rows && c.rows[p].owner != "" && c.rows[p].generation < c.generation
  }

  ghost predicate Enabled(w: World, c: Crawl, a: Action) {
    match a
    case Restart => true
    case QueuePath(_) => true
    case LookupMisses(p) =>
      // A row of an older generation may describe an older file or lack a scalar source.
      Readable(w, p) && (p in c.rows ==> c.rows[p].generation < c.generation)
    case PublishUnowned(p) => Readable(w, p) && p in c.readers
    case PublishOwned(p) => Readable(w, p) && w.tree[p].size <= MAX_BYTES
    case IndexPath(p) => c.worker == Idle && p in c.queue
    case CompletePath => c.worker.Scanned?
    case FailScan => true
    case SelectStale(stale) =>
      c.worker == Idle && c.status != Ready && c.queue == {} && stale <= Stale(c) && |stale| <= BATCH
          && (|stale| < BATCH ==> stale == Stale(c))
    case DeleteStale(p) => c.worker.Pruning? && p in c.worker.stale
    case FinishScan => c.worker.Pruning? && c.worker.stale == {}
  }

  function Without(rows: map<Path, FileRow>, prefix: Path): map<Path, FileRow> {
    map p | p in rows && !Within(prefix, p) :: rows[p]
  }

  /** scanPath up to CompleteScanPath: what it does to the rows. */
  function Indexed(w: World, c: Crawl, p: Path): map<Path, FileRow> {
    if Excluded(w, p) then c.rows
    else if p !in w.tree then Without(c.rows, p)
    else if w.tree[p].Dir? then c.rows
    else if w.tree[p].size > MAX_BYTES then c.rows - {p}
    else c.rows[p := FileRow(Owner(w, p), c.generation)]
  }

  function Children(w: World, p: Path): set<Path> {
    if !Excluded(w, p) && p in w.tree && w.tree[p].Dir? then set c | c in w.tree[p].children :: p + [c] else {}
  }

  ghost function Apply(w: World, c: Crawl, a: Action): Crawl {
    match a
    case Restart => Crawl(c.generation + 1, Updating, Roots(w), c.rows, Idle, c.readers, {})
    case QueuePath(p) =>
      c.(queue := c.queue + {p}, status := if c.status == Ready then Ready else Updating)
    case LookupMisses(p) => c.(readers := c.readers + multiset{p})
    case PublishUnowned(p) =>
      // contentFacts.file: no owner, and the generation of the moment.
      c.(rows := c.rows[p := FileRow("", c.generation)],
         readers := c.readers - multiset{p},
         overwritten := c.overwritten + {p})
    case PublishOwned(p) =>
      // The dashboard's currentFacts, when its lookup missed or found another owner.
      c.(rows := c.rows[p := FileRow(Owner(w, p), c.generation)], overwritten := c.overwritten - {p})
    case IndexPath(p) => c.(rows := Indexed(w, c, p), worker := Scanned(p), overwritten := c.overwritten - {p})
    case CompletePath =>
      if c.worker.Scanned? then
        var p := c.worker.path;
        c.(queue := if p in c.queue then c.queue - {p} + Children(w, p) else c.queue, worker := Idle)
      else c
    case FailScan => c.(status := Failed, worker := Idle)
    case SelectStale(stale) => c.(worker := Pruning(stale, |stale| == BATCH))
    case DeleteStale(p) =>
      if c.worker.Pruning? then
        c.(rows := if p in c.rows && c.rows[p].generation < c.generation then c.rows - {p} else c.rows,
           worker := c.worker.(stale := c.worker.stale - {p}))
      else c
    case FinishScan =>
      if c.worker.Pruning? && !c.worker.full && c.queue == {} then c.(status := Ready, worker := Idle)
      else c.(worker := Idle)
  }

  /** FinishScan's result when it ends the pruning. */
  ghost predicate Completes(c: Crawl, a: Action) {
    a.FinishScan? && c.worker.Pruning? && c.worker.stale == {} && !c.worker.full && c.queue == {}
  }

  // ---- What every run keeps ----

  /** p is indexed in this generation. */
  ghost predicate Current(w: World, c: Crawl, p: Path) {
    p in c.rows && c.rows[p] == FileRow(Owner(w, p), c.generation)
  }

  /** p or an ancestor of p is still queued. */
  ghost predicate Reachable(c: Crawl, p: Path) {
    exists q :: q in c.queue && Within(q, p)
  }

  ghost predicate RowOk(w: World, c: Crawl, p: Path)
    requires p in c.rows
  {
    && c.rows[p].generation <= c.generation
    && (c.rows[p].generation == c.generation && c.rows[p].owner != "" ==>
        Indexable(w, p) && c.rows[p].owner == Owner(w, p))
  }

  /** The row of p lost its owner in this generation. */
  ghost predicate Unowned(w: World, c: Crawl, p: Path) {
    Readable(w, p) && p in c.rows && c.rows[p] == FileRow("", c.generation)
  }

  ghost predicate Invariant(w: World, c: Crawl) {
    && (forall p :: Indexable(w, p) ==> Current(w, c, p) || Reachable(c, p) || p in c.overwritten)
    && (forall p :: p in c.rows ==> RowOk(w, c, p))
    && (c.worker.Scanned? && Indexable(w, c.worker.path) ==>
        Current(w, c, c.worker.path) || c.worker.path in c.overwritten)
    && (c.worker.Pruning? && !c.worker.full ==> Stale(c) <= c.worker.stale)
    && (forall p :: p in c.overwritten ==> Unowned(w, c, p))
  }

  lemma {:induction false} OwnerInScope(scopes: seq<Scope>, p: Path, owner: string, longest: int)
    requires OwnerAmong(scopes, p, owner, longest) != owner
    ensures exists i :: 0 <= i < |scopes| && Within(scopes[i].root, p)
  {
    if Within(scopes[0].root, p) {
    } else {
      OwnerInScope(scopes[1..], p, owner, longest);
      var i :| 0 <= i < |scopes[1..]| && Within(scopes[1..][i].root, p);
      assert Within(scopes[i + 1].root, p);
    }
  }

  lemma ExcludedBelow(w: World, p: Path, q: Path)
    requires Excluded(w, p) && Within(p, q)
    ensures Excluded(w, q)
  {
  }

  /** The directories on the way to a node are in the tree and list the next step. */
  lemma {:induction false} OnTheWay(w: World, q: Path, p: Path)
    requires WellFormed(w) && p in w.tree && q < p
    ensures q in w.tree && w.tree[q].Dir? && p[|q|] in w.tree[q].children
    decreases |p|
  {
    var parent := p[..|p| - 1];
    if q != parent {
      OnTheWay(w, q, parent);
      assert parent[|q|] == p[|q|];
    }
  }

  lemma StartReaches(w: World, c: Crawl, p: Path)
    requires Indexable(w, p) && c.queue == Roots(w)
    ensures Reachable(c, p)
  {
    OwnerInScope(w.scopes, p, "", -1);
    var i :| 0 <= i < |w.scopes| && Within(w.scopes[i].root, p);
    assert w.scopes[i].root in c.queue;
  }

  lemma ChildReaches(w: World, p: Path, x: Path)
    requires WellFormed(w) && Indexable(w, x) && p < x
    ensures exists child :: child in Children(w, p) && Within(child, x)
  {
    if Excluded(w, p) { ExcludedBelow(w, p, x); }
    OnTheWay(w, p, x);
    var child := p + [x[|p|]];
    assert child in Children(w, p);
    hide Excluded, Indexable, WellFormed, Children;
    assert child <= x;
  }

  lemma CompletedPath(w: World, c: Crawl, p: Path)
    requires c.worker == Scanned(p) && p in c.queue
    ensures Apply(w, c, CompletePath) == c.(queue := c.queue - {p} + Children(w, p), worker := Idle)
  {
  }

  lemma QueueReaches(w: World, c: Crawl, now: Crawl, p: Path, x: Path)
    requires WellFormed(w) && Indexable(w, x) && Reachable(c, x) && p != x
    requires now.queue == c.queue - {p} + Children(w, p)
    ensures Reachable(now, x)
  {
    var q :| q in c.queue && Within(q, x);
    if q == p {
      ChildReaches(w, p, x);
      hide Children, Indexable, WellFormed;
      var child :| child in Children(w, p) && Within(child, x);
      assert child in now.queue;
    } else {
      hide Children, Indexable, WellFormed;
      assert q in now.queue;
    }
  }

  /** Taking p off the queue in exchange for its children keeps the frontier. */
  lemma CompleteReaches(w: World, c: Crawl, p: Path, x: Path)
    requires WellFormed(w) && Invariant(w, c) && c.worker == Scanned(p) && p in c.queue
    requires Indexable(w, x)
    ensures var now := Apply(w, c, CompletePath); Current(w, now, x) || Reachable(now, x) || x in now.overwritten
  {
    CompletedPath(w, c, p);
    if !Current(w, c, x) && x !in c.overwritten {
      assert Reachable(c, x) && p != x;
      hide Invariant, Apply;
      QueueReaches(w, c, Apply(w, c, CompletePath), p, x);
    }
  }

  lemma IndexedKeeps(w: World, c: Crawl, p: Path, x: Path)
    requires WellFormed(w) && Indexable(w, x)
    ensures Current(w, c, x) ==> Current(w, c.(rows := Indexed(w, c, p)), x)
    ensures x == p ==> Current(w, c.(rows := Indexed(w, c, p)), x)
  {
    if p !in w.tree && Within(p, x) && p != x { OnTheWay(w, p, x); }
  }

  lemma IndexedUnowned(w: World, c: Crawl, p: Path, x: Path)
    requires WellFormed(w) && Unowned(w, c, x) && x != p
    ensures Unowned(w, Apply(w, c, IndexPath(p)), x)
  {
    if p !in w.tree && Within(p, x) { OnTheWay(w, p, x); }
  }

  lemma IndexPathKeeps(w: World, c: Crawl, p: Path)
    requires WellFormed(w) && Invariant(w, c) && Enabled(w, c, IndexPath(p))
    ensures Invariant(w, Apply(w, c, IndexPath(p)))
  {
    var now := Apply(w, c, IndexPath(p));
    forall x | Indexable(w, x)
      ensures Current(w, now, x) || Reachable(now, x) || x in now.overwritten
      ensures x == p ==> Current(w, now, x)
    {
      IndexedKeeps(w, c, p, x);
      if Reachable(c, x) {
        var q :| q in c.queue && Within(q, x);
        assert q in now.queue;
      }
    }
    forall x | x in now.rows
      ensures RowOk(w, now, x)
    {
      if x in c.rows { assert RowOk(w, c, x); }
    }
    forall x | x in now.overwritten
      ensures Unowned(w, now, x)
    {
      IndexedUnowned(w, c, p, x);
    }
  }

  lemma CompletePathKeeps(w: World, c: Crawl)
    requires WellFormed(w) && Invariant(w, c) && c.worker.Scanned?
    ensures Invariant(w, Apply(w, c, CompletePath))
  {
    var now := Apply(w, c, CompletePath);
    forall x | Indexable(w, x)
      ensures Current(w, now, x) || Reachable(now, x) || x in now.overwritten
    {
      if c.worker.path in c.queue {
        CompleteReaches(w, c, c.worker.path, x);
      } else if !Current(w, c, x) && x !in c.overwritten {
        var q :| q in c.queue && Within(q, x);
        assert q in now.queue;
      }
    }
    forall x | x in now.rows
      ensures RowOk(w, now, x)
    {
      assert RowOk(w, c, x);
    }
  }

  lemma RestartKeeps(w: World, c: Crawl)
    requires Invariant(w, c)
    ensures Invariant(w, Apply(w, c, Restart))
  {
    var now := Apply(w, c, Restart);
    forall x | Indexable(w, x)
      ensures Reachable(now, x)
    {
      StartReaches(w, now, x);
    }
    forall x | x in now.rows
      ensures RowOk(w, now, x)
    {
      assert RowOk(w, c, x);
    }
  }

  lemma PublishKeeps(w: World, c: Crawl, a: Action)
    requires Invariant(w, c) && Enabled(w, c, a) && (a.PublishUnowned? || a.PublishOwned?)
    ensures Invariant(w, Apply(w, c, a))
  {
    var p, owner := if a.PublishOwned? then a.owned else a.unowned, if a.PublishOwned? then Owner(w, a.owned) else "";
    var now := Apply(w, c, a);
    assert now == c.(rows := c.rows[p := FileRow(owner, c.generation)], readers := now.readers,
                     overwritten := if a.PublishOwned? then c.overwritten - {p} else c.overwritten + {p});
    hide Apply, Excluded;
    forall x | Indexable(w, x)
      ensures Current(w, now, x) || Reachable(now, x) || x in now.overwritten
    {
      if Reachable(c, x) {
        var q :| q in c.queue && Within(q, x);
        assert q in now.queue;
      }
    }
  }

  lemma OthersKeep(w: World, c: Crawl, a: Action)
    requires Invariant(w, c) && Enabled(w, c, a)
    requires a.QueuePath? || a.LookupMisses? || a.FailScan? || a.SelectStale? || a.DeleteStale? || a.FinishScan?
    ensures Invariant(w, Apply(w, c, a))
  {
  }

  lemma ApplyKeepsInvariant(w: World, c: Crawl, a: Action)
    requires WellFormed(w) && Invariant(w, c) && Enabled(w, c, a)
    ensures Invariant(w, Apply(w, c, a))
  {
    hide Invariant, Apply;
    match a
    case Restart => RestartKeeps(w, c);
    case PublishUnowned(_) => PublishKeeps(w, c, a);
    case PublishOwned(_) => PublishKeeps(w, c, a);
    case IndexPath(p) => IndexPathKeeps(w, c, p);
    case CompletePath => CompletePathKeeps(w, c);
    case _ => OthersKeep(w, c, a);
  }

  ghost predicate Possible(w: World, c: Crawl, run: seq<Action>)
    decreases |run|
  {
    run == [] || (Enabled(w, c, run[0]) && Possible(w, Apply(w, c, run[0]), run[1..]))
  }

  ghost function After(w: World, c: Crawl, run: seq<Action>): Crawl
    decreases |run|
  {
    if run == [] then c else After(w, Apply(w, c, run[0]), run[1..])
  }

  lemma {:induction false} RunsKeepInvariant(w: World, c: Crawl, run: seq<Action>)
    requires WellFormed(w) && Invariant(w, c) && Possible(w, c, run)
    ensures Invariant(w, After(w, c, run))
    decreases |run|
  {
    if run != [] {
      ApplyKeepsInvariant(w, c, run[0]);
      hide Invariant, Apply, Enabled;
      RunsKeepInvariant(w, Apply(w, c, run[0]), run[1..]);
    }
  }

  /** Rows left over from any earlier generation. */
  ghost predicate Leftover(c: Crawl) {
    forall p :: p in c.rows ==> c.rows[p].generation <= c.generation
  }

  /** The owned rows are the promised files at the current generation, except for those
      that a content read has overwritten. */
  ghost predicate Complete(w: World, c: Crawl) {
    && (forall p :: Indexable(w, p) ==> Current(w, c, p) || p in c.overwritten)
    && (forall p :: p in c.rows && c.rows[p].owner != "" ==> Current(w, c, p) && Indexable(w, p))
  }

  lemma NothingLeftIsComplete(w: World, c: Crawl)
    requires Invariant(w, c) && c.queue == {} && Stale(c) == {}
    ensures Complete(w, c)
  {
    forall p | p in c.rows && c.rows[p].owner != ""
      ensures Current(w, c, p) && Indexable(w, p)
    {
      assert RowOk(w, c, p);
      assert p !in Stale(c);
      assert c.rows[p] == FileRow(Owner(w, p), c.generation);
    }
  }

  /** The run goes from the start of a generation to a FinishScan that reports completion. */
  ghost predicate CompletedCrawl(w: World, before: Crawl, run: seq<Action>) {
    var started := Apply(w, before, Restart);
    Leftover(before) && Possible(w, started, run) && Completes(After(w, started, run), FinishScan)
  }

  /** When the crawl reports completion, whatever was queued, read, restarted or failed on
      the way, no owned row is out of date or out of place, and the only files without one
      are those a content read has overwritten. */
  lemma CompletionIsComplete(w: World, before: Crawl, run: seq<Action>)
    requires WellFormed(w) && CompletedCrawl(w, before, run)
    ensures var end := After(w, Apply(w, before, Restart), run);
            Complete(w, end) && forall p :: p in end.overwritten ==> Unowned(w, end, p)
  {
    var started := Apply(w, before, Restart);
    StartedInvariant(w, before);
    RunsKeepInvariant(w, started, run);
    NothingLeftIsComplete(w, After(w, started, run));
  }

  lemma StartedInvariant(w: World, c: Crawl)
    requires Leftover(c)
    ensures Invariant(w, Apply(w, c, Restart))
    ensures Apply(w, c, Restart) == Crawl(c.generation + 1, Updating, Roots(w), c.rows, Idle, c.readers, {})
  {
    var now := Apply(w, c, Restart);
    forall x | Indexable(w, x)
      ensures Reachable(now, x)
    {
      StartReaches(w, now, x);
    }
  }

  // ---- Termination ----

  ghost function Below(w: World, p: Path): set<Path> { set q | q in w.tree && Within(p, q) }

  /** Twice the nodes at or below a queued path, less one; a missing path weighs one. */
  ghost function Weight(w: World): Path -> int {
    p => if p in w.tree then 2 * |Below(w, p)| - 1 else 1
  }

  ghost function BelowChildren(w: World, p: Path, names: set<string>): set<Path> {
    set q | q in w.tree && |q| > |p| && Within(p, q) && q[|p|] in names
  }

  ghost function ChildPaths(p: Path, names: set<string>): set<Path> { set c | c in names :: p + [c] }

  lemma {:induction false} ChildrenWeight(w: World, p: Path, names: set<string>)
    requires WellFormed(w) && p in w.tree && w.tree[p].Dir? && names <= w.tree[p].children
    ensures Sum(ChildPaths(p, names), Weight(w)) == 2 * |BelowChildren(w, p, names)| - |names|
    decreases |names|
  {
    if names == {} {
      assert ChildPaths(p, names) == {} && BelowChildren(w, p, names) == {};
    } else {
      var c :| c in names;
      var rest := names - {c};
      ChildrenWeight(w, p, rest);
      assert Weight(w)(p + [c]) == 2 * |Below(w, p + [c])| - 1;
      assert names == rest + {c};
      hide *;
      ChildSplit(w, p, rest, c);
      SumInsert(ChildPaths(p, rest), Weight(w), p + [c]);
    }
  }

  lemma ChildSplit(w: World, p: Path, rest: set<string>, c: string)
    requires c !in rest
    ensures ChildPaths(p, rest + {c}) == ChildPaths(p, rest) + {p + [c]} && p + [c] !in ChildPaths(p, rest)
    ensures |BelowChildren(w, p, rest + {c})| == |BelowChildren(w, p, rest)| + |Below(w, p + [c])|
  {
    BelowChild(w, p, c);
    assert forall d :: (p + [d])[|p|] == d;
    var some, one := BelowChildren(w, p, rest), BelowChildren(w, p, {c});
    assert BelowChildren(w, p, rest + {c}) == some + one && some !! one;
  }

  lemma BelowChild(w: World, p: Path, c: string)
    ensures BelowChildren(w, p, {c}) == Below(w, p + [c])
  {
  }

  /** Completing a path replaces its weight by less, nested roots included. */
  lemma ChildrenAreLighter(w: World, p: Path)
    requires WellFormed(w)
    ensures Sum(Children(w, p), Weight(w)) < Weight(w)(p)
  {
    if p in w.tree {
      var names := if w.tree[p].Dir? then w.tree[p].children else {};
      FewerBelowChildren(w, p, names);
      if !Excluded(w, p) && w.tree[p].Dir? {
        assert Children(w, p) == ChildPaths(p, names);
        ChildrenWeight(w, p, names);
      }
    }
  }

  lemma FewerBelowChildren(w: World, p: Path, names: set<string>)
    requires p in w.tree
    ensures |BelowChildren(w, p, names)| < |Below(w, p)|
  {
    SmallerSet(BelowChildren(w, p, names), Below(w, p) - {p});
  }

  lemma {:induction false} SmallerSet(a: set<Path>, b: set<Path>)
    requires a <= b
    ensures |a| <= |b|
  {
    assert b == a + (b - a);
  }

  lemma WeightPositive(w: World, p: Path)
    ensures Weight(w)(p) >= 1
  {
    if p in w.tree { assert p in Below(w, p); }
  }

  /** Every completed path strictly shrinks the total weight of the queue, so a crawl ends
      however its roots are nested. */
  lemma CompletePathShrinks(w: World, c: Crawl)
    requires WellFormed(w) && c.worker.Scanned? && c.worker.path in c.queue
    ensures 0 <= Sum(Apply(w, c, CompletePath).queue, Weight(w)) < Sum(c.queue, Weight(w))
  {
    var p, weight := c.worker.path, Weight(w);
    assert Apply(w, c, CompletePath).queue == c.queue - {p} + Children(w, p);
    hide Apply;
    ChildrenAreLighter(w, p);
    forall q
      ensures weight(q) >= 0
    {
      WeightPositive(w, q);
    }
    hide Weight, Children;
    SumReplace(c.queue, weight, p, Children(w, p));
  }

  // ---- When completion is exact ----

  /** The owned rows are the promised files, no more and no fewer. */
  ghost predicate Exact(w: World, c: Crawl) {
    forall p :: p in c.rows && c.rows[p].owner != "" <==> Indexable(w, p)
  }

  /** The action gives p its owner back, or starts a generation that will. */
  predicate Covers(a: Action, p: Path) {
    match a
    case IndexPath(q) => q == p
    case PublishOwned(q) => q == p
    case Restart => true
    case _ => false
  }

  ghost predicate NeverCovered(run: seq<Action>, p: Path) {
    forall i :: 0 <= i < |run| ==> !Covers(run[i], p)
  }

  /** Nothing in the run covers p again after some unowned publish of p. */
  ghost predicate LeftUnowned(run: seq<Action>, p: Path) {
    exists i :: 0 <= i < |run| && run[i] == PublishUnowned(p) && NeverCovered(run[i + 1..], p)
  }

  lemma LeftUnownedFirst(run: seq<Action>, p: Path)
    requires run != []
    ensures LeftUnowned(run, p) <==>
            LeftUnowned(run[1..], p) || (run[0] == PublishUnowned(p) && NeverCovered(run[1..], p))
  {
    if i :| 0 < i < |run| && run[i] == PublishUnowned(p) && NeverCovered(run[i + 1..], p) {
      assert run[1..][i - 1] == run[i] && run[1..][i..] == run[i + 1..];
    }
    if i :| 0 <= i < |run[1..]| && run[1..][i] == PublishUnowned(p) && NeverCovered(run[1..][i + 1..], p) {
      assert run[i + 1] == run[1..][i] && run[i + 2..] == run[1..][i + 1..];
    }
  }

  lemma NeverCoveredFirst(run: seq<Action>, p: Path)
    requires run != []
    ensures NeverCovered(run, p) <==> !Covers(run[0], p) && NeverCovered(run[1..], p)
  {
    assert forall i :: 0 < i < |run| ==> run[i] == run[1..][i - 1];
  }

  lemma StepOverwritten(w: World, c: Crawl, a: Action, p: Path)
    ensures p in Apply(w, c, a).overwritten <==> a == PublishUnowned(p) || (p in c.overwritten && !Covers(a, p))
  {
    hide Indexed, Children, Roots, Owner;
  }

  lemma {:induction false} OverwrittenAre(w: World, c: Crawl, run: seq<Action>, p: Path)
    ensures p in After(w, c, run).overwritten <==> LeftUnowned(run, p) || (p in c.overwritten && NeverCovered(run, p))
    decreases |run|
  {
    if run != [] {
      OverwrittenAre(w, Apply(w, c, run[0]), run[1..], p);
      assert After(w, c, run) == After(w, Apply(w, c, run[0]), run[1..]);
      LeftUnownedFirst(run, p);
      NeverCoveredFirst(run, p);
      StepOverwritten(w, c, run[0], p);
      hide *;
    }
  }

  /** Completion is exact if and only if no content read published a promised file after
      the last time the worker or the dashboard wrote its row. */
  lemma CompletionExactIff(w: World, before: Crawl, run: seq<Action>)
    requires WellFormed(w) && CompletedCrawl(w, before, run)
    ensures Exact(w, After(w, Apply(w, before, Restart), run)) <==> forall p :: Indexable(w, p) ==> !LeftUnowned(run, p)
  {
    var started := Apply(w, before, Restart);
    CompletionIsComplete(w, before, run);
    forall p
      ensures p in After(w, started, run).overwritten <==> LeftUnowned(run, p)
    {
      OverwrittenAre(w, started, run, p);
    }
    hide After, Possible, Apply, LeftUnowned;
  }

  ghost predicate AlwaysExact(w: World) {
    forall before, run :: CompletedCrawl(w, before, run) ==> Exact(w, After(w, Apply(w, before, Restart), run))
  }

  // Every row belongs to the running generation.
  ghost predicate AllNew(c: Crawl) {
    c.worker == Idle && c.status == Updating && forall p :: p in c.rows ==> c.rows[p].generation == c.generation
  }

  lemma StepsConcatenate(w: World, c: Crawl, some: seq<Action>, more: seq<Action>)
    requires Possible(w, c, some) && Possible(w, After(w, c, some), more)
    ensures Possible(w, c, some + more) && After(w, c, some + more) == After(w, After(w, c, some), more)
    decreases |some|
  {
    if some == [] {
      assert some + more == more;
    } else {
      StepsConcatenate(w, Apply(w, c, some[0]), some[1..], more);
      assert (some + more)[1..] == some[1..] + more;
    }
  }

  /** From any point of a crawl the worker can drain the queue. */
  lemma {:induction false} CrawlDrains(w: World, c: Crawl) returns (run: seq<Action>)
    requires WellFormed(w) && AllNew(c)
    ensures Possible(w, c, run)
    ensures var end := After(w, c, run);
            AllNew(end) && end.queue == {} && end.generation == c.generation && end.readers == c.readers
    decreases Sum(c.queue, Weight(w))
  {
    if c.queue == {} {
      run := [];
    } else {
      var p :| p in c.queue;
      var scanned := Apply(w, c, IndexPath(p));
      var next := Apply(w, scanned, CompletePath);
      assert AllNew(next) && next.generation == c.generation && next.readers == c.readers;
      CompletePathShrinks(w, scanned);
      var rest := CrawlDrains(w, next);
      StepThenSteps(w, scanned, CompletePath, rest);
      StepThenSteps(w, c, IndexPath(p), [CompletePath] + rest);
      run := [IndexPath(p)] + ([CompletePath] + rest);
    }
  }

  lemma StepThenSteps(w: World, c: Crawl, a: Action, rest: seq<Action>)
    requires Enabled(w, c, a) && Possible(w, Apply(w, c, a), rest)
    ensures Possible(w, c, [a] + rest) && After(w, c, [a] + rest) == After(w, Apply(w, c, a), rest)
  {
  }

  /** Whichever file is promised, a crawl can complete without it: a content read misses
      it, the worker indexes it, and the read publishes its unowned row over it. */
  lemma ContentReadLosesOwner(w: World, p: Path) returns (before: Crawl, run: seq<Action>)
    requires WellFormed(w) && Indexable(w, p)
    ensures CompletedCrawl(w, before, run) && !Exact(w, After(w, Apply(w, before, Restart), run))
  {
    before := Crawl(0, Updating, {}, map[], Idle, multiset{}, {});
    var started := Apply(w, before, Restart);
    var missed := Apply(w, started, LookupMisses(p));
    assert Enabled(w, started, LookupMisses(p)) && AllNew(missed) && p in missed.readers;
    var drain := CrawlDrains(w, missed);
    hide Possible, After, Apply, WellFormed, Enabled;
    var last := PublishLast(w, After(w, missed, drain), p);
    StepsConcatenate(w, missed, drain, last);
    StepThenSteps(w, started, LookupMisses(p), drain + last);
    run := [LookupMisses(p)] + (drain + last);
  }

  /** On a drained queue: the late publish, then the stale rows, of which there are none. */
  lemma PublishLast(w: World, c: Crawl, p: Path) returns (run: seq<Action>)
    requires Indexable(w, p) && AllNew(c) && c.queue == {} && p in c.readers
    ensures Possible(w, c, run)
    ensures var end := After(w, c, run); Completes(end, FinishScan) && p in end.rows && end.rows[p].owner == ""
  {
    var published := Apply(w, c, PublishUnowned(p));
    var selected := Apply(w, published, SelectStale({}));
    assert Stale(published) == {};
    assert Enabled(w, c, PublishUnowned(p)) && Enabled(w, published, SelectStale({}));
    assert Completes(selected, FinishScan) && p in selected.rows && selected.rows[p].owner == "";
    NoSteps(w, selected);
    hide *;
    StepThenSteps(w, published, SelectStale({}), []);
    StepThenSteps(w, c, PublishUnowned(p), [SelectStale({})] + []);
    run := [PublishUnowned(p)] + ([SelectStale({})] + []);
  }

  lemma NoSteps(w: World, c: Crawl)
    ensures Possible(w, c, []) && After(w, c, []) == c
  {
  }

  /** So completion is exact in every run only where there is nothing to index. */
  lemma AlwaysExactIffNothingToIndex(w: World)
    requires WellFormed(w)
    ensures AlwaysExact(w) <==> forall p :: !Indexable(w, p)
  {
    if p :| Indexable(w, p) {
      var before, run := ContentReadLosesOwner(w, p);
    } else {
      forall before, run | CompletedCrawl(w, before, run)
        ensures Exact(w, After(w, Apply(w, before, Restart), run))
      {
        CompletionExactIff(w, before, run);
      }
    }
  }
}
