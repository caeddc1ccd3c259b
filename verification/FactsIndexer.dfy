/** The crawl worker: internal/analytics/indexer.go over the scan tables of
    internal/analytics/factsindex.go, on a tree that can be read and does not change.
    Every method is a run of the state machine in FactsCrawl. */
module FactsIndexer {
  import opened Sums
  import opened FactsCrawl

  /** The work left in the queue. */
  ghost function Load(w: World, queue: set<Path>): int { Sum(queue, Weight(w)) }

  lemma DrainedIsCurrent(w: World, c: Crawl)
    requires Invariant(w, c) && c.queue == {}
    ensures forall p :: Indexable(w, p) ==> Current(w, c, p) || p in c.overwritten
  {
  }

  ghost function Scan(w: World, c: Crawl, p: Path): Crawl { Apply(w, Apply(w, c, IndexPath(p)), CompletePath) }

  lemma ScanKeeps(w: World, c: Crawl, p: Path)
    requires WellFormed(w) && Invariant(w, c) && c.worker == Idle && p in c.queue
    ensures Invariant(w, Scan(w, c, p))
    ensures 0 <= Load(w, Scan(w, c, p).queue) < Load(w, c.queue)
  {
    ApplyKeepsInvariant(w, c, IndexPath(p));
    ApplyKeepsInvariant(w, Apply(w, c, IndexPath(p)), CompletePath);
    CompletePathShrinks(w, Apply(w, c, IndexPath(p)));
    hide Invariant, Children, Sum, Weight;
  }

  ghost predicate LaterIn(paths: seq<Path>, i: nat, q: Path)
    requires i < |paths|
  {
    q in paths[i + 1..]
  }

  /** A turn leaves the status as it is, except that an enqueue resumes a failed scan. */
  predicate Resumes(before: Status, now: Status) { now == before || (before == Failed && now == Updating) }

  ghost predicate Quiet(arrivals: Path -> seq<Path>) { forall p :: arrivals(p) == [] }

  lemma NoArrivals(arrivals: Path -> seq<Path>, p: Path)
    requires Quiet(arrivals)
    ensures arrivals(p) == []
  {
  }

  lemma CompleteKeeps(w: World, c: Crawl, p: Path)
    requires WellFormed(w) && Invariant(w, c) && c.worker == Scanned(p) && p in c.queue
    ensures Invariant(w, Apply(w, c, CompletePath))
    ensures Apply(w, c, CompletePath) == c.(queue := c.queue - {p} + Children(w, p), worker := Idle)
  {
    ApplyKeepsInvariant(w, c, CompletePath);
    CompletedPath(w, c, p);
  }

  lemma LoadNonNegative(w: World, queue: set<Path>)
    ensures Load(w, queue) >= 0
  {
    forall q
      ensures Weight(w)(q) >= 0
    {
      WeightPositive(w, q);
    }
    SumNonNegative(queue, Weight(w));
  }

  /** Deleting stale rows one at a time removes exactly those. */
  lemma DeleteStaleRow(w: World, c: Crawl, p: Path)
    requires Invariant(w, c) && c.worker.Pruning? && p in c.worker.stale && c.worker.stale <= Stale(c)
    ensures var now := Apply(w, c, DeleteStale(p));
            now.rows == c.rows - {p} && Stale(now) == Stale(c) - {p}
                && now.worker == c.worker.(stale := c.worker.stale - {p})
  {
  }

  class Indexer {
    const w: World
    var generation: int
    var status: Status
    var queue: set<Path>
    var rows: map<Path, FileRow>
    var dirty: set<Path>
    ghost var worker: Worker
    ghost var readers: multiset<Path>
    ghost var overwritten: set<Path>

    ghost function State(): Crawl
      reads this
    {
      Crawl(generation, status, queue, rows, worker, readers, overwritten)
    }

    ghost predicate Valid()
      reads this
    {
      WellFormed(w) && Invariant(w, State()) && worker == Idle
    }

    /** A resumed scan keeps its queue, a completed one its rows; anything else starts a
        new generation from the roots of the scopes. */
    method StartScan(compatible: bool)
      requires WellFormed(w) && Leftover(State())
      requires compatible ==> Valid()
      modifies this
      ensures Valid()
      ensures State() == if compatible && old(status) != Failed then old(State()) else Apply(w, old(State()), Restart)
    {
      if compatible && status != Failed { return; }
      ghost var before := State();
      StartedInvariant(w, before);
      var roots := ScopeRoots();
      hide Invariant, WellFormed, Roots, Leftover, Apply;
      generation, status, queue := generation + 1, Updating, roots;
      worker, overwritten := Idle, {};
      assert State() == Apply(w, before, Restart);
    }

    method ScopeRoots() returns (roots: set<Path>)
      ensures roots == Roots(w)
    {
      roots := {};
      for i := 0 to |w.scopes|
        invariant roots == set k | 0 <= k < i :: w.scopes[k].root
      {
        roots := roots + {w.scopes[i].root};
      }
    }

    /** A request to index p again, possibly while p is being scanned. */
    method Enqueue(p: Path)
      requires WellFormed(w) && Invariant(w, State())
      modifies this`dirty, this`queue, this`status
      ensures Invariant(w, State()) && State() == Apply(w, old(State()), QueuePath(p))
      ensures dirty == old(dirty) + {p}
    {
      dirty := dirty + {p};
      QueueScanPath(p);
    }

    method QueueScanPath(p: Path)
      requires WellFormed(w) && Invariant(w, State())
      modifies this`queue, this`status
      ensures Invariant(w, State()) && State() == Apply(w, old(State()), QueuePath(p))
      ensures queue == old(queue) + {p} && status == if old(status) == Ready then Ready else Updating
    {
      ApplyKeepsInvariant(w, State(), QueuePath(p));
      if status != Ready { status := Updating; }
      queue := queue + {p};
    }

    method CompleteScanPath(p: Path, children: set<Path>)
      modifies this`queue
      ensures queue == if p in old(queue) then old(queue) - {p} + children else old(queue)
    {
      if p !in queue { return; }
      queue := queue - {p} + children;
    }

    /** What the scan of a queued path does to the rows, and the paths it finds. */
    method IndexPath(p: Path) returns (children: set<Path>)
      requires Valid() && p in queue
      modifies this`rows, this`worker, this`overwritten
      ensures Invariant(w, State()) && State() == Apply(w, old(State()), FactsCrawl.IndexPath(p))
      ensures overwritten == old(overwritten) - {p}
      ensures children == Children(w, p) && worker == Scanned(p)
      ensures p in w.tree && w.tree[p].File? && w.tree[p].size <= MAX_BYTES && !Excluded(w, p) ==>
                && p in rows && rows[p].generation == generation
                && if exists i :: 0 <= i < |w.scopes| && w.scopes[i].root <= p then
                     exists i :: 0 <= i < |w.scopes| && Nearest(w.scopes, p, i) && rows[p].owner == w.scopes[i].name
                   else rows[p].owner == ""
    {
      ApplyKeepsInvariant(w, State(), FactsCrawl.IndexPath(p));
      OwnerIsNearest(w, p);
      hide Invariant, WellFormed, Nearest;
      children := {};
      worker, overwritten := Scanned(p), overwritten - {p};
      if Excluded(w, p) { return; }
      if p !in w.tree {
        rows := Without(rows, p);
      } else if w.tree[p].Dir? {
        children := Children(w, p);
      } else if w.tree[p].size > MAX_BYTES {
        rows := rows - {p};
      } else {
        rows := rows[p := FileRow(Owner(w, p), generation)];
      }
    }

    method EnqueueAll(arrivals: seq<Path>)
      requires WellFormed(w) && Invariant(w, State())
      modifies this`dirty, this`queue, this`status
      ensures Invariant(w, State()) && Resumes(old(status), status)
      ensures queue == old(queue) + (set q | q in arrivals) && dirty == old(dirty) + (set q | q in arrivals)
      ensures arrivals == [] ==> State() == old(State()) && dirty == old(dirty)
    {
      hide Invariant, WellFormed;
      for i := 0 to |arrivals|
        invariant Invariant(w, State()) && Resumes(old(status), status) && (i == 0 ==> status == old(status))
        invariant queue == old(queue) + (set q | q in arrivals[..i])
            && dirty == old(dirty) + (set q | q in arrivals[..i])
      {
        Enqueue(arrivals[i]);
        assert arrivals[..i + 1] == arrivals[..i] + [arrivals[i]];
      }
      assert arrivals[..|arrivals|] == arrivals;
    }

    /** One path of a batch, while arrivals are enqueued. None of these is lost, p itself
        included: each is still queued at the end. */
    method ScanPath(p: Path, arrivals: seq<Path>)
      requires Valid() && p in queue
      modifies this
      ensures Valid() && generation == old(generation) && Resumes(old(status), status)
      ensures readers == old(readers) && overwritten == old(overwritten) - {p}
      ensures forall q :: q in arrivals ==> q in queue
      ensures old(queue) - {p} <= queue
      ensures arrivals == [] ==> State() == Scan(w, old(State()), p) && 0 <= Load(w, queue) < Load(w, old(queue))
    {
      ghost var before := State();
      hide Load, Invariant, WellFormed, Apply, Children;
      dirty := dirty - {p};
      var children := IndexPath(p);
      EnqueueAll(arrivals);
      FinishPath(p, children);
      if arrivals == [] { ScanKeeps(w, before, p); }
      if p in dirty {
        QueueScanPath(p);
      }
    }

    method FinishPath(p: Path, children: set<Path>)
      requires WellFormed(w) && Invariant(w, State()) && worker == Scanned(p) && p in queue
          && children == Children(w, p)
      modifies this`queue, this`worker
      ensures Valid() && State() == Apply(w, old(State()), FactsCrawl.CompletePath)
      ensures queue == old(queue) - {p} + children
    {
      CompleteKeeps(w, State(), p);
      hide Invariant, WellFormed, Apply, Children;
      ghost var scanned := Apply(w, State(), FactsCrawl.CompletePath);
      CompleteScanPath(p, children);
      worker := Idle;
      assert State() == scanned;
    }

    /** Up to limit queued paths. */
    method NextScanPaths(limit: nat) returns (paths: seq<Path>)
      ensures forall p :: p in paths ==> p in queue
      ensures forall i, j :: 0 <= i < j < |paths| ==> paths[i] != paths[j]
      ensures limit > 0 && queue != {} ==> paths != []
    {
      paths := [];
      var todo := queue;
      while todo != {} && |paths| < limit
        invariant todo <= queue
        invariant forall p :: p in paths ==> p in queue && p !in todo
        invariant forall i, j :: 0 <= i < j < |paths| ==> paths[i] != paths[j]
        invariant paths == [] ==> todo == queue
        decreases |todo|
      {
        var p :| p in todo;
        todo := todo - {p};
        paths := paths + [p];
      }
    }

    /** Up to BATCH owned rows of an older generation; all of them when there are fewer. */
    method StaleRows() returns (stale: set<Path>)
      ensures stale <= Stale(State()) && |stale| <= BATCH && (|stale| < BATCH ==> stale == Stale(State()))
    {
      stale := {};
      var todo := rows.Keys;
      while todo != {} && |stale| < BATCH
        invariant todo <= rows.Keys && |stale| <= BATCH
        invariant stale <= Stale(State()) <= stale + todo
        decreases |todo|
      {
        var p :| p in todo;
        todo := todo - {p};
        if rows[p].owner != "" && rows[p].generation < generation {
          stale := stale + {p};
        }
      }
    }

    /** Prunes one batch of stale rows. It reports completion exactly when the queue was
        empty and fewer than a batch were left, and then the index is complete. */
    method FinishScan() returns (done: bool)
      requires Valid() && status != Ready
      modifies this`rows, this`status, this`worker
      ensures Valid()
      ensures done <==> queue == {} && old(|Stale(State())|) < BATCH
      ensures done ==> status == Ready && Complete(w, State())
      ensures !done ==> status == old(status)
      ensures !done && queue == {} ==> |Stale(State())| < old(|Stale(State())|)
    {
      if queue != {} { return false; }
      var stale := StaleRows();
      ghost var before := State();
      ApplyKeepsInvariant(w, before, SelectStale(stale));
      StaleRest(before, Pruning(stale, |stale| == BATCH), status);
      hide Invariant, Stale, Complete, WellFormed;
      worker := Pruning(stale, |stale| == BATCH);
      assert State() == Apply(w, before, SelectStale(stale));
      Prune(stale, |stale| == BATCH);
      SmallerWithout(Stale(before), stale);
      if |stale| == BATCH { return false; }
      StaleRest(State(), Idle, Ready);
      status := Ready;
      NothingLeftIsComplete(w, State());
      return true;
    }

    method Prune(stale: set<Path>, ghost full: bool)
      requires WellFormed(w) && Invariant(w, State()) && worker == Pruning(stale, full)
      requires stale <= Stale(State())
      modifies this`rows, this`worker
      ensures worker == Idle && Invariant(w, State()) && Invariant(w, State().(status := Ready))
      ensures Stale(State()) == old(Stale(State())) - stale
    {
      hide Invariant, Stale, WellFormed;
      ghost var all := Stale(State());
      var todo := stale;
      while todo != {}
        invariant todo <= stale && worker == Pruning(todo, full)
        invariant Invariant(w, State())
        invariant todo <= Stale(State()) == all - (stale - todo)
        decreases |todo|
      {
        var p :| p in todo;
        todo := DeleteIfOlder(p, todo, full);
      }
      FinishKeeps(w, State());
      StaleRest(State(), Idle, status);
      worker := Idle;
    }

    method DeleteIfOlder(p: Path, todo: set<Path>, ghost full: bool) returns (left: set<Path>)
      requires WellFormed(w) && Invariant(w, State()) && worker == Pruning(todo, full) && p in todo
          && todo <= Stale(State())
      modifies this`rows, this`worker
      ensures left == todo - {p} && worker == Pruning(left, full)
      ensures Invariant(w, State()) && Stale(State()) == old(Stale(State())) - {p}
      ensures rows == old(rows) - {p}
    {
      ApplyKeepsInvariant(w, State(), DeleteStale(p));
      DeleteStaleRow(w, State(), p);
      ghost var now := Apply(w, State(), DeleteStale(p));
      left := todo - {p};
      if p in rows && rows[p].generation < generation { rows := rows - {p}; }
      worker := Pruning(left, full);
      hide Invariant, Stale;
      assert State() == now;
    }

    /** The paths of a batch in turn. Whatever is enqueued meanwhile is queued at the end or
        scanned later in the batch. */
    method ScanBatch(paths: seq<Path>, arrivals: Path -> seq<Path>)
      requires Valid() && paths != []
      requires (forall p :: p in paths ==> p in queue) && forall i, j :: 0 <= i < j < |paths| ==> paths[i] != paths[j]
      modifies this
      ensures Valid() && Resumes(old(status), status) && generation == old(generation)
      ensures readers == old(readers) && overwritten <= old(overwritten)
      ensures forall i, q :: 0 <= i < |paths| && q in arrivals(paths[i]) ==> q in queue || LaterIn(paths, i, q)
      ensures Quiet(arrivals) ==> Load(w, queue) < Load(w, old(queue))
    {
      var i := 0;
      hide Invariant, WellFormed, Load, Quiet, Scan, Stale;
      while i < |paths|
        invariant 0 <= i <= |paths|
        invariant Valid() && Resumes(old(status), status) && generation == old(generation)
        invariant readers == old(readers) && overwritten <= old(overwritten)
        invariant forall k :: i <= k < |paths| ==> paths[k] in queue
        invariant forall k, q :: 0 <= k < i && q in arrivals(paths[k]) ==> q in queue || LaterIn(paths, k, q)
        invariant if i == 0 then queue == old(queue) else Quiet(arrivals) ==> Load(w, queue) < Load(w, old(queue))
      {
        if Quiet(arrivals) { NoArrivals(arrivals, paths[i]); }
        forall k | 0 <= k < i
          ensures LaterIn(paths, k, paths[i])
        {
          assert paths[k + 1..][i - k - 1] == paths[i];
        }
        ScanPath(paths[i], arrivals(paths[i]));
        i := i + 1;
      }
    }

    /** One turn of the worker: a batch of queued paths, then pruning once none is left.
        Every path enqueued during the turn is queued at its end or scanned later in it. A
        quiet turn asks for another only after making the remaining work smaller. */
    method Run(arrivals: Path -> seq<Path>) returns (again: bool, ghost scanned: seq<Path>)
      requires Valid()
      modifies this
      ensures Valid() && generation == old(generation)
      ensures readers == old(readers) && overwritten <= old(overwritten)
      ensures forall i, q :: 0 <= i < |scanned| && q in arrivals(scanned[i]) ==> q in queue || LaterIn(scanned, i, q)
      ensures again && Quiet(arrivals) ==>
                (Load(w, queue) < Load(w, old(queue)))
                    || (queue == old(queue) && |Stale(State())| < old(|Stale(State())|))
      ensures if again then Resumes(old(status), status) else queue == {} && status == Ready
      ensures !again && old(status) != Ready ==> Complete(w, State())
    {
      var ready := status == Ready;
      var paths := NextScanPaths(BATCH);
      scanned := paths;
      if ready && paths == [] { return false, scanned; }
      hide Invariant, WellFormed, Load, Stale, Complete, Quiet;
      if paths != [] { ScanBatch(paths, arrivals); }
      if queue != {} { return true, scanned; }
      if ready { return false, scanned; }
      var done := FinishScan();
      again := !done;
    }

    /** The worker is scheduled until it asks for no further turn. It stops, however the
        roots are nested and whatever an earlier generation left behind, and then every
        promised file is current, unless a content read has overwritten it before; a full
        scan leaves nothing else. */
    method RunToEnd()
      requires Valid()
      modifies this
      ensures Valid() && status == Ready && queue == {} && generation == old(generation)
      ensures overwritten <= old(overwritten)
      ensures forall p :: Indexable(w, p) ==> Current(w, State(), p) || p in overwritten
      ensures old(status) != Ready ==> Complete(w, State())
    {
      var again := true;
      ghost var scanned: seq<Path>;
      while again
        invariant Valid() && generation == old(generation) && overwritten <= old(overwritten)
        invariant !again ==> queue == {} && status == Ready
        invariant again && old(status) != Ready ==> status != Ready
        invariant !again && old(status) != Ready ==> Complete(w, State())
        decreases again, Load(w, queue), |Stale(State())|
      {
        LoadNonNegative(w, queue);
        again, scanned := Run(p => []);
        LoadNonNegative(w, queue);
      }
      DrainedIsCurrent(w, State());
    }
  }

  lemma StaleRest(c: Crawl, worker: Worker, status: Status)
    ensures Stale(c.(worker := worker, status := status)) == Stale(c)
  {
  }

  lemma SmallerWithout(all: set<Path>, part: set<Path>)
    requires part <= all
    ensures |all - part| == |all| - |part|
  {
  }

  lemma FinishKeeps(w: World, c: Crawl)
    requires Invariant(w, c) && c.worker.Pruning? && c.worker.stale == {}
    ensures Invariant(w, c.(worker := Idle)) && Invariant(w, c.(worker := Idle, status := Ready))
  {
  }
}
