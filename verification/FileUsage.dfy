/** fileUsagePartial as the program runs it: entries replaced in place, a running byte
    count, an overflow mark. internal/analytics/quality_aggregations.go:197-416. */
module FileUsage {
  import opened Wrappers
  import opened Sums
  import opened FileUsageSpec
  import FileUsageMeaning
  import LineCoverage

  // One entry. origin None is this path, Some("") no inheritance, Some(p) moved from p.
  // readHash belongs to lastRead.
  datatype FileReads = FileReads(
    origin: Option<string>,
    readCount: int,
    hitCount: int,
    lastRead: Option<int>,
    readHash: string,
    scalars: Option<Observation>,
    coverage: map<string, LineCoverage.Coverage>)

  const EMPTY_FILE := FileReads(None, 0, 0, None, "", None, map[])

  ghost function WholeHashes(coverage: map<string, LineCoverage.Coverage>): set<string> {
    set hash | hash in coverage && coverage[hash].whole
  }

  ghost function LinesRead(coverage: map<string, LineCoverage.Coverage>): iset<(string, int)> {
    iset at: (string, int) | at.0 in coverage && LineCoverage.Covers(coverage[at.0].ranges, at.1)
  }

  ghost function UsageIn(file: FileReads): Usage {
    Usage(file.readCount, file.hitCount,
          if file.lastRead.Some? then Some(Stamp(file.lastRead.value, file.readHash)) else None,
          file.scalars, WholeHashes(file.coverage), LinesRead(file.coverage))
  }

  ghost function OriginOf(path: Path, origin: Option<string>): Option<Path> {
    match origin
    case None => Some(path)
    case Some(o) => if o == "" then None else Some(o)
  }

  ghost function LinkIn(path: Path, file: FileReads): Link {
    Link(OriginOf(path, file.origin), UsageIn(file))
  }

  ghost function LinksIn(files: map<Path, FileReads>): Links {
    map p | p in files :: LinkIn(p, files[p])
  }

  lemma EmptyFileLink(p: Path)
    ensures LinkIn(p, EMPTY_FILE) == Link(Some(p), UNUSED)
  {
  }

  function CoverageFor(coverage: map<string, LineCoverage.Coverage>, hash: string): LineCoverage.Coverage {
    if hash in coverage then coverage[hash] else LineCoverage.Coverage(false, [])
  }

  lemma AddLines(coverage: map<string, LineCoverage.Coverage>, hash: string, r: LineCoverage.Range)
    ensures var c := CoverageFor(coverage, hash);
            var added := coverage[hash := c.(ranges := c.ranges + [r])];
            WholeHashes(added) == WholeHashes(coverage) && LinesRead(added) == LinesRead(coverage) + LinesAt(hash, [r])
  {
  }

  lemma AddWhole(coverage: map<string, LineCoverage.Coverage>, hash: string)
    ensures var c := CoverageFor(coverage, hash);
            var added := coverage[hash := c.(whole := true)];
            WholeHashes(added) == WholeHashes(coverage) + {hash} && LinesRead(added) == LinesRead(coverage)
  {
  }

  /** The coverage part of Merge: union per hash, copying what only the later side has. */
  method MergeCoverage(current: map<string, LineCoverage.Coverage>, next: map<string, LineCoverage.Coverage>)
    returns (merged: map<string, LineCoverage.Coverage>)
    ensures WholeHashes(merged) == WholeHashes(current) + WholeHashes(next)
    ensures LinesRead(merged) == LinesRead(current) + LinesRead(next)
  {
    merged := current;
    var todo := next.Keys;
    ghost var done: set<string> := {};
    while todo != {}
      invariant todo <= next.Keys && done == next.Keys - todo
      invariant merged.Keys == current.Keys + done
      invariant forall h :: h in merged && h !in done ==> merged[h] == current[h]
      invariant forall h :: h in done ==> Unites(merged[h], CoverageFor(current, h), next[h])
      decreases todo
    {
      var h :| h in todo;
      if h in merged {
        var c := LineCoverage.Merge(merged[h], next[h]);
        UnitesLines(c, merged[h], next[h]);
        merged := merged[h := c];
      } else {
        merged := merged[h := next[h]];
      }
      assert Unites(merged[h], CoverageFor(current, h), next[h]);
      todo, done := todo - {h}, done + {h};
    }
    UnionPerHash(current, next, merged);
  }

  ghost predicate Unites(c: LineCoverage.Coverage, a: LineCoverage.Coverage, b: LineCoverage.Coverage) {
    && c.whole == (a.whole || b.whole)
    && forall line :: LineCoverage.Covers(c.ranges, line) <==>
        LineCoverage.Covers(a.ranges, line) || LineCoverage.Covers(b.ranges, line)
  }

  lemma UnitesLines(c: LineCoverage.Coverage, a: LineCoverage.Coverage, b: LineCoverage.Coverage)
    requires c.whole == (a.whole || b.whole)
    requires LineCoverage.Lines(c.ranges) == LineCoverage.Lines(a.ranges) + LineCoverage.Lines(b.ranges)
    ensures Unites(c, a, b)
  {
    forall line
      ensures LineCoverage.Covers(c.ranges, line) <==>
          LineCoverage.Covers(a.ranges, line) || LineCoverage.Covers(b.ranges, line)
    {
      assert line in LineCoverage.Lines(c.ranges) <==>
          line in LineCoverage.Lines(a.ranges) + LineCoverage.Lines(b.ranges);
    }
  }

  lemma UnionPerHash(current: map<string, LineCoverage.Coverage>, next: map<string, LineCoverage.Coverage>,
                     merged: map<string, LineCoverage.Coverage>)
    requires merged.Keys == current.Keys + next.Keys
    requires forall h :: h in current && h !in next ==> merged[h] == current[h]
    requires forall h :: h in next ==> Unites(merged[h], CoverageFor(current, h), next[h])
    ensures WholeHashes(merged) == WholeHashes(current) + WholeHashes(next)
    ensures LinesRead(merged) == LinesRead(current) + LinesRead(next)
  {
  }

  // ---- The budget ----

  lemma Reserve(cfg: Config, keys: set<Path>, path: Path)
    requires path !in keys && !OverBudget(cfg, keys)
    ensures OverBudget(cfg, keys + {path})
       <==> cfg.summaryOnly && (|keys| >= MAX_PATHS || |path| > MAX_PATH_BYTES - Bytes(keys))
    ensures Bytes(keys + {path}) == Bytes(keys) + |path|
  {
    SumInsert(keys, Length, path);
    assert |keys + {path}| == |keys| + 1;
  }

  method CountBytes(paths: set<Path>) returns (total: int)
    ensures total == Bytes(paths)
  {
    total := 0;
    var todo := paths;
    while todo != {}
      invariant todo <= paths
      invariant total == Bytes(paths) - Bytes(todo)
      decreases todo
    {
      var p :| p in todo;
      SumRemove(todo, Length, p);
      total := total + |p|;
      todo := todo - {p};
    }
  }

  ghost function Inherited(file: FileReads): set<Path> {
    if file.origin.Some? && file.origin.value != "" then {file.origin.value} else {}
  }

  /** Every path inherited from has an entry too; rankings keep no lines or hashes. */
  ghost predicate EntriesValid(cfg: Config, files: map<Path, FileReads>) {
    && "" !in files
    && (forall p :: p in files ==> Inherited(files[p]) <= files.Keys)
    && (cfg.summaryOnly ==> forall p :: p in files ==> files[p].coverage == map[] && files[p].readHash == "")
  }

  function Reserved(files: map<Path, FileReads>, path: Path): map<Path, FileReads> {
    if path in files then files else files[path := EMPTY_FILE]
  }

  lemma ReservedEntry(cfg: Config, files: map<Path, FileReads>, path: Path)
    requires EntriesValid(cfg, files) && path != ""
    ensures EntriesValid(cfg, Reserved(files, path))
    ensures Reserved(files, path).Keys == files.Keys + {path}
    ensures Reserved(files, path)[path] == if path in files then files[path] else EMPTY_FILE
    ensures path in files ==> Reserved(files, path) == files
  {
  }

  /** A restored checkpoint does not carry the byte count, so it is taken when needed. */
  method ReservePath(cfg: Config, files: map<Path, FileReads>, pathBytes: int, path: Path)
    returns (ok: bool, reserved: map<Path, FileReads>, bytes: int)
    requires EntriesValid(cfg, files) && path != "" && !OverBudget(cfg, files.Keys)
    requires pathBytes == 0 || pathBytes == Bytes(files.Keys)
    ensures ok <==> !OverBudget(cfg, files.Keys + {path})
    ensures reserved == if ok then Reserved(files, path) else files
    ensures EntriesValid(cfg, reserved) && !OverBudget(cfg, reserved.Keys)
    ensures bytes == Bytes(reserved.Keys)
  {
    ReservedEntry(cfg, files, path);
    hide EntriesValid, OverBudget, Bytes;
    bytes := pathBytes;
    if bytes == 0 {
      bytes := CountBytes(files.Keys);
    }
    ok, reserved := true, files;
    if path !in files {
      Reserve(cfg, files.Keys, path);
      if cfg.summaryOnly && (|files.Keys| >= MAX_PATHS || |path| > MAX_PATH_BYTES - bytes) {
        ok := false;
      } else {
        reserved := files[path := EMPTY_FILE];
        bytes := bytes + |path|;
      }
    }
  }

  // ---- Entries and links ----

  lemma LinkReserved(files: map<Path, FileReads>, p: Path)
    ensures LinkOf(LinksIn(files), p) == LinkIn(p, if p in files then files[p] else EMPTY_FILE)
  {
  }

  lemma LinksUpdate(files: map<Path, FileReads>, p: Path, file: FileReads)
    ensures LinksIn(files[p := file]) == LinksIn(files)[p := LinkIn(p, file)]
  {
  }

  /** A read or hit is counted on the entry of its path. */
  method CountRead(cfg: Config, file: FileReads, e: Event) returns (now: FileReads)
    requires e.kind == DocRead || e.kind == DocHit
    requires cfg.summaryOnly ==> file.readHash == ""
    ensures UsageIn(now) == Plus(UsageIn(file), ReadUsage(cfg, e))
    ensures now.origin == file.origin
    ensures cfg.summaryOnly ==> now.coverage == file.coverage && now.readHash == ""
  {
    now := file;
    if e.kind == DocRead {
      now := now.(readCount := now.readCount + 1);
    } else {
      now := now.(hitCount := now.hitCount + 1);
    }
    if now.lastRead.None? || e.time > now.lastRead.value {
      now := now.(lastRead := Some(e.time), readHash := e.hash);
    }
    if cfg.summaryOnly {
      now := now.(readHash := "");
      assert WholeHashes(file.coverage) + {} == WholeHashes(file.coverage);
      assert LinesRead(file.coverage) + iset{} == LinesRead(file.coverage);
    } else {
      var coverage := CoverageFor(now.coverage, e.hash);
      if e.lines.Some? {
        AddLines(file.coverage, e.hash, e.lines.value);
        assert WholeHashes(file.coverage) + {} == WholeHashes(file.coverage);
        coverage := coverage.(ranges := coverage.ranges + [e.lines.value]);
      } else {
        AddWhole(file.coverage, e.hash);
        assert LinesRead(file.coverage) + iset{} == LinesRead(file.coverage);
        coverage := coverage.(whole := true);
      }
      now := now.(coverage := now.coverage[e.hash := coverage]);
    }
  }

  /** The newest scalars replace the recorded ones. */
  method RecordScalars(cfg: Config, file: FileReads, e: Event) returns (now: FileReads)
    ensures UsageIn(now) == Plus(UsageIn(file), Usage(0, 0, None, Some(Observed(cfg, e)), {}, iset{}))
    ensures now == file.(scalars := now.scalars)
  {
    now := file;
    if file.scalars.None? || e.time >= file.scalars.value.time {
      var after := if e.after.Some? then e.after.value else Scalars(0, None);
      var observation := Observation(e.time, e.hash, after.lines, after.tokens);
      if cfg.summaryOnly {
        observation := observation.(hash := "", lines := 0);
      }
      now := now.(scalars := Some(observation));
    }
    assert WholeHashes(file.coverage) + {} == WholeHashes(file.coverage);
    assert LinesRead(file.coverage) + iset{} == LinesRead(file.coverage);
  }

  lemma LinksKeys(files: map<Path, FileReads>)
    ensures LinksIn(files).Keys == files.Keys
  {
  }

  lemma UseEffect(cfg: Config, e: Event)
    requires EffectOf(cfg, e).Used?
    ensures EffectOf(cfg, e) == Used(e.path, if e.kind == DocRead || e.kind == DocHit then ReadUsage(cfg, e)
                                             else Usage(0, 0, None, Some(Observed(cfg, e)), {}, iset{}))
    ensures e.kind != OtherType
  {
  }

  // The branches of Add.
  lemma IgnoredEffect(cfg: Config, e: Event)
    requires || e.kind == OtherType
             || (e.kind == DocWrite && e.action != "move" && (!e.generated || e.after.None?))
             || !Within(cfg.prefix, e.path)
             || (e.kind == DocScalars && (e.action == "move" || e.action == "move_source"))
    ensures EffectOf(cfg, e) == Ignored
  {
  }

  lemma MoveEffect(cfg: Config, e: Event)
    requires e.kind == DocWrite && e.action == "move" && Within(cfg.prefix, e.path)
    ensures EffectOf(cfg, e) ==
      if e.from.Some? && e.from.value != "" && e.from.value != e.path && Within(cfg.prefix, e.from.value)
      then Moved(e.from.value, e.path) else Ignored
  {
  }

  lemma UsesPath(cfg: Config, e: Event)
    requires e.kind != OtherType && Within(cfg.prefix, e.path)
    requires e.kind == DocWrite ==> e.action != "move" && e.generated && e.after.Some?
    requires e.kind == DocScalars ==> e.action != "move" && e.action != "move_source"
    ensures EffectOf(cfg, e).Used?
  {
  }

  lemma KeepsState(cfg: Config, files: map<Path, FileReads>, e: Event)
    requires !OverBudget(cfg, files.Keys)
    ensures EffectOf(cfg, e).Ignored? ==> AddState(cfg, Live(LinksIn(files)), e) == Live(LinksIn(files))
  {
    hide OverBudget;
    assert files.Keys + {} == files.Keys;
    assert LinksIn(files).Keys == files.Keys;
  }

  /** Using a reserved entry is the step on links. */
  lemma UsedStep(cfg: Config, before: map<Path, FileReads>, p: Path, usage: Usage, now: FileReads)
    requires var entry := if p in before then before[p] else EMPTY_FILE;
             UsageIn(now) == Plus(UsageIn(entry), usage) && now.origin == entry.origin
    ensures LinksIn(before[p := now]) == Step(LinksIn(before), Used(p, usage))
  {
    hide Plus, UsageIn, UNUSED;
    LinkReserved(before, p);
    LinksUpdate(before, p, now);
  }

  /** AddState of an event that uses its own path. */
  lemma UsedState(cfg: Config, files: map<Path, FileReads>, e: Event)
    requires EffectOf(cfg, e).Used?
    ensures AddState(cfg, Live(LinksIn(files)), e) ==
      if OverBudget(cfg, files.Keys + {e.path}) then Overflowed else Live(Step(LinksIn(files), EffectOf(cfg, e)))
  {
    hide OverBudget, Step;
    assert LinksIn(files).Keys == files.Keys;
  }

  lemma UsedEntry(cfg: Config, files: map<Path, FileReads>, p: Path, now: FileReads)
    requires EntriesValid(cfg, files) && p in files
    requires now.origin == files[p].origin
    requires cfg.summaryOnly ==> now.coverage == map[] && now.readHash == ""
    ensures EntriesValid(cfg, files[p := now])
  {
  }

  lemma SameKeys(before: map<Path, FileReads>, reserved: map<Path, FileReads>, p: Path, now: FileReads)
    requires p in reserved
    requires reserved == Reserved(before, p)
    ensures reserved[p := now] == before[p := now]
    ensures reserved[p := now].Keys == reserved.Keys == before.Keys + {p}
  {
  }

  const MOVED_AWAY := EMPTY_FILE.(origin := Some(""))

  function MovedFrom(source: Path, file: FileReads): FileReads {
    if file.origin.None? then file.(origin := Some(source)) else file
  }

  /** Re-labelling the two entries of a move is the step on links. */
  lemma MovedStep(before: map<Path, FileReads>, source: Path, dest: Path)
    requires source != dest && source != ""
    ensures var entry := if source in before then before[source] else EMPTY_FILE;
            LinksIn(before[dest := MovedFrom(source, entry)][source := MOVED_AWAY])
            == Step(LinksIn(before), Moved(source, dest))
  {
    var entry := if source in before then before[source] else EMPTY_FILE;
    var moved := MovedFrom(source, entry);
    LinkReserved(before, source);
    LinksUpdate(before, dest, moved);
    LinksUpdate(before[dest := moved], source, MOVED_AWAY);
    EmptyFileLink(source);
    assert LinkIn(source, MOVED_AWAY) == Link(None, UNUSED);
  }

  lemma MovedEntries(cfg: Config, files: map<Path, FileReads>, source: Path, dest: Path)
    requires EntriesValid(cfg, files) && source in files && dest in files
    ensures EntriesValid(cfg, files[dest := MovedFrom(source, files[source])][source := MOVED_AWAY])
  {
  }

  // ---- Merge ----

  /** Reserve all touched paths before composing. */
  method ReserveAll(cfg: Config, files: map<Path, FileReads>, pathBytes: int, paths: set<Path>)
    returns (ok: bool, reserved: map<Path, FileReads>, bytes: int)
    requires EntriesValid(cfg, files) && "" !in paths && !OverBudget(cfg, files.Keys)
    requires pathBytes == 0 || pathBytes == Bytes(files.Keys)
    ensures ok <==> !OverBudget(cfg, files.Keys + paths)
    ensures EntriesValid(cfg, reserved) && !OverBudget(cfg, reserved.Keys)
    ensures bytes == 0 || bytes == Bytes(reserved.Keys)
    ensures ok ==> AllReserved(files, paths, reserved)
  {
    hide EntriesValid, OverBudget, Bytes;
    ok, reserved, bytes := true, files, pathBytes;
    var todo := paths;
    ghost var done: set<Path> := {};
    assert files.Keys + {} == files.Keys;
    while todo != {}
      invariant todo <= paths && done == paths - todo
      invariant EntriesValid(cfg, reserved) && !OverBudget(cfg, reserved.Keys)
      invariant bytes == 0 || bytes == Bytes(reserved.Keys)
      invariant AllReserved(files, done, reserved)
      decreases todo
    {
      var p :| p in todo;
      ghost var before := reserved;
      ok, reserved, bytes := ReservePath(cfg, reserved, bytes, p);
      assert before.Keys + {p} == files.Keys + (done + {p});
      if !ok {
        OverBudgetMonotone(cfg, before.Keys + {p}, files.Keys + paths);
        return;
      }
      todo, done := todo - {p}, done + {p};
    }
    assert done == paths;
  }

  ghost predicate AllReserved(files: map<Path, FileReads>, paths: set<Path>, reserved: map<Path, FileReads>) {
    && reserved.Keys == files.Keys + paths
    && forall p :: p in reserved ==> reserved[p] == if p in files then files[p] else EMPTY_FILE
  }

  lemma ReservedLinks(files: map<Path, FileReads>, paths: set<Path>, reserved: map<Path, FileReads>, p: Path)
    requires AllReserved(files, paths, reserved)
    ensures LinkOf(LinksIn(reserved), p) == LinkOf(LinksIn(files), p)
  {
  }

  /** Two summaries of one file, the second later. */
  method AddUsage(cfg: Config, previous: FileReads, next: FileReads) returns (file: FileReads)
    requires cfg.summaryOnly ==> next.coverage == map[] && next.readHash == previous.readHash == ""
    ensures UsageIn(file) == Plus(UsageIn(previous), UsageIn(next))
    ensures file.origin == previous.origin
    ensures cfg.summaryOnly ==> file.coverage == previous.coverage && file.readHash == ""
  {
    file := previous.(readCount := previous.readCount + next.readCount, hitCount := previous.hitCount + next.hitCount);
    if next.lastRead.Some? && (file.lastRead.None? || next.lastRead.value > file.lastRead.value) {
      file := file.(lastRead := next.lastRead, readHash := next.readHash);
    }
    if next.scalars.Some? && (file.scalars.None? || next.scalars.value.time >= file.scalars.value.time) {
      file := file.(scalars := next.scalars);
    }
    if cfg.summaryOnly {
      assert WholeHashes(previous.coverage) + WholeHashes(map[]) == WholeHashes(previous.coverage);
      assert LinesRead(previous.coverage) + LinesRead(map[]) == LinesRead(previous.coverage);
    } else {
      var coverage := MergeCoverage(file.coverage, next.coverage);
      file := file.(coverage := coverage);
    }
  }

  ghost predicate Resolved(cfg: Config, files: map<Path, FileReads>, path: Path, next: FileReads, file: FileReads) {
    && LinkIn(path, file) == Inherit(LinksIn(files), LinkIn(path, next))
    && Inherited(file) <= files.Keys
    && (cfg.summaryOnly ==> file.coverage == map[] && file.readHash == "")
  }

  /** One output of the later window, resolved against the earlier one. */
  method ComposeEntry(cfg: Config, files: map<Path, FileReads>, path: Path, next: FileReads) returns (file: FileReads)
    requires EntriesValid(cfg, files) && path in files && Inherited(next) <= files.Keys
    requires cfg.summaryOnly ==> next.coverage == map[] && next.readHash == ""
    ensures Resolved(cfg, files, path, next, file)
  {
    hide UsageIn, Plus, UNUSED;
    var origin := path;
    if next.origin.Some? {
      origin := next.origin.value;
    }
    if origin != "" && origin in files {
      var previous := files[origin];
      file := AddUsage(cfg, previous, next);
      if file.origin.None? && origin != path {
        file := file.(origin := Some(origin));
        SameUsage(file, file.(origin := None));
      }
    } else {
      file := next;
    }
  }

  lemma SameUsage(a: FileReads, b: FileReads)
    requires a.(origin := b.origin) == b
    ensures UsageIn(a) == UsageIn(b)
  {
  }

  ghost predicate AllResolved(cfg: Config, reserved: map<Path, FileReads>, next: map<Path, FileReads>,
                              composed: map<Path, FileReads>)
  {
    && composed.Keys <= next.Keys
    && forall p :: p in composed ==> Resolved(cfg, reserved, p, next[p], composed[p])
  }

  lemma ComposedLink(cfg: Config, files: map<Path, FileReads>, next: map<Path, FileReads>,
                     reserved: map<Path, FileReads>, p: Path, file: FileReads)
    requires AllReserved(files, next.Keys, reserved) && p in next
    requires Resolved(cfg, reserved, p, next[p], file)
    ensures LinkIn(p, file) == Inherit(LinksIn(files), LinkIn(p, next[p]))
  {
    hide UsageIn, Plus, UNUSED;
    var origin := LinkIn(p, next[p]).origin;
    if origin.Some? {
      ReservedLinks(files, next.Keys, reserved, origin.value);
    }
  }

  /** Composing every entry of the later window is Compose on links. */
  lemma ComposedLinks(cfg: Config, files: map<Path, FileReads>, next: map<Path, FileReads>,
                      reserved: map<Path, FileReads>, composed: map<Path, FileReads>)
    requires AllReserved(files, next.Keys, reserved)
    requires composed.Keys == next.Keys && AllResolved(cfg, reserved, next, composed)
    ensures LinksIn(reserved + composed) == Compose(LinksIn(files), LinksIn(next))
  {
    hide LinkIn, Inherit, Resolved;
    var left, right := LinksIn(reserved + composed), Compose(LinksIn(files), LinksIn(next));
    forall p | p in left
      ensures p in right && left[p] == right[p]
    {
      if p in next {
        ComposedLink(cfg, files, next, reserved, p, composed[p]);
      }
    }
    assert left.Keys == right.Keys;
  }

  lemma ComposedValid(cfg: Config, next: map<Path, FileReads>, reserved: map<Path, FileReads>,
                      composed: map<Path, FileReads>)
    requires EntriesValid(cfg, reserved) && AllResolved(cfg, reserved, next, composed)
    requires composed.Keys == next.Keys <= reserved.Keys
    ensures EntriesValid(cfg, reserved + composed)
    ensures (reserved + composed).Keys == reserved.Keys
  {
    hide LinkIn, Inherit, LinksIn;
    var all := reserved + composed;
    assert all.Keys == reserved.Keys;
    forall p | p in all
      ensures Inherited(all[p]) <= reserved.Keys
      ensures cfg.summaryOnly ==> all[p].coverage == map[] && all[p].readHash == ""
    {
      if p in composed { assert Resolved(cfg, reserved, p, next[p], composed[p]); }
    }
  }

  method ComposeAll(cfg: Config, reserved: map<Path, FileReads>, next: map<Path, FileReads>)
    returns (composed: map<Path, FileReads>)
    requires EntriesValid(cfg, reserved) && EntriesValid(cfg, next) && next.Keys <= reserved.Keys
    ensures composed.Keys == next.Keys && AllResolved(cfg, reserved, next, composed)
  {
    hide Resolved;
    composed := map[];
    var todo := next.Keys;
    while todo != {}
      invariant todo <= next.Keys && composed.Keys == next.Keys - todo
      invariant AllResolved(cfg, reserved, next, composed)
      decreases todo
    {
      var p :| p in todo;
      var file := ComposeEntry(cfg, reserved, p, next[p]);
      composed := composed[p := file];
      todo := todo - {p};
    }
  }

  /** Merge of two windows within budget: every inherited input is resolved in reserved,
      which no output has replaced yet; then all outputs replace their entries. */
  method MergeFiles(cfg: Config, files: map<Path, FileReads>, pathBytes: int, next: map<Path, FileReads>)
    returns (ok: bool, merged: map<Path, FileReads>, bytes: int)
    requires EntriesValid(cfg, files) && EntriesValid(cfg, next) && !OverBudget(cfg, files.Keys)
    requires pathBytes == 0 || pathBytes == Bytes(files.Keys)
    ensures ok <==> !OverBudget(cfg, files.Keys + next.Keys)
    ensures EntriesValid(cfg, merged) && !OverBudget(cfg, merged.Keys)
    ensures bytes == 0 || bytes == Bytes(merged.Keys)
    ensures ok ==> LinksIn(merged) == Compose(LinksIn(files), LinksIn(next))
  {
    NoEmptyPath(cfg, next);
    hide OverBudget, EntriesValid, Bytes, LinksIn, Compose, AllResolved;
    ok, merged, bytes := ReserveAll(cfg, files, pathBytes, next.Keys);
    if ok {
      var composed := ComposeAll(cfg, merged, next);
      ComposedLinks(cfg, files, next, merged, composed);
      ComposedValid(cfg, next, merged, composed);
      merged := merged + composed;
    }
  }

  lemma MergedState(cfg: Config, files: map<Path, FileReads>, next: map<Path, FileReads>)
    ensures MergeState(cfg, Live(LinksIn(files)), Live(LinksIn(next))) ==
      if OverBudget(cfg, files.Keys + next.Keys) then Overflowed else Live(Compose(LinksIn(files), LinksIn(next)))
    ensures forall s :: MergeState(cfg, Overflowed, s) == MergeState(cfg, s, Overflowed) == Overflowed
  {
    hide OverBudget, Compose;
    LinksKeys(files);
    LinksKeys(next);
  }

  lemma NoEmptyPath(cfg: Config, files: map<Path, FileReads>)
    requires EntriesValid(cfg, files)
    ensures "" !in files.Keys
  {
  }

  /** Reserve the event's path and update its entry. */
  method UsePath(cfg: Config, files: map<Path, FileReads>, pathBytes: int, e: Event)
    returns (ok: bool, used: map<Path, FileReads>, bytes: int)
    requires EntriesValid(cfg, files) && e.path != "" && !OverBudget(cfg, files.Keys)
    requires pathBytes == 0 || pathBytes == Bytes(files.Keys)
    requires EffectOf(cfg, e).Used?
    ensures ok <==> !OverBudget(cfg, files.Keys + {e.path})
    ensures EntriesValid(cfg, used) && !OverBudget(cfg, used.Keys)
    ensures bytes == Bytes(used.Keys)
    ensures ok ==> LinksIn(used) == Step(LinksIn(files), EffectOf(cfg, e))
  {
    ghost var effect := EffectOf(cfg, e);
    UseEffect(cfg, e);
    ReservedEntry(cfg, files, e.path);
    hide EffectOf, LinksIn, OverBudget, EntriesValid, Bytes, Step, UsageIn, Plus, ReadUsage, Observed, Reserved;
    ok, used, bytes := ReservePath(cfg, files, pathBytes, e.path);
    if ok {
      var now: FileReads;
      if e.kind == DocRead || e.kind == DocHit {
        now := CountRead(cfg, used[e.path], e);
      } else {
        now := RecordScalars(cfg, used[e.path], e);
      }
      UsedStep(cfg, files, e.path, effect.usage, now);
      UsedEntry(cfg, used, e.path, now);
      SameKeys(files, used, e.path, now);
      used := used[e.path := now];
    }
  }

  class FileUsagePartial {
    const cfg: Config
    var files: map<Path, FileReads>
    var pathBytes: int
    var overflow: bool

    ghost predicate Valid()
      reads this
    {
      && (pathBytes == 0 || pathBytes == Bytes(files.Keys))
      && !OverBudget(cfg, files.Keys)
      && EntriesValid(cfg, files)
    }

    /** The abstract partial this object stands for. */
    ghost function State(): FileUsageSpec.State
      reads this
    {
      if overflow then Overflowed else Live(LinksIn(files))
    }

    constructor (cfg: Config)
      ensures Valid() && this.cfg == cfg && State() == Build(cfg, [])
    {
      this.cfg, files, pathBytes, overflow := cfg, map[], 0, false;
      new;
      assert LinksIn(map[]) == map[];
    }

    /** A checkpoint restores the entries and the overflow mark, not the byte count. */
    constructor Restore(saved: FileUsagePartial)
      requires saved.Valid()
      ensures Valid() && cfg == saved.cfg && State() == saved.State()
    {
      cfg, files, pathBytes, overflow := saved.cfg, saved.files, 0, saved.overflow;
    }

    /** The entry of path is reserved, or the budget would be exceeded. */
    method File(path: Path) returns (ok: bool)
      requires Valid() && path != ""
      modifies this
      ensures Valid()
      ensures ok <==> !OverBudget(cfg, old(files.Keys) + {path})
      ensures overflow == (old(overflow) || !ok)
      ensures files == if ok then Reserved(old(files), path) else old(files)
    {
      hide OverBudget, EntriesValid, Bytes, Reserved;
      var reserved, bytes;
      ok, reserved, bytes := ReservePath(cfg, files, pathBytes, path);
      files, pathBytes, overflow := reserved, bytes, overflow || !ok;
    }

    /** One event: the entry is updated in place, or the move re-labels two entries. */
    method Add(e: Event)
      requires Valid() && e.path != ""
      modifies this
      ensures Valid()
      ensures State() == AddState(cfg, old(State()), e)
    {
      if overflow {
        return;
      }
      hide LinksIn, Step, OverBudget, EntriesValid, Bytes, EffectOf;
      KeepsState(cfg, files, e);
      LinksKeys(files);
      if e.kind == OtherType || (e.kind == DocWrite && e.action != "move" && (!e.generated || e.after.None?)) ||
         !Within(cfg.prefix, e.path) {
        IgnoredEffect(cfg, e);
      } else if e.kind == DocWrite && e.action == "move" {
        MoveEffect(cfg, e);
        if e.from.Some? && e.from.value != "" {
          var source := e.from.value;
          if source != e.path && Within(cfg.prefix, source) {
            Move(source, e.path);
          }
        }
      } else if e.kind == DocScalars && (e.action == "move" || e.action == "move_source") {
        IgnoredEffect(cfg, e);
      } else {
        UsesPath(cfg, e);
        Use(e);
      }
    }

    /** A read, hit or scalars observation of the event's own path. */
    method Use(e: Event)
      requires Valid() && !overflow && e.path != ""
      requires EffectOf(cfg, e).Used?
      modifies this
      ensures Valid()
      ensures State() == AddState(cfg, old(State()), e)
    {
      UsedState(cfg, files, e);
      UseEffect(cfg, e);
      hide EffectOf, LinksIn, OverBudget, EntriesValid, Bytes, Step, AddState;
      var ok, used, bytes := UsePath(cfg, files, pathBytes, e);
      files, pathBytes, overflow := used, bytes, !ok;
    }

    /** A live move: the destination takes over the source's entry and its lineage. */
    method Move(source: Path, dest: Path)
      requires Valid() && !overflow && source != "" && dest != "" && source != dest
      modifies this
      ensures Valid()
      ensures State() == if OverBudget(cfg, old(files.Keys) + {source, dest}) then Overflowed
                         else Live(Step(LinksIn(old(files)), Moved(source, dest)))
    {
      hide OverBudget, EntriesValid, Sum, LinksIn;
      ghost var before := files;
      assert before.Keys + {source, dest} == before.Keys + {source} + {dest};
      var ok := File(source);
      if !ok {
        OverBudgetMonotone(cfg, before.Keys + {source}, before.Keys + {source, dest});
        return;
      }
      assert files.Keys == before.Keys + {source};
      ok := File(dest);
      if !ok {
        return;
      }
      MovedStep(before, source, dest);
      MovedEntries(cfg, files, source, dest);
      var moved := files[source];
      if moved.origin.None? {
        moved := moved.(origin := Some(source));
      }
      ghost var reserved := files;
      files := files[dest := moved];
      files := files[source := EMPTY_FILE.(origin := Some(""))];
      assert files == before[dest := moved][source := MOVED_AWAY];
      assert files.Keys == reserved.Keys;
    }

    /** Add the state of a later, adjacent window. */
    method Merge(later: FileUsagePartial)
      requires Valid() && later.Valid() && later != this && later.cfg == cfg
      modifies this
      ensures Valid()
      ensures State() == MergeState(cfg, old(State()), old(later.State()))
    {
      hide MergeState, OverBudget, EntriesValid, Bytes, LinksIn, Compose;
      MergedState(cfg, files, later.files);
      if overflow || later.overflow {
        overflow := true;
        return;
      }
      var ok, merged, bytes := MergeFiles(cfg, files, pathBytes, later.files);
      files, pathBytes, overflow := merged, bytes, !ok;
    }
  }

  /** The fields of the entries, in the events' own terms: an entry for every path an event
      names, and in it the counts, newest read, newest scalars and coverage of its file. */
  ghost predicate Recorded(cfg: Config, events: seq<Event>, files: map<Path, FileReads>) {
    && (forall p :: p in files <==> exists e :: e in events && FileUsageMeaning.Names(cfg, e, p))
    && forall p :: p in files ==> EntryOf(cfg, events, p, files[p])
  }

  ghost predicate EntryOf(cfg: Config, events: seq<Event>, p: Path, file: FileReads) {
    && OriginOf(p, file.origin) == FileUsageMeaning.Was(cfg, events, 0, p)
    && file.readCount == |FileUsageMeaning.Numbered(cfg, events, p, DocRead)|
    && file.hitCount == |FileUsageMeaning.Numbered(cfg, events, p, DocHit)|
    && (var last := if file.lastRead.Some? then Some(Stamp(file.lastRead.value, file.readHash)) else None;
        FileUsageMeaning.NewestRead(cfg, events, p, last))
    && FileUsageMeaning.NewestScalars(cfg, events, p, file.scalars)
    && (forall hash :: hash in file.coverage && file.coverage[hash].whole <==>
          exists i :: FileUsageMeaning.Mine(cfg, events, p, i) && FileUsageMeaning.CoversWhole(cfg, events[i], hash))
    && (forall at: (string, int) ::
          at.0 in file.coverage && LineCoverage.Covers(file.coverage[at.0].ranges, at.1) <==>
          exists i :: FileUsageMeaning.Mine(cfg, events, p, i) && FileUsageMeaning.CoversLine(cfg, events[i], at))
  }

  lemma BuiltIsRecorded(cfg: Config, events: seq<Event>, files: map<Path, FileReads>)
    requires Build(cfg, events) == Live(LinksIn(files))
    ensures Recorded(cfg, events, files)
  {
    OverflowIsExact(cfg, events);
    LinksTouched(cfg, events);
    LinksKeys(files);
    hide OverBudget, BuildLinks, Build, LinksIn, Touched, EntryOf, FileUsageMeaning.Names;
    forall p
      ensures p in files <==> exists e :: e in events && FileUsageMeaning.Names(cfg, e, p)
    {
      FileUsageMeaning.TouchedMeans(cfg, events, p);
    }
    forall p | p in files
      ensures EntryOf(cfg, events, p, files[p])
    {
      BuiltEntry(cfg, events, files, p);
    }
  }

  lemma BuiltEntry(cfg: Config, events: seq<Event>, files: map<Path, FileReads>, p: Path)
    requires BuildLinks(cfg, events) == LinksIn(files) && p in files
    ensures EntryOf(cfg, events, p, files[p])
  {
    FileUsageMeaning.UsageMeans(cfg, events, p);
    LinkReserved(files, p);
    hide EntryOf, UsageIn, BuildLinks, LinksIn, FileUsageMeaning.Describes, FileUsageMeaning.Was;
    DescribedIsEntry(cfg, events, p, files[p]);
  }

  lemma DescribedIsEntry(cfg: Config, events: seq<Event>, p: Path, file: FileReads)
    requires FileUsageMeaning.Describes(cfg, events, p, UsageIn(file))
    requires OriginOf(p, file.origin) == FileUsageMeaning.Was(cfg, events, 0, p)
    ensures EntryOf(cfg, events, p, file)
  {
    forall at: (string, int)
      ensures at in UsageIn(file).lines <==>
              at.0 in file.coverage && LineCoverage.Covers(file.coverage[at.0].ranges, at.1)
    {
    }
    forall hash
      ensures hash in UsageIn(file).whole <==> hash in file.coverage && file.coverage[hash].whole
    {
    }
    hide FileUsageMeaning.Numbered, FileUsageMeaning.NewestRead, FileUsageMeaning.NewestScalars, FileUsageMeaning.Mine,
         FileUsageMeaning.CoversLine, FileUsageMeaning.CoversWhole, LineCoverage.Covers;
  }

  /** A partial filled from one window of events. */
  method Scan(cfg: Config, events: seq<Event>) returns (partial: FileUsagePartial)
    requires forall e :: e in events ==> e.path != ""
    ensures fresh(partial) && partial.Valid() && partial.cfg == cfg
    ensures partial.State() == Build(cfg, events)
    ensures !partial.overflow ==> Recorded(cfg, events, partial.files)
  {
    partial := new FileUsagePartial(cfg);
    for i := 0 to |events|
      invariant fresh(partial) && partial.Valid() && partial.cfg == cfg
      invariant partial.State() == Build(cfg, events[..i])
    {
      hide AddState;
      assert events[..i + 1][..i] == events[..i];
      partial.Add(events[i]);
    }
    assert events[..|events|] == events;
    if !partial.overflow { BuiltIsRecorded(cfg, events, partial.files); }
  }

  /** A window scanned in two parts, the first stored and restored, equals one scan. */
  method ScanSplit(cfg: Config, xs: seq<Event>, ys: seq<Event>) returns (partial: FileUsagePartial)
    requires forall e :: e in xs + ys ==> e.path != ""
    ensures partial.Valid() && partial.State() == Build(cfg, xs + ys)
    ensures !partial.overflow ==> Recorded(cfg, xs + ys, partial.files)
  {
    assert forall e :: e in xs ==> e in xs + ys;
    assert forall e :: e in ys ==> e in xs + ys;
    var stored := Scan(cfg, xs);
    var later := Scan(cfg, ys);
    partial := new FileUsagePartial.Restore(stored);
    partial.Merge(later);
    MergeIsConcatenation(cfg, xs, ys);
    if !partial.overflow { BuiltIsRecorded(cfg, xs + ys, partial.files); }
  }
}
