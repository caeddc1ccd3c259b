/** The change plan of a remote skill update: pkg/openlore/agent_skills_plugin.go,
    syncSkill. The plan must turn whatever the skill directory holds into exactly the
    fetched files, without a step that the file system refuses. */
module SkillSync {
  import opened Wrappers
  import opened Sorting

  // A path below the skill directory as its components; [] is the directory itself.
  type Path = seq<string>

  datatype Node = File(data: string) | Dir

  type Tree = map<Path, Node>

  const SKILL: Path := ["SKILL.md"]

  datatype Change =
    | WriteIfMatch(target: Path, data: string, base: string)
    | Write(target: Path, data: string)
    | Remove(target: Path)
    | RemoveAll(target: Path)
    | MkdirAll(target: Path)

  // ---- The file system: pkg/openlore/vfs.go ----

  /** Every node lies in a directory. */
  ghost predicate WellFormed(t: Tree) {
    [] in t && t[[]] == Dir && forall p :: p in t && p != [] ==> p[..|p| - 1] in t && t[p[..|p| - 1]] == Dir
  }

  /** A file stands where a directory is needed on the way to p. */
  ghost predicate Blocked(t: Tree, p: Path) {
    exists q :: q < p && q in t && t[q].File?
  }

  /** The directories from the skill directory down to p. */
  ghost function WithDirs(t: Tree, p: Path): Tree {
    map q | q in t.Keys + Prefixes(p) :: if q in Prefixes(p) then Dir else t[q]
  }

  ghost function Prefixes(p: Path): (prefixes: set<Path>)
    ensures forall q :: q in prefixes <==> q <= p
  {
    assert forall q | q <= p :: q == p[..|q|];
    set i | 0 <= i <= |p| :: p[..i]
  }

  ghost function Parent(p: Path): Path { if p == [] then [] else p[..|p| - 1] }

  ghost function Without(t: Tree, root: Path): Tree {
    map p | p in t && !(root <= p) :: t[p]
  }

  ghost function Written(t: Tree, p: Path, data: string): Option<Tree> {
    if p == [] || Blocked(t, p) || (p in t && t[p] == Dir) then None
    else Some(WithDirs(t, Parent(p))[p := File(data)])
  }

  /** One change; None when the file system refuses it. */
  ghost function Commit(t: Tree, c: Change): Option<Tree> {
    match c
    case WriteIfMatch(p, data, base) => if p in t && t[p] == File(base) then Written(t, p, data) else None
    case Write(p, data) => Written(t, p, data)
    case Remove(p) => if p in t && p != [] && (forall q :: q in t ==> !(p < q)) then Some(Without(t, p)) else None
    case RemoveAll(p) => if p in t && p != [] then Some(Without(t, p)) else None
    case MkdirAll(p) =>
      if Blocked(t, p) || (p in t && t[p].File?) then None else Some(WithDirs(t, p))
  }

  ghost function CommitAll(t: Tree, changes: seq<Change>): Option<Tree>
    decreases |changes|
  {
    if changes == [] then Some(t)
    else
      var next := Commit(t, changes[0]);
      if next.None? then None else CommitAll(next.value, changes[1..])
  }

  lemma {:induction false} CommitBoth(t: Tree, some: seq<Change>, middle: Tree, more: seq<Change>)
    requires CommitAll(t, some) == Some(middle)
    ensures CommitAll(t, some + more) == CommitAll(middle, more)
    decreases |some|
  {
    hide Commit;
    if some == [] {
      assert some + more == more;
    } else {
      CommitBoth(Commit(t, some[0]).value, some[1..], middle, more);
      assert (some + more)[1..] == some[1..] + more;
    }
  }

  lemma CommitFirst(t: Tree, c: Change, next: Tree, rest: seq<Change>)
    requires Commit(t, c) == Some(next)
    ensures CommitAll(t, [c] + rest) == CommitAll(next, rest)
  {
  }

  // ---- What is wanted ----

  type Files = map<Path, string>

  /** ValidateFiles: no fetched path is an ancestor of another. */
  ghost predicate ValidFiles(files: Files) {
    [] !in files && forall p, q :: p in files && q in files ==> !(p < q)
  }

  /** The directories above the wanted files. */
  ghost function WantedDirs(files: Files): (dirs: set<Path>)
    ensures forall d :: d in dirs <==> d != [] && exists p :: p in files && d < p
  {
    assert forall p, d | p in files && d < p :: d == p[..|d|];
    set p, i | p in files && 0 < i < |p| :: p[..i]
  }

  ghost function Wanted(files: Files): Tree {
    map p | p in files.Keys + WantedDirs(files) + {[]} :: if p in files then File(files[p]) else Dir
  }

  /** A node that does not belong in the wanted tree as it is. */
  ghost predicate Stale(t: Tree, files: Files, p: Path)
    requires p in t
  {
    if t[p] == Dir then p in files || p !in WantedDirs(files) else p !in files || p in WantedDirs(files)
  }

  // ---- Removals ----

  ghost function RemovedRoots(removals: seq<Change>): (roots: set<Path>)
    ensures forall r :: r in roots <==> exists c :: c in removals && c.target == r
  {
    set c | c in removals :: c.target
  }

  /** The nodes not at or below a removed root. */
  ghost function Pruned(t: Tree, roots: set<Path>): Tree {
    map p | p in t && (forall r :: r in roots ==> !(r <= p)) :: t[p]
  }

  ghost predicate RemovalOk(t: Tree, c: Change) {
    && c.target in t && c.target != []
    && ((c.Remove? && t[c.target].File?) || (c.RemoveAll? && t[c.target] == Dir))
  }

  /** No removal lies at or below another. */
  ghost predicate Apart(removals: seq<Change>) {
    NoDuplicates(removals) && forall c, d :: c in removals && d in removals && c != d ==> !(c.target <= d.target)
  }

  lemma {:induction false} FileHasNothingBelow(t: Tree, p: Path, q: Path)
    requires WellFormed(t) && p in t && t[p].File? && q in t
    ensures !(p < q)
    decreases |q|
  {
    if p < q {
      var parent := q[..|q| - 1];
      if p != parent {
        FileHasNothingBelow(t, p, parent);
      }
    }
  }

  lemma WithoutKeepsForm(t: Tree, root: Path)
    requires WellFormed(t) && root != []
    ensures WellFormed(Without(t, root))
  {
  }

  /** Removals that exist and lie apart run to the end, in any order. */
  lemma {:induction false} RemovalsRun(t: Tree, removals: seq<Change>)
    requires WellFormed(t) && Apart(removals)
    requires forall c :: c in removals ==> RemovalOk(t, c)
    ensures CommitAll(t, removals) == Some(Pruned(t, RemovedRoots(removals)))
    ensures WellFormed(Pruned(t, RemovedRoots(removals)))
    decreases |removals|
  {
    if removals == [] {
      assert Pruned(t, RemovedRoots(removals)) == t;
    } else {
      hide *;
      var c, rest := removals[0], removals[1..];
      var next := Without(t, c.target);
      assert removals == [c] + rest;
      RemovalRuns(t, c);
      ApartRest(c, rest);
      forall d | d in rest
        ensures RemovalOk(next, d)
      {
        assert d in removals;
        StillOk(t, c.target, d);
      }
      RemovalsRun(next, rest);
      CommitFirst(t, c, next, rest);
      RootsOfFirst(t, c, rest);
    }
  }

  lemma RemovalRuns(t: Tree, c: Change)
    requires WellFormed(t) && RemovalOk(t, c)
    ensures Commit(t, c) == Some(Without(t, c.target)) && WellFormed(Without(t, c.target))
  {
    if c.Remove? {
      forall q | q in t
        ensures !(c.target < q)
      {
        FileHasNothingBelow(t, c.target, q);
      }
    }
    WithoutKeepsForm(t, c.target);
  }

  lemma StillOk(t: Tree, root: Path, d: Change)
    requires RemovalOk(t, d) && !(root <= d.target)
    ensures RemovalOk(Without(t, root), d)
  {
  }

  lemma ApartRest(c: Change, rest: seq<Change>)
    requires Apart([c] + rest)
    ensures Apart(rest) && forall d :: d in rest ==> !(c.target <= d.target)
  {
    var all := [c] + rest;
    assert forall i :: 0 <= i < |rest| ==> rest[i] == all[i + 1];
    forall d | d in rest
      ensures d in all && d != c
    {
      var j :| 0 <= j < |rest| && rest[j] == d;
      assert all[j + 1] == d && all[0] == c && all[0] != all[j + 1];
    }
    assert c in all;
  }

  lemma RootsOfFirst(t: Tree, c: Change, rest: seq<Change>)
    ensures Pruned(Without(t, c.target), RemovedRoots(rest)) == Pruned(t, RemovedRoots([c] + rest))
  {
    var all := [c] + rest;
    assert forall x :: x in all <==> x == c || x in rest;
    assert RemovedRoots(all) == RemovedRoots(rest) + {c.target};
    hide RemovedRoots;
    assert Pruned(Without(t, c.target), RemovedRoots(rest)) == Pruned(t, RemovedRoots(all));
  }

  // ---- Directories ----

  ghost function Mkdirs(dirs: seq<Path>): seq<Change> {
    seq(|dirs|, i requires 0 <= i < |dirs| => MkdirAll(dirs[i]))
  }

  ghost function AllPrefixes(dirs: set<Path>): (prefixes: set<Path>)
    ensures forall q :: q in prefixes <==> exists d :: d in dirs && q <= d
  {
    assert forall d, q | d in dirs && q <= d :: q == d[..|q|];
    set d, i | d in dirs && 0 <= i <= |d| :: d[..i]
  }

  ghost function DirsAdded(t: Tree, dirs: set<Path>): Tree {
    map q | q in t.Keys + AllPrefixes(dirs) :: if q in AllPrefixes(dirs) then Dir else t[q]
  }

  lemma {:induction false} MkdirsRun(t: Tree, dirs: seq<Path>)
    requires forall d, q :: d in dirs && q <= d && q in t ==> t[q] == Dir
    ensures CommitAll(t, Mkdirs(dirs)) == Some(DirsAdded(t, set d | d in dirs))
    decreases |dirs|
  {
    if dirs == [] {
      assert DirsAdded(t, set d | d in dirs) == t;
      assert Mkdirs(dirs) == [];
    } else {
      var d, rest := dirs[0], dirs[1..];
      assert dirs == [d] + rest;
      assert d in dirs;
      var next := WithDirs(t, d);
      assert Commit(t, MkdirAll(d)) == Some(next);
      assert Mkdirs(dirs)[0] == MkdirAll(d);
      assert Mkdirs(dirs)[1..] == Mkdirs(rest);
      forall e, q | e in rest && q <= e && q in next
        ensures next[q] == Dir
      {
        assert e in dirs;
      }
      MkdirsRun(next, rest);
      FirstDirAdded(t, d, rest);
    }
  }

  lemma FirstDirAdded(t: Tree, d: Path, rest: seq<Path>)
    ensures DirsAdded(WithDirs(t, d), set x | x in rest) == DirsAdded(t, set x | x in [d] + rest)
  {
    var some, all := set x | x in rest, set x | x in [d] + rest;
    assert all == some + {d};
    forall q
      ensures q in AllPrefixes(all) <==> q in AllPrefixes(some) || q in Prefixes(d)
    {
    }
  }

  // ---- Writes ----

  ghost function Writes(files: Files, rels: seq<Path>): seq<Change>
    requires forall r :: r in rels ==> r in files
  {
    seq(|rels|, i requires 0 <= i < |rels| => Write(rels[i], files[rels[i]]))
  }

  ghost function FilesAdded(t: Tree, files: Files, rels: set<Path>): Tree
    requires rels <= files.Keys
  {
    map q | q in t.Keys + rels :: if q in rels then File(files[q]) else t[q]
  }

  /** Every wanted file can be written here: its directories exist, and none is in its way. */
  ghost predicate Ready(t: Tree, files: Files) {
    && (forall r, q :: r in files && q < r ==> q in t && t[q] == Dir)
    && (forall r :: r in files && r in t ==> t[r].File?)
  }

  lemma {:induction false} WritesRun(t: Tree, files: Files, rels: seq<Path>)
    requires ValidFiles(files) && Ready(t, files)
    requires forall r :: r in rels ==> r in files
    ensures CommitAll(t, Writes(files, rels)) == Some(FilesAdded(t, files, set r | r in rels))
    decreases |rels|
  {
    if rels == [] {
      assert FilesAdded(t, files, set r | r in rels) == t;
      assert Writes(files, rels) == [];
    } else {
      var r, rest := rels[0], rels[1..];
      assert r in rels && rels == [r] + rest;
      var next := t[r := File(files[r])];
      assert Ready(next, files);
      hide Commit, CommitAll, ValidFiles, Ready, FilesAdded;
      WriteInPlace(t, files, r);
      WritesRun(next, files, rest);
      CommitFirst(t, Write(r, files[r]), next, Writes(files, rest));
      FirstWrite(files, r, rest);
      hide Writes;
      assert (set x | x in rels) == (set x | x in rest) + {r};
      FirstFileAdded(t, files, (set x | x in rest), r);
    }
  }

  lemma FirstWrite(files: Files, r: Path, rest: seq<Path>)
    requires r in files && forall x :: x in rest ==> x in files
    ensures Writes(files, [r] + rest) == [Write(r, files[r])] + Writes(files, rest)
  {
    var all := Writes(files, [r] + rest);
    assert all[0] == Write(r, files[r]) && all[1..] == Writes(files, rest);
  }

  lemma FirstFileAdded(t: Tree, files: Files, rels: set<Path>, r: Path)
    requires rels <= files.Keys && r in files
    ensures FilesAdded(t[r := File(files[r])], files, rels) == FilesAdded(t, files, rels + {r})
  {
  }

  lemma WriteInPlace(t: Tree, files: Files, r: Path)
    requires ValidFiles(files) && Ready(t, files) && r in files
    ensures Commit(t, Write(r, files[r])) == Some(t[r := File(files[r])])
  {
    assert forall q :: q in Prefixes(Parent(r)) <==> q < r;
    assert WithDirs(t, Parent(r)) == t;
  }

  // ---- The whole plan ----

  ghost predicate SomeAbove(removals: seq<Change>, p: Path) {
    exists c :: c in removals && c.target <= p
  }

  /** What the plan's parts must satisfy. */
  ghost predicate PlanParts(t: Tree, files: Files, removals: seq<Change>, dirs: seq<Path>, rels: seq<Path>) {
    && Apart(removals)
    && (forall c :: c in removals ==> RemovalOk(t, c) && Stale(t, files, c.target))
    && (forall p :: p in t && p != [] && Stale(t, files, p) ==> SomeAbove(removals, p))
    && (set d | d in dirs) == ParentDirs(files)
    && (set r | r in rels) == files.Keys
  }

  ghost function ParentDirs(files: Files): set<Path> {
    set p | p in files && |p| > 1 :: p[..|p| - 1]
  }

  /** What is left after the removals is wanted as it is. */
  lemma PrunedIsWanted(t: Tree, files: Files, removals: seq<Change>, dirs: seq<Path>, rels: seq<Path>, p: Path)
    requires WellFormed(t) && PlanParts(t, files, removals, dirs, rels)
    requires p in Pruned(t, RemovedRoots(removals)) && p != []
    ensures !Stale(t, files, p)
  {
    hide Apart, RemovalOk, ParentDirs, Stale;
    forall c | c in removals
      ensures !(c.target <= p)
    {
      assert c.target in RemovedRoots(removals);
    }
  }

  lemma ParentPrefixes(files: Files)
    requires ValidFiles(files)
    ensures AllPrefixes(ParentDirs(files)) - {[]} == WantedDirs(files)
    ensures forall d :: d in WantedDirs(files) ==> d !in files
  {
    forall d | d in WantedDirs(files)
      ensures d in AllPrefixes(ParentDirs(files))
    {
      var p :| p in files && d < p;
      assert p[..|p| - 1] in ParentDirs(files) && d <= p[..|p| - 1];
    }
    forall d | d in AllPrefixes(ParentDirs(files)) && d != []
      ensures d in WantedDirs(files)
    {
      var e :| e in ParentDirs(files) && d <= e;
      var p :| p in files && |p| > 1 && p[..|p| - 1] == e;
      assert d < p;
    }
  }

  /** Once stale nodes are gone, no directory or file the plan adds is in the way. */
  lemma NothingInTheWay(t: Tree, files: Files)
    requires WellFormed(t) && ValidFiles(files)
    requires forall p :: p in t && p != [] ==> !Stale(t, files, p)
    ensures forall d, q :: d in ParentDirs(files) && q <= d && q in t ==> t[q] == Dir
    ensures Ready(DirsAdded(t, ParentDirs(files)), files)
    ensures FilesAdded(DirsAdded(t, ParentDirs(files)), files, files.Keys) == Wanted(files)
  {
    var dirs := ParentDirs(files);
    ParentPrefixes(files);
    hide ParentDirs;
    forall d, q | d in dirs && q <= d && q in t
      ensures t[q] == Dir
    {
      assert q in AllPrefixes(dirs);
    }
    MadeIsReady(t, files, dirs);
    MadeIsWanted(t, files, dirs);
  }

  lemma MadeIsReady(t: Tree, files: Files, dirs: set<Path>)
    requires ValidFiles(files) && AllPrefixes(dirs) - {[]} == WantedDirs(files) && [] in t && t[[]] == Dir
    requires forall p :: p in t && p != [] ==> !Stale(t, files, p)
    ensures Ready(DirsAdded(t, dirs), files)
  {
    var made := DirsAdded(t, dirs);
    hide DirsAdded, ValidFiles, Stale, AllPrefixes, WantedDirs;
    forall r, q | r in files && q < r
      ensures q in made && made[q] == Dir
    {
      ParentMade(t, files, dirs, r, q);
    }
    forall r | r in files && r in made
      ensures made[r].File?
    {
      FileFree(t, files, dirs, r);
    }
  }

  lemma ParentMade(t: Tree, files: Files, dirs: set<Path>, r: Path, q: Path)
    requires AllPrefixes(dirs) - {[]} == WantedDirs(files) && [] in t && t[[]] == Dir
    requires r in files && q < r
    ensures var made := DirsAdded(t, dirs); q in made && made[q] == Dir
  {
    if q != [] { assert q in WantedDirs(files) && q in AllPrefixes(dirs); }
  }

  lemma FileFree(t: Tree, files: Files, dirs: set<Path>, r: Path)
    requires ValidFiles(files) && AllPrefixes(dirs) - {[]} == WantedDirs(files)
    requires forall p :: p in t && p != [] ==> !Stale(t, files, p)
    requires r in files && r in DirsAdded(t, dirs)
    ensures DirsAdded(t, dirs)[r].File?
  {
    assert r !in WantedDirs(files) && r !in AllPrefixes(dirs);
    assert r in t && !Stale(t, files, r);
  }

  lemma MadeIsWanted(t: Tree, files: Files, dirs: set<Path>)
    requires ValidFiles(files) && AllPrefixes(dirs) - {[]} == WantedDirs(files) && [] in t && t[[]] == Dir
    requires forall p :: p in t && p != [] ==> !Stale(t, files, p)
    ensures FilesAdded(DirsAdded(t, dirs), files, files.Keys) == Wanted(files)
  {
    var done, wanted := FilesAdded(DirsAdded(t, dirs), files, files.Keys), Wanted(files);
    assert done.Keys == wanted.Keys;
    forall p | p in done
      ensures done[p] == wanted[p]
    {
    }
  }

  ghost function PlanOf(base: string, removals: seq<Change>, dirs: seq<Path>, files: Files,
                        rels: seq<Path>): seq<Change>
    requires forall r :: r in rels ==> r in files
  {
    [WriteIfMatch(SKILL, base, base)] + removals + Mkdirs(dirs) + Writes(files, rels)
  }

  /** The plan runs to the end on the tree it was made for, and leaves the wanted tree. */
  lemma PlanWorks(t: Tree, base: string, files: Files, removals: seq<Change>, dirs: seq<Path>, rels: seq<Path>)
    requires WellFormed(t) && ValidFiles(files) && SKILL in t && t[SKILL] == File(base)
    requires PlanParts(t, files, removals, dirs, rels)
    requires forall r :: r in rels ==> r in files
    ensures CommitAll(t, PlanOf(base, removals, dirs, files, rels)) == Some(Wanted(files))
  {
    hide *;
    var first := [WriteIfMatch(SKILL, base, base)];
    var pruned := Pruned(t, RemovedRoots(removals));
    PartsAre(t, files, removals, dirs, rels);
    FirstIsNoChange(t, base);
    RemovalsRun(t, removals);
    NothingStaleLeft(t, files, removals, dirs, rels);
    NothingInTheWay(pruned, files);
    forall d, q | d in dirs && q <= d && q in pruned
      ensures pruned[q] == Dir
    {
      assert d in (set x | x in dirs);
      assert d in ParentDirs(files);
    }
    MkdirsRun(pruned, dirs);
    var made := DirsAdded(pruned, ParentDirs(files));
    WritesRun(made, files, rels);
    CommitBoth(t, first, t, removals);
    CommitBoth(t, first + removals, pruned, Mkdirs(dirs));
    CommitBoth(t, first + removals + Mkdirs(dirs), made, Writes(files, rels));
    PlanIs(base, removals, dirs, files, rels);
  }

  lemma PartsAre(t: Tree, files: Files, removals: seq<Change>, dirs: seq<Path>, rels: seq<Path>)
    requires PlanParts(t, files, removals, dirs, rels)
    ensures Apart(removals) && forall c :: c in removals ==> RemovalOk(t, c)
    ensures (set d | d in dirs) == ParentDirs(files) && (set r | r in rels) == files.Keys
  {
  }

  lemma PlanIs(base: string, removals: seq<Change>, dirs: seq<Path>, files: Files, rels: seq<Path>)
    requires forall r :: r in rels ==> r in files
    ensures PlanOf(base, removals, dirs, files, rels)
        == [WriteIfMatch(SKILL, base, base)] + removals + Mkdirs(dirs) + Writes(files, rels)
  {
  }

  lemma NothingStaleLeft(t: Tree, files: Files, removals: seq<Change>, dirs: seq<Path>, rels: seq<Path>)
    requires WellFormed(t) && PlanParts(t, files, removals, dirs, rels)
    ensures var pruned := Pruned(t, RemovedRoots(removals));
            forall p :: p in pruned && p != [] ==> !Stale(pruned, files, p)
  {
    var pruned := Pruned(t, RemovedRoots(removals));
    forall p | p in pruned && p != []
      ensures !Stale(pruned, files, p)
    {
      PrunedIsWanted(t, files, removals, dirs, rels, p);
    }
  }

  lemma FirstIsNoChange(t: Tree, base: string)
    requires WellFormed(t) && SKILL in t && t[SKILL] == File(base)
    ensures CommitAll(t, [WriteIfMatch(SKILL, base, base)]) == Some(t)
  {
    var c := WriteIfMatch(SKILL, base, base);
    assert Parent(SKILL) == [];
    assert WithDirs(t, Parent(SKILL))[SKILL := File(base)] == t;
    assert forall q | q < SKILL :: |q| == 0;
    assert [c][1..] == [];
    assert CommitAll(t, []) == Some(t);
  }

  // ---- syncSkill ----

  datatype Entry = Entry(rel: Path, dir: bool)

  function Depth(e: Entry): int { |e.rel| }

  function Deepest(c: Change): int { -|c.target| }

  function Shallowest(d: Path): int { |d| }

  function SkillLast(r: Path): int { if r == SKILL then 1 else 0 }

  /** The walk found every node below the skill directory once. */
  ghost predicate Walked(t: Tree, existing: seq<Entry>) {
    NoDuplicates(existing) && forall e :: e in existing <==> e.rel in t && e.rel != [] && e.dir == t[e.rel].Dir?
  }

  method DesiredDirs(files: Files) returns (dirs: set<Path>)
    requires [] !in files
    ensures dirs == WantedDirs(files)
  {
    dirs := {};
    var todo := files.Keys;
    while todo != {}
      invariant todo <= files.Keys
      invariant forall d :: d in dirs <==> d != [] && exists p :: p in files && p !in todo && d < p
      decreases todo
    {
      var rel :| rel in todo;
      ghost var before := dirs;
      dirs := DirsOf(dirs, rel);
      todo := todo - {rel};
    }
  }

  method DirsOf(before: set<Path>, rel: Path) returns (dirs: set<Path>)
    requires rel != []
    ensures forall d :: d in dirs <==> d in before || (d != [] && d < rel)
  {
    dirs := before;
    var dir := rel[..|rel| - 1];
    while dir != []
      invariant dir < rel
      invariant forall d :: d in dirs <==> d in before || (d != [] && d < rel && |d| > |dir|)
      decreases |dir|
    {
      assert forall d | d < rel && |d| == |dir| :: d == rel[..|d|] == dir;
      dirs := dirs + {dir};
      dir := dir[..|dir| - 1];
    }
  }

  method Covered(roots: set<Path>, p: Path) returns (covered: bool)
    ensures covered <==> exists root :: root in roots && root <= p
  {
    covered := false;
    var todo := roots;
    while todo != {}
      invariant todo <= roots && !covered
      invariant forall root :: root in roots && root !in todo ==> !(root <= p)
      decreases todo
    {
      var root :| root in todo;
      if root <= p { return true; }
      todo := todo - {root};
    }
  }

  // What the removals found so far say about the entries visited.
  ghost predicate RemovalsSoFar(t: Tree, files: Files, removals: seq<Change>, roots: set<Path>, visited: seq<Entry>) {
    && (forall c :: c in removals ==>
          RemovalOk(t, c) && Stale(t, files, c.target) && Entry(c.target, c.RemoveAll?) in visited)
    && (forall e :: e in visited && e.rel in t && Stale(t, files, e.rel) ==> SomeAbove(removals, e.rel))
    && (forall r :: r in roots <==> exists c :: c in removals && c.RemoveAll? && c.target == r)
    && Apart(removals)
  }

  /** The removals: shallowest entries first, nothing below a directory already removed;
      then deepest first. */
  method PlanRemovals(t: Tree, files: Files, desiredDirs: set<Path>, walk: seq<Entry>) returns (removals: seq<Change>)
    requires WellFormed(t) && ValidFiles(files) && desiredDirs == WantedDirs(files) && Walked(t, walk)
    ensures Apart(removals)
    ensures forall c :: c in removals ==> RemovalOk(t, c) && Stale(t, files, c.target)
    ensures forall p :: p in t && p != [] && Stale(t, files, p) ==> SomeAbove(removals, p)
  {
    var existing := SortBy(walk, Depth);
    removals := [];
    var removedRoots: set<Path> := {};
    NothingRemoved(t, files);
    hide *;
    SameWalk(t, walk, existing);
    assert existing[..0] == [];
    for i := 0 to |existing|
      invariant RemovalsSoFar(t, files, removals, removedRoots, existing[..i])
    {
      var e := existing[i];
      assert existing[..i + 1] == existing[..i] + [e];
      StaleEntry(t, files, existing, i);
      hide *;
      var stale := if e.dir then e.rel in files || e.rel !in desiredDirs else e.rel !in files || e.rel in desiredDirs;
      if !stale {
        Spared(t, files, removals, removedRoots, existing[..i], e);
        continue;
      }
      var covered := Covered(removedRoots, e.rel);
      if covered {
        Spared(t, files, removals, removedRoots, existing[..i], e);
        continue;
      }
      var c := if e.dir then RemoveAll(e.rel) else Remove(e.rel);
      NextRemoval(t, files, removals, removedRoots, existing, i, c);
      removals := removals + [c];
      if e.dir {
        removedRoots := removedRoots + {e.rel};
      }
    }
    assert existing[..|existing|] == existing;
    RemovalsFound(t, files, removals, removedRoots, existing);
    var found := removals;
    removals := SortBy(found, Deepest);
    Reordered(t, files, found, removals);
  }

  /** The order of the removals does not matter. */
  lemma Reordered(t: Tree, files: Files, found: seq<Change>, removals: seq<Change>)
    requires multiset(found) == multiset(removals) && Apart(found)
    ensures Apart(removals)
    ensures forall c :: c in removals <==> c in found
    ensures forall p :: SomeAbove(found, p) ==> SomeAbove(removals, p)
  {
    SameMembers(found, removals);
    PermutedDistinct(found, removals);
    hide NoDuplicates;
  }

  lemma NothingRemoved(t: Tree, files: Files)
    ensures RemovalsSoFar(t, files, [], {}, [])
  {
  }

  lemma SameWalk(t: Tree, walk: seq<Entry>, existing: seq<Entry>)
    requires Walked(t, walk) && multiset(existing) == multiset(walk)
    ensures Walked(t, existing)
  {
    SameMembers(existing, walk);
    PermutedDistinct(walk, existing);
    hide NoDuplicates;
  }

  lemma StaleEntry(t: Tree, files: Files, existing: seq<Entry>, i: nat)
    requires Walked(t, existing) && i < |existing|
    ensures var e := existing[i]; && e.rel in t && (Stale(t, files, e.rel) <==>
      if e.dir then e.rel in files || e.rel !in WantedDirs(files) else e.rel !in files || e.rel in WantedDirs(files))
  {
  }

  lemma RemovalsFound(t: Tree, files: Files, removals: seq<Change>, roots: set<Path>, existing: seq<Entry>)
    requires Walked(t, existing) && RemovalsSoFar(t, files, removals, roots, existing)
    ensures Apart(removals)
    ensures forall c :: c in removals ==> RemovalOk(t, c) && Stale(t, files, c.target)
    ensures forall p :: p in t && p != [] && Stale(t, files, p) ==> SomeAbove(removals, p)
  {
    hide Stale, Apart;
    forall p | p in t && p != [] && Stale(t, files, p)
      ensures SomeAbove(removals, p)
    {
      assert Entry(p, t[p].Dir?) in existing;
    }
  }

  lemma Spared(t: Tree, files: Files, removals: seq<Change>, roots: set<Path>, visited: seq<Entry>, e: Entry)
    requires RemovalsSoFar(t, files, removals, roots, visited) && e.rel in t
    requires !Stale(t, files, e.rel) || exists root :: root in roots && root <= e.rel
    ensures RemovalsSoFar(t, files, removals, roots, visited + [e])
  {
    hide Stale, Apart, RemovalOk;
    if root :| root in roots && root <= e.rel {
      assert SomeAbove(removals, e.rel);
    }
  }

  /** A stale entry below no removed directory lies apart from every removal so far. */
  lemma NextRemoval(t: Tree, files: Files, removals: seq<Change>, roots: set<Path>, existing: seq<Entry>, i: nat,
                    c: Change)
    requires WellFormed(t) && Walked(t, existing) && SortedBy(existing, Depth) && i < |existing|
    requires RemovalsSoFar(t, files, removals, roots, existing[..i])
    requires c == if existing[i].dir then RemoveAll(existing[i].rel) else Remove(existing[i].rel)
    requires existing[i].rel in t && Stale(t, files, existing[i].rel)
    requires forall root :: root in roots ==> !(root <= existing[i].rel)
    ensures RemovalsSoFar(t, files, removals + [c], if existing[i].dir then roots + {existing[i].rel} else roots,
        existing[..i + 1])
  {
    hide *;
    var e := existing[i];
    assert existing[..i + 1] == existing[..i] + [e];
    forall d | d in removals
      ensures !(d.target <= e.rel) && !(e.rel <= d.target)
    {
      ApartFromNext(t, files, removals, roots, existing, i, d);
    }
    ExistsInTree(t, existing, i);
    OneRemovalMore(t, files, removals, roots, existing[..i], e, c);
  }

  lemma ExistsInTree(t: Tree, existing: seq<Entry>, i: nat)
    requires Walked(t, existing) && i < |existing|
    ensures existing[i].rel in t && existing[i].rel != [] && existing[i].dir == t[existing[i].rel].Dir?
  {
  }

  lemma ApartMore(removals: seq<Change>, c: Change)
    requires Apart(removals)
    requires forall d :: d in removals ==> !(d.target <= c.target) && !(c.target <= d.target)
    ensures Apart(removals + [c])
  {
  }

  lemma OneRemovalMore(t: Tree, files: Files, removals: seq<Change>, roots: set<Path>, visited: seq<Entry>, e: Entry,
                       c: Change)
    requires RemovalsSoFar(t, files, removals, roots, visited)
    requires c == if e.dir then RemoveAll(e.rel) else Remove(e.rel)
    requires e.rel in t && e.rel != [] && e.dir == t[e.rel].Dir? && Stale(t, files, e.rel)
    requires forall d :: d in removals ==> !(d.target <= e.rel) && !(e.rel <= d.target)
    ensures RemovalsSoFar(t, files, removals + [c], if e.dir then roots + {e.rel} else roots, visited + [e])
  {
    var now := removals + [c];
    ApartMore(removals, c);
    hide Stale, Apart, RemovalOk;
    forall x | x in visited + [e] && x.rel in t && Stale(t, files, x.rel)
      ensures SomeAbove(now, x.rel)
    {
      if x == e {
        assert c in now;
      } else {
        var d :| d in removals && d.target <= x.rel;
        assert d in now;
      }
    }
  }

  lemma ApartFromNext(t: Tree, files: Files, removals: seq<Change>, roots: set<Path>, existing: seq<Entry>, i: nat,
                      d: Change)
    requires WellFormed(t) && Walked(t, existing) && SortedBy(existing, Depth) && i < |existing|
    requires RemovalsSoFar(t, files, removals, roots, existing[..i]) && d in removals
    requires forall root :: root in roots ==> !(root <= existing[i].rel)
    ensures !(d.target <= existing[i].rel) && !(existing[i].rel <= d.target)
  {
    hide WellFormed, Walked;
    VisitedBefore(t, files, removals, roots, existing, i, d);
    var k :| 0 <= k < i && existing[k] == Entry(d.target, d.RemoveAll?);
    assert Depth(existing[k]) <= Depth(existing[i]);
    DistinctRels(t, existing, k, i);
    ExistsInTree(t, existing, i);
    if d.Remove? { FileHasNothingBelow(t, d.target, existing[i].rel); }
  }

  lemma VisitedBefore(t: Tree, files: Files, removals: seq<Change>, roots: set<Path>, existing: seq<Entry>, i: nat,
                      d: Change)
    requires i <= |existing| && RemovalsSoFar(t, files, removals, roots, existing[..i]) && d in removals
    ensures exists k :: 0 <= k < i && existing[k] == Entry(d.target, d.RemoveAll?)
    ensures RemovalOk(t, d) && (d.RemoveAll? ==> d.target in roots)
  {
  }

  lemma DistinctRels(t: Tree, existing: seq<Entry>, k: nat, i: nat)
    requires Walked(t, existing) && k < i < |existing|
    ensures existing[k].rel != existing[i].rel
  {
  }

  // ---- The change set ----

  /** syncSkill's change plan, from the walk of the skill directory and the fetched files.
      base is the SKILL.md it was computed from, still in place. Submitted as one batch it
      leaves exactly the fetched files and the directories above them, whatever was there. */
  method SyncPlan(t: Tree, walk: seq<Entry>, base: string, files: Files) returns (changes: seq<Change>)
    requires WellFormed(t) && Walked(t, walk) && SKILL in t && t[SKILL] == File(base)
    requires ValidFiles(files) && SKILL in files
    ensures CommitAll(t, changes) == Some(Wanted(files))
    ensures changes != [] && changes[|changes| - 1] == Write(SKILL, files[SKILL])
    ensures forall c :: c in changes && (c.Remove? || c.RemoveAll?) ==> RemovalOk(t, c) && Stale(t, files, c.target)
  {
    assert [] !in files;
    hide *;
    var desiredDirs := DesiredDirs(files);
    var removals := PlanRemovals(t, files, desiredDirs, walk);
    var dirs, rels := CollectPaths(files);
    var orderedDirs := Shallow(dirs);
    var orderedRels := SortBy(rels, SkillLast);
    SameMembers(orderedRels, rels);
    SkillIsLast(orderedRels);
    changes := Assemble(base, removals, orderedDirs, files, orderedRels);
    PartsFit(t, files, removals, orderedDirs, orderedRels);
    PlanWorks(t, base, files, removals, orderedDirs, orderedRels);
    PlanEnds(base, removals, orderedDirs, files, orderedRels);
  }

  lemma PartsFit(t: Tree, files: Files, removals: seq<Change>, dirs: seq<Path>, rels: seq<Path>)
    requires Apart(removals)
    requires forall c :: c in removals ==> RemovalOk(t, c) && Stale(t, files, c.target)
    requires forall p :: p in t && p != [] && Stale(t, files, p) ==> SomeAbove(removals, p)
    requires (set d | d in dirs) == ParentDirs(files) && forall r :: r in rels <==> r in files
    ensures PlanParts(t, files, removals, dirs, rels)
  {
  }

  method CollectPaths(files: Files) returns (dirs: set<Path>, rels: seq<Path>)
    requires [] !in files
    ensures dirs == ParentDirs(files)
    ensures forall r :: r in rels <==> r in files
  {
    dirs, rels := {}, [];
    var todo := files.Keys;
    while todo != {}
      invariant todo <= files.Keys
      invariant forall r :: r in rels <==> r in files && r !in todo
      invariant dirs == set p | p in files && p !in todo && |p| > 1 :: p[..|p| - 1]
      decreases todo
    {
      var rel :| rel in todo;
      rels := rels + [rel];
      if |rel| > 1 {
        dirs := dirs + {rel[..|rel| - 1]};
      }
      todo := todo - {rel};
    }
  }

  method Shallow(dirs: set<Path>) returns (ordered: seq<Path>)
    ensures SortedBy(ordered, Shallowest) && (set d | d in ordered) == dirs
  {
    var all: seq<Path> := [];
    var todo := dirs;
    while todo != {}
      invariant todo <= dirs && forall d :: d in all <==> d in dirs && d !in todo
      decreases todo
    {
      var d :| d in todo;
      all := all + [d];
      todo := todo - {d};
    }
    ordered := SortBy(all, Shallowest);
    SameMembers(ordered, all);
  }

  method Assemble(base: string, removals: seq<Change>, dirs: seq<Path>, files: Files, rels: seq<Path>)
    returns (changes: seq<Change>)
    requires forall r :: r in rels ==> r in files
    ensures changes == PlanOf(base, removals, dirs, files, rels)
  {
    changes := [WriteIfMatch(SKILL, base, base)];
    changes := changes + removals;
    ghost var first := changes;
    for i := 0 to |dirs|
      invariant changes == first + Mkdirs(dirs)[..i]
    {
      changes := changes + [MkdirAll(dirs[i])];
    }
    ghost var second := changes;
    for i := 0 to |rels|
      invariant changes == second + Writes(files, rels)[..i]
    {
      assert rels[i] in rels;
      changes := changes + [Write(rels[i], files[rels[i]])];
    }
    PlanIs(base, removals, dirs, files, rels);
  }

  lemma SkillIsLast(rels: seq<Path>)
    requires SortedBy(rels, SkillLast) && SKILL in rels
    ensures rels[|rels| - 1] == SKILL
  {
  }

  lemma PlanEnds(base: string, removals: seq<Change>, dirs: seq<Path>, files: Files, rels: seq<Path>)
    requires rels != [] && forall r :: r in rels ==> r in files
    ensures var plan := PlanOf(base, removals, dirs, files, rels);
            && plan != [] && plan[|plan| - 1] == Write(rels[|rels| - 1], files[rels[|rels| - 1]])
            && forall c :: c in plan && (c.Remove? || c.RemoveAll?) ==> c in removals
  {
  }
}
