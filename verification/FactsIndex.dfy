/** Directory roll-ups of indexed files: internal/analytics/factsindex.go. Every upsert
    and delete adjusts the rows of all ancestor directories by a delta; the rows must
    always equal the sums over the files beneath them. */
module FactsIndex {
  import opened Wrappers
  import opened Sums

  // A path as its components; [] is "/".
  type Path = seq<string>

  datatype Scalars = Scalars(lines: int, characters: int, tokens: int)

  // generation 0 in a fact stands for the current generation.
  datatype Fact = Fact(owner: string, size: int, generation: int, sources: map<string, Scalars>)

  datatype Totals = Totals(files: int, bytes: int, lines: int, characters: int, tokens: int)

  const ZERO := Totals(0, 0, 0, 0, 0)

  type Directories = map<(Path, string), Totals>

  function Plus(a: Totals, b: Totals): Totals {
    Totals(a.files + b.files, a.bytes + b.bytes, a.lines + b.lines, a.characters + b.characters, a.tokens + b.tokens)
  }

  function Minus(a: Totals, b: Totals): Totals {
    Totals(a.files - b.files, a.bytes - b.bytes, a.lines - b.lines, a.characters - b.characters, a.tokens - b.tokens)
  }

  // ---- Naive sums ----

  function ScalarTotals(s: Scalars): Totals { Totals(0, 0, s.lines, s.characters, s.tokens) }

  ghost function SourceTotals(sources: map<string, Scalars>): (t: Totals)
    ensures t.files == 0
  {
    if sources == map[] then ZERO
    else
      var s :| s in sources;
      Plus(ScalarTotals(sources[s]), SourceTotals(sources - {s}))
  }

  /** What one file adds to each directory above it. */
  ghost function FactTotals(fact: Fact): Totals {
    Plus(Totals(1, fact.size, 0, 0, 0), SourceTotals(fact.sources))
  }

  /** path.Dir applied once or more to p gives d; "/" is its own parent. */
  predicate Beneath(d: Path, p: Path) {
    if p == [] then d == [] else |d| < |p| && p[..|d|] == d
  }

  ghost predicate Counted(d: Path, owners: iset<string>, p: Path, fact: Fact) {
    fact.owner in owners && Beneath(d, p)
  }

  /** The sum over all files of the owners beneath d. */
  ghost function RollUp(files: map<Path, Fact>, d: Path, owners: iset<string>): Totals {
    if files == map[] then ZERO
    else
      var p :| p in files;
      Plus(if Counted(d, owners, p, files[p]) then FactTotals(files[p]) else ZERO, RollUp(files - {p}, d, owners))
  }

  ghost function Share(files: map<Path, Fact>, d: Path, owners: iset<string>, p: Path): Totals {
    if p in files && Counted(d, owners, p, files[p]) then FactTotals(files[p]) else ZERO
  }

  lemma PlusLaws(a: Totals, b: Totals, c: Totals)
    ensures Plus(a, Plus(b, c)) == Plus(b, Plus(a, c))
    ensures Minus(Plus(a, b), a) == b
    ensures Plus(ZERO, a) == a
  {
  }

  lemma {:induction false} RollUpRemove(files: map<Path, Fact>, d: Path, owners: iset<string>, p: Path)
    requires p in files
    ensures RollUp(files, d, owners) == Plus(Share(files, d, owners, p), RollUp(files - {p}, d, owners))
    decreases |files|
  {
    hide RollUp, FactTotals, Counted, Plus;
    var q := RollUpSome(files, d, owners);
    if q != p {
      RollUpRemove(files - {q}, d, owners, p);
      RollUpRemove(files - {p}, d, owners, q);
      assert files - {q} - {p} == files - {p} - {q};
      assert Share(files - {q}, d, owners, p) == Share(files, d, owners, p);
      assert Share(files - {p}, d, owners, q) == Share(files, d, owners, q);
      PlusLaws(Share(files, d, owners, q), Share(files, d, owners, p), RollUp(files - {p} - {q}, d, owners));
    }
  }

  lemma RollUpSome(files: map<Path, Fact>, d: Path, owners: iset<string>) returns (q: Path)
    requires files != map[]
    ensures q in files && RollUp(files, d, owners) == Plus(Share(files, d, owners, q), RollUp(files - {q}, d, owners))
  {
    hide FactTotals, Counted, Plus;
    q :| q in files && RollUp(files, d, owners) == Plus(Share(files, d, owners, q), RollUp(files - {q}, d, owners));
  }

  /** Replacing or removing one file moves the sum by the difference of its shares. */
  lemma RollUpChange(files: map<Path, Fact>, now: map<Path, Fact>, d: Path, owners: iset<string>, p: Path)
    requires files - {p} == now - {p}
    ensures RollUp(now, d, owners) == Plus(Share(now, d, owners, p),
        Minus(RollUp(files, d, owners), Share(files, d, owners, p)))
  {
    var rest := RollUp(files - {p}, d, owners);
    if p in files { RollUpRemove(files, d, owners, p); } else { assert files - {p} == files; }
    if p in now { RollUpRemove(now, d, owners, p); } else { assert now - {p} == now; }
    hide RollUp, FactTotals;
    PlusLaws(Share(files, d, owners, p), rest, rest);
    PlusLaws(rest, rest, rest);
  }

  lemma {:induction false} NoneCounted(files: map<Path, Fact>, d: Path, owners: iset<string>)
    requires forall p :: p in files ==> !Counted(d, owners, p, files[p])
    ensures RollUp(files, d, owners) == ZERO
    decreases |files|
  {
    if files != map[] {
      var p :| p in files;
      NoneCounted(files - {p}, d, owners);
      RollUpRemove(files, d, owners, p);
    }
  }

  lemma {:induction false} FilesNonNegative(files: map<Path, Fact>, d: Path, owners: iset<string>)
    ensures RollUp(files, d, owners).files >= 0
    decreases |files|
  {
    if files != map[] {
      var p :| p in files;
      FilesNonNegative(files - {p}, d, owners);
      RollUpRemove(files, d, owners, p);
    }
  }

  /** The file count of a sum says whether any file is summed at all. */
  lemma FilesCounted(files: map<Path, Fact>, d: Path, owners: iset<string>)
    ensures RollUp(files, d, owners).files >= 0
    ensures RollUp(files, d, owners).files > 0 <==> exists p :: p in files && Counted(d, owners, p, files[p])
    ensures RollUp(files, d, owners).files == 0 ==> RollUp(files, d, owners) == ZERO
  {
    FilesNonNegative(files, d, owners);
    if p :| p in files && Counted(d, owners, p, files[p]) {
      RollUpRemove(files, d, owners, p);
      FilesNonNegative(files - {p}, d, owners);
    } else {
      NoneCounted(files, d, owners);
    }
  }

  // ---- The directory table ----

  ghost function One(owner: string): iset<string> { iset{owner} }

  function Row(dirs: Directories, d: Path, owner: string): Totals {
    if (d, owner) in dirs then dirs[(d, owner)] else ZERO
  }

  /** Each row equals the sum over the owner's files beneath it, and exists exactly when
      there is such a file. */
  ghost predicate RolledUp(files: map<Path, Fact>, dirs: Directories) {
    && (forall d, owner :: owner != "" ==> Row(dirs, d, owner) == RollUp(files, d, One(owner)))
    && (forall d, owner :: (d, owner) in dirs ==> owner != "" && dirs[(d, owner)].files > 0)
  }

  /** The table after adding t to the rows of all ancestors of p. */
  ghost predicate Adjusted(before: Directories, after: Directories, p: Path, owner: string, t: Totals) {
    forall d, o :: Row(after, d, o) == if o == owner && Beneath(d, p) then Plus(Row(before, d, o), t)
        else Row(before, d, o)
  }

  ghost predicate OwnedRows(dirs: Directories) {
    forall d, o :: (d, o) in dirs ==> o != ""
  }

  function Times(t: Totals, sign: int): Totals {
    Totals(sign, sign * t.bytes, sign * t.lines, sign * t.characters, sign * t.tokens)
  }

  function ParentDir(p: Path): Path {
    if p == [] then [] else p[..|p| - 1]
  }

  /** applyDirectoryDelta: from the parent up to the root. */
  method ApplyDirectoryDelta(dirs: Directories, p: Path, owner: string, t: Totals) returns (after: Directories)
    requires owner != "" && OwnedRows(dirs)
    ensures Adjusted(dirs, after, p, owner, t) && OwnedRows(after)
  {
    after := dirs;
    var dir := ParentDir(p);
    while true
      invariant |dir| <= |ParentDir(p)| && dir == p[..|dir|]
      invariant OwnedRows(after)
      invariant forall d, o ::
        Row(after, d, o) == if o == owner && Beneath(d, p) && |d| > |dir| then Plus(Row(dirs, d, o), t)
            else Row(dirs, d, o)
      decreases |dir|
    {
      assert Beneath(dir, p);
      after := after[(dir, owner) := Plus(Row(after, dir, owner), t)];
      if dir == [] {
        break;
      }
      dir := ParentDir(dir);
    }
  }

  method TotalsForFact(fact: Fact) returns (t: Totals)
    ensures t == FactTotals(fact)
  {
    t := Totals(1, fact.size, 0, 0, 0);
    var todo := fact.sources;
    while todo != map[]
      invariant FactTotals(fact) == Plus(t, SourceTotals(todo))
      decreases |todo|
    {
      var s :| s in todo;
      SourceRemove(todo, s);
      var values := todo[s];
      hide SourceTotals;
      t := t.(lines := t.lines + values.lines, characters := t.characters + values.characters,
          tokens := t.tokens + values.tokens);
      assert |todo.Keys - {s}| < |todo.Keys|;
      todo := todo - {s};
    }
  }

  lemma {:induction false} SourceRemove(sources: map<string, Scalars>, s: string)
    requires s in sources
    ensures SourceTotals(sources) == Plus(ScalarTotals(sources[s]), SourceTotals(sources - {s}))
    decreases |sources|
  {
    var r :| r in sources && SourceTotals(sources) == Plus(ScalarTotals(sources[r]), SourceTotals(sources - {r}));
    if r != s {
      SourceRemove(sources - {r}, s);
      SourceRemove(sources - {s}, r);
      assert sources - {r} - {s} == sources - {s} - {r};
      PlusLaws(ScalarTotals(sources[r]), ScalarTotals(sources[s]), SourceTotals(sources - {s} - {r}));
    }
  }

  // The table's change when file p goes from one state to another.
  ghost predicate Moved(files: map<Path, Fact>, now: map<Path, Fact>, before: Directories, after: Directories,
                        p: Path) {
    forall d, o :: o != "" ==>
      Row(after, d, o) == Plus(Share(now, d, One(o), p), Minus(Row(before, d, o), Share(files, d, One(o), p)))
  }

  function Positive(dirs: Directories): Directories {
    map k | k in dirs && dirs[k].files > 0 :: dirs[k]
  }

  lemma MovedRow(files: map<Path, Fact>, now: map<Path, Fact>, before: Directories, after: Directories, p: Path,
                 d: Path, o: string)
    requires RolledUp(files, before) && Moved(files, now, before, after, p) && files - {p} == now - {p} && o != ""
    ensures Row(Positive(after), d, o) == RollUp(now, d, One(o))
  {
    hide RollUp, Share;
    RollUpChange(files, now, d, One(o), p);
    FilesCounted(now, d, One(o));
    assert Row(after, d, o) == RollUp(now, d, One(o));
  }

  /** The delta and the removal of empty rows restore the roll-up. */
  lemma MovedRollsUp(files: map<Path, Fact>, now: map<Path, Fact>, before: Directories, after: Directories, p: Path)
    requires RolledUp(files, before) && Moved(files, now, before, after, p) && files - {p} == now - {p}
        && OwnedRows(after)
    ensures RolledUp(now, Positive(after))
  {
    forall d, o | o != ""
      ensures Row(Positive(after), d, o) == RollUp(now, d, One(o))
    {
      MovedRow(files, now, before, after, p, d, o);
    }
  }

  /** Upsert and delete: take the old row's share out of its directories, add the new. */
  method MoveFile(files: map<Path, Fact>, now: map<Path, Fact>, dirs: Directories, p: Path) returns (after: Directories)
    requires RolledUp(files, dirs) && files - {p} == now - {p}
    ensures RolledUp(now, after)
  {
    after := dirs;
    ghost var middle := dirs;
    if p in files && files[p].owner != "" {
      var totals := TotalsForFact(files[p]);
      after := ApplyDirectoryDelta(after, p, files[p].owner, Times(totals, -1));
      middle := after;
    }
    if p in now && now[p].owner != "" {
      var totals := TotalsForFact(now[p]);
      after := ApplyDirectoryDelta(after, p, now[p].owner, Times(totals, 1));
    }
    SharesMoved(files, now, dirs, middle, after, p);
    MovedRollsUp(files, now, dirs, after, p);
    after := Positive(after);
  }

  lemma SharesMoved(files: map<Path, Fact>, now: map<Path, Fact>, before: Directories, middle: Directories,
                    after: Directories, p: Path)
    requires if p in files && files[p].owner != ""
        then Adjusted(before, middle, p, files[p].owner, Times(FactTotals(files[p]), -1))
             else middle == before
    requires if p in now && now[p].owner != ""
        then Adjusted(middle, after, p, now[p].owner, Times(FactTotals(now[p]), 1))
             else after == middle
    ensures Moved(files, now, before, after, p)
  {
    hide SourceTotals, Row;
    forall d, o | o != ""
      ensures Row(after, d, o) == Plus(Share(now, d, One(o), p), Minus(Row(before, d, o), Share(files, d, One(o), p)))
    {
    }
  }

  // ---- Several owners at once ----

  ghost function Named(owners: set<string>): iset<string> { iset o | o in owners && o != "" }

  lemma NoOwners(files: map<Path, Fact>, d: Path)
    ensures RollUp(files, d, Named({})) == ZERO
  {
  }

  lemma PlusSwap(a: Totals, b: Totals, c: Totals, d: Totals)
    ensures Plus(Plus(a, b), Plus(c, d)) == Plus(Plus(a, c), Plus(b, d))
  {
  }

  lemma ShareUnion(files: map<Path, Fact>, d: Path, owners: iset<string>, owner: string, p: Path)
    requires owner !in owners
    ensures Share(files, d, owners + One(owner), p) == Plus(Share(files, d, owners, p), Share(files, d, One(owner), p))
  {
  }

  lemma {:induction false} RollUpUnion(files: map<Path, Fact>, d: Path, owners: iset<string>, owner: string)
    requires owner !in owners
    ensures RollUp(files, d, owners + One(owner)) == Plus(RollUp(files, d, owners), RollUp(files, d, One(owner)))
    decreases |files|
  {
    if files != map[] {
      var p :| p in files;
      RollUpUnion(files - {p}, d, owners, owner);
      RollUpRemove(files, d, owners + One(owner), p);
      RollUpRemove(files, d, owners, p);
      RollUpRemove(files, d, One(owner), p);
      hide RollUp, FactTotals;
      PlusSwap(Share(files, d, owners, p), RollUp(files - {p}, d, owners), Share(files, d, One(owner), p),
          RollUp(files - {p}, d, One(owner)));
      ShareUnion(files, d, owners, owner, p);
      hide Plus, Share;
    }
  }

  lemma OwnerMore(files: map<Path, Fact>, dirs: Directories, d: Path, done: set<string>, owner: string)
    requires RolledUp(files, dirs) && owner !in done
    ensures RollUp(files, d, Named(done + {owner})) == Plus(RollUp(files, d, Named(done)), Row(dirs, d, owner))
  {
    if owner == "" {
      assert Named(done + {owner}) == Named(done);
      assert (d, owner) !in dirs;
    } else {
      assert Named(done + {owner}) == Named(done) + One(owner);
      RollUpUnion(files, d, Named(done), owner);
    }
  }

  // ---- The index ----

  // ---- The sums field by field ----

  /** The files of the owners at any depth beneath d; "/" is beneath itself. */
  ghost function Own(files: map<Path, Fact>, d: Path, owners: iset<string>): set<Path> {
    set p | p in files && files[p].owner in owners && (d < p || (d == [] && p == []))
  }

  ghost function Over(files: map<Path, Fact>, of: Fact -> int): Path -> int {
    p => if p in files then of(files[p]) else 0
  }

  function SizeOf(fact: Fact): int { fact.size }

  function LinesIn(s: Scalars): int { s.lines }

  function CharactersIn(s: Scalars): int { s.characters }

  function TokensIn(s: Scalars): int { s.tokens }

  ghost function AllSources(of: Scalars -> int): Fact -> int {
    (fact: Fact) => Sum(fact.sources.Keys, At(fact.sources, of))
  }

  ghost function At(sources: map<string, Scalars>, of: Scalars -> int): string -> int {
    s => if s in sources then of(sources[s]) else 0
  }

  /** A count of files, the sum of their sizes, and each scalar summed over their sources. */
  ghost predicate TotalsAre(files: map<Path, Fact>, d: Path, owners: iset<string>, t: Totals) {
    var own := Own(files, d, owners);
    && t.files == |own|
    && t.bytes == Sum(own, Over(files, SizeOf))
    && t.lines == Sum(own, Over(files, AllSources(LinesIn)))
    && t.characters == Sum(own, Over(files, AllSources(CharactersIn)))
    && t.tokens == Sum(own, Over(files, AllSources(TokensIn)))
  }

  // One field of the totals.
  ghost predicate IsField(field: Totals -> int) {
    field(ZERO) == 0 && forall a, b :: field(Plus(a, b)) == field(a) + field(b)
  }

  lemma {:induction false} SourceField(sources: map<string, Scalars>, field: Totals -> int, of: Scalars -> int)
    requires IsField(field) && forall s :: field(ScalarTotals(s)) == of(s)
    ensures field(SourceTotals(sources)) == Sum(sources.Keys, At(sources, of))
    decreases |sources|
  {
    if sources != map[] {
      var s :| s in sources;
      SourceRemove(sources, s);
      SourceField(sources - {s}, field, of);
      AtRest(sources, of, s);
      hide SourceTotals, Sum, Plus, ScalarTotals, At;
    }
  }

  lemma AtRest(sources: map<string, Scalars>, of: Scalars -> int, s: string)
    requires s in sources
    ensures Sum(sources.Keys, At(sources, of)) == of(sources[s]) + Sum((sources - {s}).Keys, At(sources - {s}, of))
  {
    SumRemove(sources.Keys, At(sources, of), s);
    assert (sources - {s}).Keys == sources.Keys - {s};
    SumSame(sources.Keys - {s}, At(sources, of), At(sources - {s}, of));
  }

  lemma OverRest(files: map<Path, Fact>, d: Path, owners: iset<string>, of: Fact -> int, p: Path)
    requires p in files
    ensures Sum(Own(files, d, owners), Over(files, of)) ==
            (if p in Own(files, d, owners) then of(files[p]) else 0) +
            Sum(Own(files - {p}, d, owners), Over(files - {p}, of))
  {
    var own, rest := Own(files, d, owners), Own(files - {p}, d, owners);
    assert rest == own - {p};
    SumSame(rest, Over(files, of), Over(files - {p}, of));
    if p in own {
      SumRemove(own, Over(files, of), p);
    } else {
      assert rest == own;
    }
  }

  lemma {:induction false} RollUpField(files: map<Path, Fact>, d: Path, owners: iset<string>, field: Totals -> int,
                                       of: Fact -> int)
    requires IsField(field) && forall fact :: field(FactTotals(fact)) == of(fact)
    ensures field(RollUp(files, d, owners)) == Sum(Own(files, d, owners), Over(files, of))
    decreases |files|
  {
    if files == map[] {
      assert Own(files, d, owners) == {};
    } else {
      var p :| p in files;
      RollUpField(files - {p}, d, owners, field, of);
      RollUpFieldStep(files, d, owners, field, of, p);
    }
  }

  lemma RollUpFieldStep(files: map<Path, Fact>, d: Path, owners: iset<string>, field: Totals -> int, of: Fact -> int,
                        p: Path)
    requires p in files && IsField(field) && field(FactTotals(files[p])) == of(files[p])
    requires field(RollUp(files - {p}, d, owners)) == Sum(Own(files - {p}, d, owners), Over(files - {p}, of))
    ensures field(RollUp(files, d, owners)) == Sum(Own(files, d, owners), Over(files, of))
  {
    var share, rest := Share(files, d, owners, p), RollUp(files - {p}, d, owners);
    assert field(Plus(share, rest)) == field(share) + field(rest) && field(ZERO) == 0;
    hide *;
    RollUpRemove(files, d, owners, p);
    OverRest(files, d, owners, of, p);
    ShareField(files, d, owners, field, of, p);
  }

  lemma ShareField(files: map<Path, Fact>, d: Path, owners: iset<string>, field: Totals -> int, of: Fact -> int,
                   p: Path)
    requires p in files && field(ZERO) == 0 && field(FactTotals(files[p])) == of(files[p])
    ensures field(Share(files, d, owners, p)) == if p in Own(files, d, owners) then of(files[p]) else 0
  {
    assert Counted(d, owners, p, files[p]) <==> p in Own(files, d, owners);
    hide FactTotals;
  }

  function FilesPart(t: Totals): int { t.files }

  function BytesPart(t: Totals): int { t.bytes }

  function LinesPart(t: Totals): int { t.lines }

  function CharactersPart(t: Totals): int { t.characters }

  function TokensPart(t: Totals): int { t.tokens }

  function OneFile(fact: Fact): int { 1 }

  lemma {:induction false} SumOfOnes(own: set<Path>, f: Path -> int)
    requires forall p :: p in own ==> f(p) == 1
    ensures Sum(own, f) == |own|
  {
    if own != {} {
      var p :| p in own;
      SumRemove(own, f, p);
      SumOfOnes(own - {p}, f);
    }
  }

  lemma ScalarField(field: Totals -> int, of: Scalars -> int)
    requires IsField(field) && forall s :: field(ScalarTotals(s)) == of(s)
    requires forall n, size :: field(Totals(n, size, 0, 0, 0)) == 0
    ensures forall fact :: field(FactTotals(fact)) == AllSources(of)(fact)
  {
    forall fact: Fact
      ensures field(FactTotals(fact)) == AllSources(of)(fact)
    {
      SourceField(fact.sources, field, of);
      hide SourceTotals, Sum, Plus;
    }
  }

  /** The naive sums the directory rows are kept equal to, field by field. */
  lemma RollUpMeans(files: map<Path, Fact>, d: Path, owners: iset<string>)
    ensures TotalsAre(files, d, owners, RollUp(files, d, owners))
  {
    FilesAndBytes(files, d, owners);
    ScalarsMean(files, d, owners);
    hide RollUp, Sum, Own, Over, AllSources;
  }

  lemma FilesAndBytes(files: map<Path, Fact>, d: Path, owners: iset<string>)
    ensures var own, t := Own(files, d, owners), RollUp(files, d, owners);
            t.files == |own| && t.bytes == Sum(own, Over(files, SizeOf))
  {
    forall fact: Fact
      ensures FilesPart(FactTotals(fact)) == 1 && BytesPart(FactTotals(fact)) == fact.size
    {
      NoBytes(fact.sources);
      hide SourceTotals;
    }
    RollUpField(files, d, owners, FilesPart, OneFile);
    RollUpField(files, d, owners, BytesPart, SizeOf);
    SumOfOnes(Own(files, d, owners), Over(files, OneFile));
    hide RollUp, Sum, Own, FactTotals;
  }

  lemma {:induction false} NoBytes(sources: map<string, Scalars>)
    ensures SourceTotals(sources).bytes == 0
  {
    if sources != map[] {
      var s :| s in sources;
      SourceRemove(sources, s);
      NoBytes(sources - {s});
      hide SourceTotals;
    }
  }

  lemma ScalarsMean(files: map<Path, Fact>, d: Path, owners: iset<string>)
    ensures var own, t := Own(files, d, owners), RollUp(files, d, owners);
            && t.lines == Sum(own, Over(files, AllSources(LinesIn)))
            && t.characters == Sum(own, Over(files, AllSources(CharactersIn)))
            && t.tokens == Sum(own, Over(files, AllSources(TokensIn)))
  {
    ScalarField(LinesPart, LinesIn);
    ScalarField(CharactersPart, CharactersIn);
    ScalarField(TokensPart, TokensIn);
    RollUpField(files, d, owners, LinesPart, AllSources(LinesIn));
    RollUpField(files, d, owners, CharactersPart, AllSources(CharactersIn));
    RollUpField(files, d, owners, TokensPart, AllSources(TokensIn));
    hide RollUp, Sum, Own, FactTotals, AllSources, Over;
  }

  class Index {
    var files: map<Path, Fact>
    var directories: Directories
    var generation: int

    ghost predicate Valid()
      reads this
    {
      RolledUp(files, directories)
    }

    constructor ()
      ensures Valid() && files == map[] && generation == 0
    {
      files, directories, generation := map[], map[], 0;
      new;
      assert forall d: Path, o :: RollUp(map[], d, One(o)) == ZERO;
    }

    /** One transaction. A fact of another generation than the current one is refused. */
    method Upsert(p: Path, fact: Fact) returns (ok: bool)
      requires Valid()
      modifies this`files, this`directories
      ensures Valid()
      ensures ok <==> fact.generation == 0 || fact.generation == generation
      ensures files == if ok then old(files)[p := fact.(generation := generation)] else old(files)
      ensures !ok ==> directories == old(directories)
    {
      if fact.generation != 0 && fact.generation != generation {
        return false;
      }
      var now := files[p := fact.(generation := generation)];
      var dirs := MoveFile(files, now, directories, p);
      files, directories := now, dirs;
      return true;
    }

    /** Delete a file's row; with olderThan > 0 only if its generation is older. */
    method Delete(p: Path, olderThan: int)
      requires Valid()
      modifies this`files, this`directories
      ensures Valid()
      ensures files == if p in old(files) && (olderThan <= 0 || old(files)[p].generation < olderThan)
          then old(files) - {p} else old(files)
    {
      if p !in files || (olderThan > 0 && files[p].generation >= olderThan) {
        return;
      }
      var now := files - {p};
      var dirs := MoveFile(files, now, directories, p);
      files, directories := now, dirs;
    }

    /** Delete a file, or every file beneath a directory. */
    method DeletePrefix(prefix: Path)
      requires Valid()
      modifies this`files, this`directories
      ensures Valid()
      ensures files == map p | p in old(files) && !(prefix <= p) :: old(files)[p]
    {
      var todo := set p | p in files && prefix <= p;
      while todo != {}
        invariant Valid()
        invariant todo <= set p | p in old(files) && prefix <= p
        invariant files == map p | p in old(files) && (prefix <= p ==> p in todo) :: old(files)[p]
        decreases todo
      {
        var p :| p in todo;
        Delete(p, 0);
        todo := todo - {p};
      }
    }

    /** SELECT SUM(...) WHERE path = prefix AND owner IN owners. */
    method DirectoryTotals(prefix: Path, owners: set<string>) returns (t: Totals)
      requires Valid()
      ensures t == RollUp(files, prefix, Named(owners))
      ensures TotalsAre(files, prefix, (iset o | o in owners && o != ""), t)
    {
      RollUpMeans(files, prefix, Named(owners));
      hide TotalsAre;
      t := ZERO;
      var todo := owners;
      ghost var done: set<string> := {};
      NoOwners(files, prefix);
      while todo != {}
        invariant todo <= owners && done == owners - todo
        invariant t == RollUp(files, prefix, Named(done))
        decreases todo
      {
        var owner :| owner in todo;
        OwnerMore(files, directories, prefix, done, owner);
        if (prefix, owner) in directories {
          t := Plus(t, directories[(prefix, owner)]);
        }
        todo, done := todo - {owner}, done + {owner};
      }
      assert done == owners;
    }
  }
}
