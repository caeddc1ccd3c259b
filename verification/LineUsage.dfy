/** Line-level usage: internal/analytics/quality_aggregations.go, lineReadsPartial,
    usedLines and coldLineUnits. Reads of one file are counted per hash and range, then
    spread over its lines; rows and cold units are maximal runs of lines. */
module LineUsage {
  import opened Wrappers
  import opened Sums
  import opened LineCoverage
  import opened Keyed
  import FileUsage
  import FileUsageSpec

  // ---- Reads per hash and range ----

  // A doc.read or doc.hit. unit is the line range it names, if any.
  datatype Event = Event(path: string, hash: string, unit: Option<Range>, time: int)

  datatype Key = Key(hash: string, start: int, end: int, ranged: bool)

  datatype Tally = Tally(count: int, last: int)

  type Tallies = map<Key, Tally>

  predicate IsRanged(e: Event) {
    e.unit.Some? && e.unit.value.start > 0 && e.unit.value.end >= e.unit.value.start
  }

  function KeyOf(e: Event): Key {
    if IsRanged(e) then Key(e.hash, e.unit.value.start, e.unit.value.end, true) else Key(e.hash, 0, 0, false)
  }

  function Later(a: int, b: int): int { if b > a then b else a }

  function PlusTally(a: Tally, b: Tally): Tally {
    Tally(a.count + b.count, Later(a.last, b.last))
  }

  /** Only reads of the partial's own path count. */
  function ReadShape(path: string): Shape<Event, Key, Tally> {
    Shape((e: Event) => if e.path == path then Some(KeyOf(e)) else None, (e: Event) => Tally(1, e.time), PlusTally)
  }

  class LineReadsPartial {
    const path: string
    var ranges: Tallies

    constructor (path: string)
      ensures this.path == path && ranges == Build(ReadShape(path), [])
    {
      this.path, ranges := path, map[];
    }

    method AddRead(key: Key, more: Tally)
      modifies this`ranges
      ensures ranges == Put(PlusTally, old(ranges), key, more)
    {
      if key !in ranges {
        ranges := ranges[key := more];
        return;
      }
      var current := ranges[key];
      current := current.(count := current.count + more.count);
      if more.last > current.last {
        current := current.(last := more.last);
      }
      ranges := ranges[key := current];
    }

    method Add(e: Event)
      modifies this`ranges
      ensures ranges == Keyed.Add(ReadShape(path), old(ranges), e)
    {
      if e.path != path { return; }
      AddRead(KeyOf(e), Tally(1, e.time));
    }

    method Merge(later: LineReadsPartial)
      requires later != this
      modifies this`ranges
      ensures ranges == Merged(PlusTally, old(ranges), later.ranges)
    {
      ranges := MergeInto(PlusTally, ranges, later.ranges);
    }
  }

  /** Splitting the window changes nothing. */
  lemma SplitReads(path: string, xs: seq<Event>, ys: seq<Event>)
    ensures Merged(PlusTally, Build(ReadShape(path), xs), Build(ReadShape(path), ys)) == Build(ReadShape(path), xs + ys)
  {
    assert Associative(PlusTally);
    MergeIsConcatenation(ReadShape(path), xs, ys);
  }

  // ---- Lines ----

  /** A read of the current hash covers the line: all lines when it names no range. */
  predicate Hits(key: Key, hash: string, line: int) {
    key.hash == hash && (!key.ranged || key.start <= line <= key.end)
  }

  predicate Reads1(path: string, hash: string, line: int, e: Event) {
    e.path == path && Hits(KeyOf(e), hash, line)
  }

  /** How often the window's events read the line at the hash. */
  function ReadCount(path: string, hash: string, line: int, events: seq<Event>): nat {
    if events == [] then 0
    else ReadCount(path, hash, line, events[..|events| - 1]) + if Reads1(path, hash, line, events[|events| - 1]) then 1
        else 0
  }

  /** When the window's events last read it. */
  function LastRead(path: string, hash: string, line: int, events: seq<Event>): Option<int> {
    if events == [] then None
    else
      var before, e := LastRead(path, hash, line, events[..|events| - 1]), events[|events| - 1];
      if Reads1(path, hash, line, e) then Some(if before.Some? then Later(before.value, e.time) else e.time) else before
  }

  ghost function Keys(tallies: Tallies, hash: string, line: int): set<Key> {
    set k | k in tallies && Hits(k, hash, line)
  }

  ghost function CountIn(tallies: Tallies): Key -> int { k => if k in tallies then tallies[k].count else 0 }

  ghost function LineCount(tallies: Tallies, hash: string, line: int): int {
    Sum(Keys(tallies, hash, line), CountIn(tallies))
  }

  ghost predicate IsLast(tallies: Tallies, keys: set<Key>, last: Option<int>) {
    && (last.None? <==> keys == {})
    && (last.Some? ==> exists k :: k in keys && k in tallies && tallies[k].last == last.value)
    && (last.Some? ==> forall k :: k in keys && k in tallies ==> tallies[k].last <= last.value)
  }

  lemma CountedLine(tallies: Tallies, key: Key, more: Tally, hash: string, line: int)
    ensures LineCount(Put(PlusTally, tallies, key, more), hash, line)
        == LineCount(tallies, hash, line) + if Hits(key, hash, line) then more.count else 0
  {
    var now := Put(PlusTally, tallies, key, more);
    var before, after := Keys(tallies, hash, line), Keys(now, hash, line);
    if !Hits(key, hash, line) {
      assert before == after;
      SumSame(before, CountIn(tallies), CountIn(now));
    } else if key in tallies {
      assert before == after;
      SumChange(before, CountIn(tallies), CountIn(now), key);
    } else {
      assert after == before + {key};
      SumInsert(before, CountIn(now), key);
      SumSame(before, CountIn(tallies), CountIn(now));
    }
  }

  lemma CountedLast(tallies: Tallies, key: Key, more: Tally, hash: string, line: int, last: Option<int>)
    requires IsLast(tallies, Keys(tallies, hash, line), last)
    ensures var now := Put(PlusTally, tallies, key, more);
            IsLast(now, Keys(now, hash, line),
                   if !Hits(key, hash, line) then last
                       else Some(if last.Some? then Later(last.value, more.last) else more.last))
  {
    var now := Put(PlusTally, tallies, key, more);
    var before, after := Keys(tallies, hash, line), Keys(now, hash, line);
    if !Hits(key, hash, line) {
      assert before == after;
      assert forall k :: k in before ==> now[k] == tallies[k];
    } else {
      assert after == before + {key};
      var next := if last.Some? then Later(last.value, more.last) else more.last;
      assert forall k :: k in before && k != key ==> now[k] == tallies[k];
      assert forall k :: k in after ==> now[k].last <= next;
      if next == more.last {
        assert now[key].last == next;
      } else {
        var k :| k in before && k in tallies && tallies[k].last == last.value;
        assert now[k].last == next;
      }
    }
  }

  /** The tallies of a partial give each line's number of reads and last read. */
  lemma {:induction false} LinesAreRead(path: string, events: seq<Event>, hash: string, line: int)
    ensures LineCount(Build(ReadShape(path), events), hash, line) == ReadCount(path, hash, line, events)
    ensures IsLast(Build(ReadShape(path), events), Keys(Build(ReadShape(path), events), hash, line),
        LastRead(path, hash, line, events))
  {
    if events == [] {
      assert Keys(map[], hash, line) == {};
    } else {
      var front, e := events[..|events| - 1], events[|events| - 1];
      LinesAreRead(path, front, hash, line);
      if e.path == path {
        CountedLine(Build(ReadShape(path), front), KeyOf(e), Tally(1, e.time), hash, line);
        CountedLast(Build(ReadShape(path), front), KeyOf(e), Tally(1, e.time), hash, line,
            LastRead(path, hash, line, front));
      }
    }
  }

  /** In the events' own terms: a read of the path at the hash, whose line range, if it is
      one, holds the line. A range that is no range counts as a read of the whole file. */
  predicate ReadsLine(path: string, hash: string, line: int, e: Event) {
    && e.path == path && e.hash == hash
    && (e.unit.Some? && 0 < e.unit.value.start <= e.unit.value.end ==> e.unit.value.start <= line <= e.unit.value.end)
  }

  ghost function Readers(path: string, hash: string, line: int, events: seq<Event>): set<int> {
    set i | 0 <= i < |events| && ReadsLine(path, hash, line, events[i])
  }

  /** count is how many events read the line, last the time of the latest of them. */
  ghost predicate ReadSo(path: string, hash: string, line: int, events: seq<Event>, count: int, last: Option<int>) {
    var readers := Readers(path, hash, line, events);
    && count == |readers|
    && (last.None? <==> readers == {})
    && (last.Some? ==>
          (exists i :: i in readers && events[i].time == last.value)
          && forall i :: i in readers ==> events[i].time <= last.value)
  }

  lemma {:induction false} CountAndLastMean(path: string, hash: string, line: int, events: seq<Event>)
    ensures ReadSo(path, hash, line, events, ReadCount(path, hash, line, events), LastRead(path, hash, line, events))
  {
    if events != [] {
      var front, e := events[..|events| - 1], events[|events| - 1];
      assert events == front + [e];
      CountAndLastMean(path, hash, line, front);
      SameReads(path, hash, line, e);
      var count, last := ReadCount(path, hash, line, front), LastRead(path, hash, line, front);
      ReadMore(path, hash, line, front, e, count, last);
      hide Reads1, ReadsLine, ReadSo;
    }
  }

  lemma SameReads(path: string, hash: string, line: int, e: Event)
    ensures Reads1(path, hash, line, e) <==> ReadsLine(path, hash, line, e)
  {
  }

  lemma ReadMore(path: string, hash: string, line: int, front: seq<Event>, e: Event, count: int, last: Option<int>)
    requires ReadSo(path, hash, line, front, count, last)
    ensures var newer := if last.Some? && last.value >= e.time then last else Some(e.time);
            if ReadsLine(path, hash, line, e) then ReadSo(path, hash, line, front + [e], count + 1, newer)
            else ReadSo(path, hash, line, front + [e], count, last)
  {
    var events, n := front + [e], |front|;
    var before, now := Readers(path, hash, line, front), Readers(path, hash, line, events);
    if ReadsLine(path, hash, line, e) {
      assert now == before + {n};
      assert n in now && events[n] == e;
    } else {
      assert now == before;
    }
    assert forall i :: i in before ==> 0 <= i < n && events[i] == front[i];
    hide Readers, ReadsLine;
  }

  datatype LineStat = LineStat(count: int, last: Option<int>)

  const UNREAD := LineStat(0, None)

  function Bump(s: LineStat, t: Tally): LineStat {
    LineStat(s.count + t.count, Some(if s.last.Some? then Later(s.last.value, t.last) else t.last))
  }

  /** The line's stat is what the tallies say about it. */
  ghost predicate StatOf(tallies: Tallies, hash: string, line: int, s: LineStat) {
    s.count == LineCount(tallies, hash, line) && IsLast(tallies, Keys(tallies, hash, line), s.last)
  }

  /** The inner loop: one tally over its lines. */
  method BumpLines(lines: array<LineStat>, first: int, last: int, t: Tally)
    modifies lines
    ensures forall i :: 0 <= i < lines.Length ==>
        lines[i] == if first <= i + 1 <= last then Bump(old(lines[i]), t) else old(lines[i])
  {
    var start, end := first, last;
    if start < 1 {
      start := 1;
    }
    if end > lines.Length {
      end := lines.Length;
    }
    var i := start;
    while i <= end
      invariant start <= i && (i <= end + 1 || i == start)
      invariant forall j :: 0 <= j < lines.Length ==>
        lines[j] == if first <= j + 1 <= last && j + 1 < i then Bump(old(lines[j]), t) else old(lines[j])
    {
      var line := lines[i - 1];
      var now := line.(count := line.count + t.count);
      if now.last.None? || t.last > now.last.value {
        now := now.(last := Some(t.last));
      }
      lines[i - 1] := now;
      i := i + 1;
    }
  }

  lemma NothingRead(hash: string, line: int)
    ensures StatOf(map[], hash, line, UNREAD)
  {
  }

  lemma StatMore(tallies: Tallies, key: Key, t: Tally, hash: string, line: int, s: LineStat)
    requires StatOf(tallies, hash, line, s) && key !in tallies
    ensures StatOf(tallies[key := t], hash, line, if Hits(key, hash, line) then Bump(s, t) else s)
  {
    CountedLine(tallies, key, t, hash, line);
    CountedLast(tallies, key, t, hash, line, s.last);
  }

  /** Spread the reads of the current hash over the file's lines. */
  method SpreadReads(tallies: Tallies, hash: string, lineCount: nat) returns (lines: seq<LineStat>)
    ensures |lines| == lineCount
    ensures forall i :: 0 <= i < lineCount ==> StatOf(tallies, hash, i + 1, lines[i])
  {
    var stats := new LineStat[lineCount](i => UNREAD);
    var todo := tallies.Keys;
    assert tallies - todo == map[];
    forall i | 0 <= i < lineCount
      ensures StatOf(tallies - todo, hash, i + 1, stats[i])
    {
      NothingRead(hash, i + 1);
    }
    while todo != {}
      invariant todo <= tallies.Keys
      invariant forall i :: 0 <= i < lineCount ==> StatOf(tallies - todo, hash, i + 1, stats[i])
      decreases todo
    {
      var key :| key in todo;
      ghost var before, seen := stats[..], tallies - todo;
      assert tallies - (todo - {key}) == seen[key := tallies[key]];
      if key.hash == hash {
        if key.ranged {
          BumpLines(stats, key.start, key.end, tallies[key]);
        } else {
          BumpLines(stats, 1, lineCount, tallies[key]);
        }
      }
      forall i | 0 <= i < lineCount
        ensures StatOf(tallies - (todo - {key}), hash, i + 1, stats[i])
      {
        StatMore(seen, key, tallies[key], hash, i + 1, before[i]);
      }
      todo := todo - {key};
    }
    assert tallies - {} == tallies;
    lines := stats[..];
  }

  // ---- Rows ----

  datatype Row = Row(start: int, end: int, stat: LineStat)

  /** The rows partition the lines, in order, into runs of equal lines that cannot be
      joined. */
  ghost predicate MaximalRuns(lines: seq<LineStat>, rows: seq<Row>) {
    && (rows == [] <==> lines == [])
    && (rows != [] ==> rows[0].start == 1 && rows[|rows| - 1].end == |lines|)
    && (forall k :: 0 <= k < |rows| ==> IsRun(lines, rows[k]))
    && (forall k :: 0 < k < |rows| ==> rows[k].start == rows[k - 1].end + 1 && rows[k].stat != rows[k - 1].stat)
  }

  ghost predicate IsRun(lines: seq<LineStat>, row: Row) {
    1 <= row.start <= row.end <= |lines| && forall i :: row.start - 1 <= i < row.end ==> lines[i] == row.stat
  }

  method GroupRows(lines: seq<LineStat>) returns (rows: seq<Row>)
    ensures MaximalRuns(lines, rows)
  {
    rows := [];
    var start := 0;
    while start < |lines|
      invariant 0 <= start <= |lines|
      invariant rows == [] <==> start == 0
      invariant rows != [] ==> rows[0].start == 1 && rows[|rows| - 1].end == start
      invariant forall k :: 0 <= k < |rows| ==> IsRun(lines, rows[k])
      invariant forall k :: 0 < k < |rows| ==> rows[k].start == rows[k - 1].end + 1 && rows[k].stat != rows[k - 1].stat
      invariant 0 < start < |lines| ==> lines[start] != rows[|rows| - 1].stat
    {
      var end := start;
      while end + 1 < |lines| && lines[start] == lines[end + 1]
        invariant start <= end < |lines|
        invariant forall i :: start <= i <= end ==> lines[i] == lines[start]
      {
        end := end + 1;
      }
      rows := rows + [Row(start + 1, end + 1, lines[start])];
      start := end + 1;
    }
  }

  /** Such a partition is unique, so the rows depend on nothing but the lines. */
  lemma {:induction false} RunsAreUnique(lines: seq<LineStat>, a: seq<Row>, b: seq<Row>, k: nat)
    requires MaximalRuns(lines, a) && MaximalRuns(lines, b) && k < |a| && k < |b|
    ensures a[k] == b[k]
    decreases k
  {
    if k > 0 { RunsAreUnique(lines, a, b, k - 1); }
    assert IsRun(lines, a[k]) && IsRun(lines, b[k]);
    assert a[k].start == b[k].start;
    assert lines[a[k].start - 1] == a[k].stat == b[k].stat;
    if a[k].end < b[k].end {
      EndsAt(lines, a, k);
    } else if b[k].end < a[k].end {
      EndsAt(lines, b, k);
    }
  }

  lemma EndsAt(lines: seq<LineStat>, rows: seq<Row>, k: nat)
    requires MaximalRuns(lines, rows) && k < |rows| && rows[k].end < |lines|
    ensures lines[rows[k].end] != rows[k].stat
  {
    var next := k + 1;
    assert next < |rows|;
    assert IsRun(lines, rows[next]) && rows[next].start == rows[next - 1].end + 1
        && rows[next].stat != rows[next - 1].stat;
    assert lines[rows[next].start - 1] == rows[next].stat;
  }

  const MAX_LINES := 100_000

  /** The used-lines table before sorting and limiting; None beyond the line limit. Each
      line carries its number of reads at the current hash and the time of the last one,
      over all events of the window, however its partials were merged. */
  method UsedLines(partial: LineReadsPartial, hash: string, lineCount: nat, ghost events: seq<Event>)
    returns (rows: Option<seq<Row>>, ghost lines: seq<LineStat>)
    requires partial.ranges == Build(ReadShape(partial.path), events)
    ensures rows.None? <==> lineCount > MAX_LINES
    ensures rows.Some? ==> |lines| == lineCount && MaximalRuns(lines, rows.value)
    ensures rows.Some? ==> forall i :: 0 <= i < lineCount ==>
      ReadSo(partial.path, hash, i + 1, events, lines[i].count, lines[i].last)
  {
    if lineCount > MAX_LINES { return None, []; }
    var spread := SpreadReads(partial.ranges, hash, lineCount);
    var grouped := GroupRows(spread);
    forall i | 0 <= i < lineCount
      ensures spread[i] == LineStat(ReadCount(partial.path, hash, i + 1, events),
          LastRead(partial.path, hash, i + 1, events))
    {
      LinesAreRead(partial.path, events, hash, i + 1);
      OnlyLast(partial.ranges, Keys(partial.ranges, hash, i + 1), spread[i].last,
          LastRead(partial.path, hash, i + 1, events));
    }
    forall i | 0 <= i < lineCount
      ensures ReadSo(partial.path, hash, i + 1, events, spread[i].count, spread[i].last)
    {
      CountAndLastMean(partial.path, hash, i + 1, events);
    }
    return Some(grouped), spread;
  }

  lemma OnlyLast(tallies: Tallies, keys: set<Key>, a: Option<int>, b: Option<int>)
    requires IsLast(tallies, keys, a) && IsLast(tallies, keys, b)
    ensures a == b
  {
  }

  // ---- Cold units ----

  /** A maximal run of uncovered lines. */
  ghost predicate ColdRun(covered: seq<bool>, r: Range) {
    && 1 <= r.start <= r.end <= |covered|
    && (forall i :: r.start - 1 <= i < r.end ==> !covered[i])
    && (r.start > 1 ==> covered[r.start - 2])
    && (r.end < |covered| ==> covered[r.end])
  }

  /** coldLineUnits: exactly the maximal uncovered runs, in order. */
  method ColdLineUnits(covered: seq<bool>) returns (units: seq<Range>)
    ensures forall r :: r in units <==> ColdRun(covered, r)
    ensures Canonical(units)
  {
    units := [];
    var start := 0;
    while start < |covered|
      invariant 0 <= start <= |covered|
      invariant forall r :: r in units <==> ColdRun(covered, r) && r.end <= start
      invariant Canonical(units)
      invariant units != [] ==> units[|units| - 1].end <= start
      invariant 0 < start < |covered| && !covered[start] ==> covered[start - 1]
      decreases |covered| - start
    {
      ghost var was := units;
      if covered[start] {
        assert forall r :: ColdRun(covered, r) ==> r.end != start + 1;
        start := start + 1;
        continue;
      }
      var end := start;
      while end + 1 < |covered| && !covered[end + 1]
        invariant start <= end < |covered|
        invariant forall i :: start <= i <= end ==> !covered[i]
      {
        end := end + 1;
      }
      var unit := Range(start + 1, end + 1);
      NextColdRun(covered, start, end);
      units := units + [unit];
      if |was| > 0 {
        assert was[|was| - 1] in was;
        assert covered[was[|was| - 1].end];
      }
      start := end + 1;
    }
  }

  /** The run found is the only one that ends after start and by its end. */
  lemma NextColdRun(covered: seq<bool>, start: nat, end: nat)
    requires start <= end < |covered| && forall i :: start <= i <= end ==> !covered[i]
    requires start > 0 ==> covered[start - 1]
    requires end + 1 < |covered| ==> covered[end + 1]
    ensures ColdRun(covered, Range(start + 1, end + 1))
    ensures forall r :: ColdRun(covered, r) && start < r.end <= end + 1 ==> r == Range(start + 1, end + 1)
  {
  }

  /** The file's usage says the line was read at the hash. */
  ghost predicate LineRead(usage: FileUsageSpec.Usage, hash: string, line: int) {
    hash in usage.whole || (hash, line) in usage.lines
  }

  /** A maximal run of lines never read at the hash. */
  ghost predicate ColdLines(usage: FileUsageSpec.Usage, hash: string, lineCount: nat, r: Range) {
    && 1 <= r.start <= r.end <= lineCount
    && (forall line :: r.start <= line <= r.end ==> !LineRead(usage, hash, line))
    && (r.start > 1 ==> LineRead(usage, hash, r.start - 1))
    && (r.end < lineCount ==> LineRead(usage, hash, r.end + 1))
  }

  method MarkRange(covered: array<bool>, r: Range)
    modifies covered
    ensures forall i :: 0 <= i < covered.Length ==> (covered[i] <==> old(covered[i]) || r.start <= i + 1 <= r.end)
  {
    var first := if r.start < 1 then 1 else r.start;
    var last := if r.end > covered.Length then covered.Length else r.end;
    var line := first;
    while line <= last
      invariant first <= line
      invariant forall i :: 0 <= i < covered.Length ==>
          (covered[i] <==> old(covered[i]) || (r.start <= i + 1 <= r.end && i + 1 < line))
    {
      covered[line - 1] := true;
      line := line + 1;
    }
  }

  method MarkCoverage(coverage: Coverage, lineCount: nat) returns (marks: seq<bool>)
    ensures |marks| == lineCount
    ensures forall i :: 0 <= i < lineCount ==> (marks[i] <==> coverage.whole || Covers(coverage.ranges, i + 1))
  {
    var covered := new bool[lineCount](i => false);
    var ranges := Normalize(coverage.ranges);
    for k := 0 to |ranges|
      invariant forall i :: 0 <= i < lineCount ==> (covered[i] <==> Covers(ranges[..k], i + 1))
    {
      ghost var before := covered[..];
      MarkRange(covered, ranges[k]);
      assert ranges[..k + 1] == ranges[..k] + [ranges[k]];
      forall i | 0 <= i < lineCount
        ensures covered[i] <==> Covers(ranges[..k + 1], i + 1)
      {
        LinesConcat(ranges[..k], [ranges[k]]);
        LinesSingle(ranges[k], i + 1);
        assert i + 1 in Lines(ranges[..k + 1]) <==> i + 1 in Lines(ranges[..k]) + Span(ranges[k]);
      }
    }
    assert ranges[..|ranges|] == ranges;
    forall line
      ensures Covers(ranges, line) <==> Covers(coverage.ranges, line)
    {
      assert line in Lines(ranges) <==> line in Lines(coverage.ranges);
    }
    if coverage.whole {
      for i := 0 to lineCount
        invariant forall j :: 0 <= j < i ==> covered[j]
      {
        covered[i] := true;
      }
    }
    marks := covered[..];
  }

  /** The cold units of a file with known current scalars: exactly the maximal runs of
      lines that its usage never read at the current hash. */
  method FileColdUnits(file: FileUsage.FileReads, hash: string, lineCount: nat) returns (units: seq<Range>)
    ensures forall r :: r in units <==> ColdLines(FileUsage.UsageIn(file), hash, lineCount, r)
    ensures Canonical(units)
  {
    var marks := MarkCoverage(FileUsage.CoverageFor(file.coverage, hash), lineCount);
    units := ColdLineUnits(marks);
    forall i | 0 <= i < lineCount
      ensures marks[i] <==> LineRead(FileUsage.UsageIn(file), hash, i + 1)
    {
      CoverageIsRead(file, hash, i + 1);
    }
    forall r
      ensures ColdRun(marks, r) <==> ColdLines(FileUsage.UsageIn(file), hash, lineCount, r)
    {
      SameRun(marks, FileUsage.UsageIn(file), hash, r);
    }
  }

  lemma CoverageIsRead(file: FileUsage.FileReads, hash: string, line: int)
    ensures var c := FileUsage.CoverageFor(file.coverage, hash);
            c.whole || Covers(c.ranges, line) <==> LineRead(FileUsage.UsageIn(file), hash, line)
  {
  }

  lemma SameRun(marks: seq<bool>, usage: FileUsageSpec.Usage, hash: string, r: Range)
    requires forall i :: 0 <= i < |marks| ==> (marks[i] <==> LineRead(usage, hash, i + 1))
    ensures ColdRun(marks, r) <==> ColdLines(usage, hash, |marks|, r)
  {
    hide LineRead;
    if ColdRun(marks, r) {
      forall line | r.start <= line <= r.end
        ensures !LineRead(usage, hash, line)
      {
        assert !marks[line - 1];
      }
    }
  }
}
