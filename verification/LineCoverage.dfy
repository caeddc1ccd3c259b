/** Line ranges read at one content hash: internal/analytics/quality_aggregations.go,
    lineCoverage. Two coverages are the same when they cover the same set of lines. */
module LineCoverage {
  import opened Sorting

  datatype Range = Range(start: int, end: int)

  datatype Coverage = Coverage(whole: bool, ranges: seq<Range>)

  function Start(r: Range): int { r.start }

  ghost predicate Covers(ranges: seq<Range>, line: int) {
    exists r :: r in ranges && r.start <= line <= r.end
  }

  /** The lines the ranges cover. */
  ghost function Lines(ranges: seq<Range>): iset<int> {
    iset line | Covers(ranges, line)
  }

  ghost function Span(r: Range): iset<int> { Lines([r]) }

  ghost predicate NonEmpty(ranges: seq<Range>) {
    forall r :: r in ranges ==> r.start <= r.end
  }

  /** Sorted, disjoint and non-adjacent, with no empty range. */
  ghost predicate Canonical(ranges: seq<Range>) {
    && NonEmpty(ranges)
    && forall i, j :: 0 <= i < j < |ranges| ==> ranges[i].end + 1 < ranges[j].start
  }

  lemma LinesConcat(a: seq<Range>, b: seq<Range>)
    ensures Lines(a + b) == Lines(a) + Lines(b)
  {
  }

  lemma LinesSingle(r: Range, line: int)
    ensures line in Span(r) <==> r.start <= line <= r.end
  {
  }

  lemma LinesPermute(a: seq<Range>, b: seq<Range>)
    requires multiset(a) == multiset(b)
    ensures Lines(a) == Lines(b)
    ensures NonEmpty(a) ==> NonEmpty(b)
  {
    SameMembers(a, b);
    forall line
      ensures Covers(a, line) <==> Covers(b, line)
    {
    }
  }

  /** One step of coalesceRanges: join r to the last range kept, or keep it apart. */
  function Push(kept: seq<Range>, r: Range): seq<Range> {
    if kept != [] && r.start <= kept[|kept| - 1].end + 1 then
      var last := kept[|kept| - 1];
      kept[..|kept| - 1] + [Range(last.start, if last.end < r.end then r.end else last.end)]
    else kept + [r]
  }

  function Coalesce(ranges: seq<Range>): seq<Range> {
    if ranges == [] then [] else Push(Coalesce(ranges[..|ranges| - 1]), ranges[|ranges| - 1])
  }

  lemma PushLines(kept: seq<Range>, r: Range)
    requires kept != [] ==> kept[|kept| - 1].start <= r.start
    ensures Lines(Push(kept, r)) == Lines(kept) + Span(r)
  {
  }

  lemma PushCanonical(kept: seq<Range>, r: Range)
    requires Canonical(kept) && r.start <= r.end
    requires kept != [] ==> kept[|kept| - 1].start <= r.start
    ensures Canonical(Push(kept, r))
  {
  }

  lemma PushSorted(kept: seq<Range>, r: Range)
    requires SortedBy(kept, Start)
    requires kept != [] ==> kept[|kept| - 1].start <= r.start
    ensures SortedBy(Push(kept, r), Start)
    ensures Push(kept, r)[|Push(kept, r)| - 1].start <= r.start
  {
  }

  lemma SortedFront(ranges: seq<Range>)
    requires SortedBy(ranges, Start) && ranges != []
    ensures SortedBy(ranges[..|ranges| - 1], Start)
    ensures |ranges| > 1 ==> ranges[|ranges| - 2].start <= ranges[|ranges| - 1].start
  {
  }

  lemma {:induction false} CoalesceSorted(ranges: seq<Range>)
    requires SortedBy(ranges, Start)
    ensures SortedBy(Coalesce(ranges), Start)
    ensures Coalesce(ranges) != [] <==> ranges != []
    ensures ranges != [] ==> Coalesce(ranges)[|Coalesce(ranges)| - 1].start <= ranges[|ranges| - 1].start
  {
    if ranges != [] {
      var front, r := ranges[..|ranges| - 1], ranges[|ranges| - 1];
      SortedFront(ranges);
      CoalesceSorted(front);
      PushSorted(Coalesce(front), r);
    }
  }

  /** Coalescing ranges in start order keeps their lines. */
  lemma {:induction false} CoalesceLines(ranges: seq<Range>)
    requires SortedBy(ranges, Start)
    ensures Lines(Coalesce(ranges)) == Lines(ranges)
  {
    if ranges != [] {
      var front, r := ranges[..|ranges| - 1], ranges[|ranges| - 1];
      SortedFront(ranges);
      CoalesceSorted(front);
      CoalesceLines(front);
      PushLines(Coalesce(front), r);
      assert ranges == front + [r];
      LinesConcat(front, [r]);
    }
  }

  /** When no range is empty, coalescing leaves the canonical form. */
  lemma {:induction false} CoalesceCanonical(ranges: seq<Range>)
    requires SortedBy(ranges, Start) && NonEmpty(ranges)
    ensures Canonical(Coalesce(ranges))
  {
    if ranges != [] {
      var front, r := ranges[..|ranges| - 1], ranges[|ranges| - 1];
      SortedFront(ranges);
      CoalesceSorted(front);
      CoalesceCanonical(front);
      assert r in ranges;
      PushCanonical(Coalesce(front), r);
    }
  }

  /** The two-pointer loop of merge, from positions i and j on. */
  function Interleaved(left: seq<Range>, right: seq<Range>, i: nat, j: nat): seq<Range>
    requires i <= |left| && j <= |right|
    decreases |left| - i + |right| - j
  {
    if i == |left| && j == |right| then []
    else if j == |right| || (i < |left| && left[i].start <= right[j].start) then
      [left[i]] + Interleaved(left, right, i + 1, j)
    else [right[j]] + Interleaved(left, right, i, j + 1)
  }

  lemma FrontMembers(a: seq<Range>, b: seq<Range>)
    requires a != []
    ensures multiset(a + b) == multiset([a[0]]) + multiset(a[1..] + b) == multiset([a[0]]) + multiset(b + a[1..])
  {
    assert a == [a[0]] + a[1..];
  }

  lemma {:induction false} InterleavedMembers(left: seq<Range>, right: seq<Range>, i: nat, j: nat)
    requires i <= |left| && j <= |right|
    ensures multiset(Interleaved(left, right, i, j)) == multiset(left[i..] + right[j..])
    decreases |left| - i + |right| - j
  {
    if i == |left| && j == |right| {
    } else if j == |right| || (i < |left| && left[i].start <= right[j].start) {
      InterleavedMembers(left, right, i + 1, j);
      FrontMembers(left[i..], right[j..]);
    } else {
      InterleavedMembers(left, right, i, j + 1);
      FrontMembers(right[j..], left[i..]);
    }
  }

  lemma {:induction false} InterleavedSorted(left: seq<Range>, right: seq<Range>, i: nat, j: nat)
    requires SortedBy(left, Start) && SortedBy(right, Start)
    requires i <= |left| && j <= |right|
    ensures SortedBy(Interleaved(left, right, i, j), Start)
    decreases |left| - i + |right| - j
  {
    if i == |left| && j == |right| {
    } else if j == |right| || (i < |left| && left[i].start <= right[j].start) {
      InterleavedSorted(left, right, i + 1, j);
      InterleavedAfter(left, right, i + 1, j, left[i]);
      Prepend(left[i], Interleaved(left, right, i + 1, j), Start);
    } else {
      InterleavedSorted(left, right, i, j + 1);
      InterleavedAfter(left, right, i, j + 1, right[j]);
      Prepend(right[j], Interleaved(left, right, i, j + 1), Start);
    }
  }

  lemma InterleavedAfter(left: seq<Range>, right: seq<Range>, i: nat, j: nat, first: Range)
    requires SortedBy(left, Start) && SortedBy(right, Start)
    requires i <= |left| && j <= |right|
    requires forall k :: i <= k < |left| ==> first.start <= Start(left[k])
    requires forall k :: j <= k < |right| ==> first.start <= Start(right[k])
    ensures forall r :: r in Interleaved(left, right, i, j) ==> first.start <= Start(r)
  {
    var all, rest := Interleaved(left, right, i, j), left[i..] + right[j..];
    InterleavedMembers(left, right, i, j);
    SameMembers(all, rest);
    forall r | r in all
      ensures first.start <= Start(r)
    {
      assert r in rest;
      var k :| 0 <= k < |rest| && rest[k] == r;
      if k < |left| - i { assert r == left[i + k]; } else { assert r == right[j + k - (|left| - i)]; }
    }
  }

  lemma InterleavedLines(left: seq<Range>, right: seq<Range>)
    ensures Lines(Interleaved(left, right, 0, 0)) == Lines(left) + Lines(right)
    ensures NonEmpty(left) && NonEmpty(right) ==> NonEmpty(Interleaved(left, right, 0, 0))
  {
    InterleavedMembers(left, right, 0, 0);
    assert left[0..] == left && right[0..] == right;
    LinesPermute(left + right, Interleaved(left, right, 0, 0));
    LinesConcat(left, right);
  }

  lemma CoalesceNext(ranges: seq<Range>, i: nat)
    requires i < |ranges|
    ensures Coalesce(ranges[..i + 1]) == Push(Coalesce(ranges[..i]), ranges[i])
  {
    assert ranges[..i + 1][..i] == ranges[..i];
  }

  /** coalesceRanges when dst aliases ranges: the slice is compacted over itself, and
      the write position never passes the read position. */
  method CoalesceRanges(a: array<Range>) returns (kept: nat)
    modifies a
    ensures kept <= a.Length
    ensures a[..kept] == Coalesce(old(a[..]))
  {
    kept := 0;
    ghost var was := a[..];
    for i := 0 to a.Length
      invariant 0 <= kept <= i
      invariant forall j :: i <= j < a.Length ==> a[j] == was[j]
      invariant a[..kept] == Coalesce(was[..i])
    {
      hide Coalesce;
      var r := a[i];
      CoalesceNext(was, i);
      ghost var before := a[..kept];
      if kept > 0 && r.start <= a[kept - 1].end + 1 {
        assert before[kept - 1] == a[kept - 1];
        a[kept - 1] := Range(a[kept - 1].start, if a[kept - 1].end < r.end then r.end else a[kept - 1].end);
        assert a[..kept - 1] == before[..kept - 1];
      } else {
        assert kept > 0 ==> before[kept - 1] == a[kept - 1];
        a[kept] := r;
        assert a[..kept] == before;
        kept := kept + 1;
      }
      assert a[..kept] == Push(before, r);
    }
    assert was[..a.Length] == was;
  }

  /** Coalesce a sorted slice over itself. */
  method CoalesceSlice(sorted: seq<Range>) returns (r: seq<Range>)
    requires SortedBy(sorted, Start)
    ensures Lines(r) == Lines(sorted)
    ensures SortedBy(r, Start)
    ensures NonEmpty(sorted) ==> Canonical(r)
  {
    hide Lines, SortedBy, Canonical, NonEmpty, Coalesce;
    var a := new Range[|sorted|](i requires 0 <= i < |sorted| => sorted[i]);
    assert a[..] == sorted;
    var kept := CoalesceRanges(a);
    r := a[..kept];
    CoalesceLines(sorted);
    CoalesceSorted(sorted);
    if NonEmpty(sorted) { CoalesceCanonical(sorted); }
  }

  /** lineCoverage.normalize: sort by start, then coalesce over the same slice. */
  method Normalize(ranges: seq<Range>) returns (r: seq<Range>)
    ensures Lines(r) == Lines(ranges)
    ensures SortedBy(r, Start)
    ensures NonEmpty(ranges) ==> Canonical(r)
  {
    var sorted := SortBy(ranges, Start);
    LinesPermute(ranges, sorted);
    r := CoalesceSlice(sorted);
  }

  lemma InterleaveNext(left: seq<Range>, right: seq<Range>, i: nat, j: nat, sorted: seq<Range>)
    requires i <= |left| && j <= |right| && (i < |left| || j < |right|)
    ensures sorted + Interleaved(left, right, i, j) ==
            if j == |right| || (i < |left| && left[i].start <= right[j].start)
            then sorted + [left[i]] + Interleaved(left, right, i + 1, j)
            else sorted + [right[j]] + Interleaved(left, right, i, j + 1)
  {
  }

  method Interleave(left: seq<Range>, right: seq<Range>) returns (sorted: seq<Range>)
    ensures sorted == Interleaved(left, right, 0, 0)
  {
    sorted := [];
    var i, j := 0, 0;
    while i < |left| || j < |right|
      invariant 0 <= i <= |left| && 0 <= j <= |right|
      invariant Interleaved(left, right, 0, 0) == sorted + Interleaved(left, right, i, j)
      decreases |left| - i + |right| - j
    {
      InterleaveNext(left, right, i, j, sorted);
      hide Interleaved;
      if j == |right| || (i < |left| && left[i].start <= right[j].start) {
        sorted := sorted + [left[i]];
        i := i + 1;
      } else {
        sorted := sorted + [right[j]];
        j := j + 1;
      }
    }
  }

  /** lineCoverage.merge: normalise both sides, interleave them by start, coalesce. */
  method Merge(c: Coverage, later: Coverage) returns (r: Coverage)
    ensures r.whole == (c.whole || later.whole)
    ensures Lines(r.ranges) == Lines(c.ranges) + Lines(later.ranges)
    ensures NonEmpty(c.ranges) && NonEmpty(later.ranges) ==> Canonical(r.ranges)
  {
    var left := Normalize(c.ranges);
    var right := Normalize(later.ranges);
    var sorted := Interleave(left, right);
    InterleavedSorted(left, right, 0, 0);
    InterleavedLines(left, right);
    hide Lines, SortedBy, Interleaved;
    var ranges := CoalesceSlice(sorted);
    r := Coverage(c.whole || later.whole, ranges);
  }

  /** The first range of a canonical form is read off its lines. */
  lemma FirstRange(a: seq<Range>)
    requires Canonical(a) && a != []
    ensures forall line :: line in Lines(a) ==> a[0].start <= line
    ensures a[0].end + 1 !in Lines(a)
    ensures forall line :: a[0].start <= line <= a[0].end ==> line in Lines(a)
    ensures Lines(a[1..]) == iset line | line in Lines(a) && line > a[0].end
  {
  }

  lemma SameFirst(a: seq<Range>, b: seq<Range>)
    requires Canonical(a) && Canonical(b) && a != [] && b != []
    requires Lines(a) == Lines(b)
    ensures a[0] == b[0]
  {
    FirstRange(a);
    FirstRange(b);
    assert a[0] in a && b[0] in b;
    assert a[0].start in Lines(b) && b[0].start in Lines(a);
    assert a[0].end + 1 !in Lines(b) && b[0].end + 1 !in Lines(a);
  }

  lemma NoLines(a: seq<Range>)
    requires NonEmpty(a) && a != []
    ensures Lines(a) != iset{}
  {
    assert a[0] in a;
    assert a[0].start in Lines(a);
  }

  lemma CanonicalTail(a: seq<Range>)
    requires Canonical(a) && a != []
    ensures Canonical(a[1..])
  {
  }

  /** Equal line sets have equal canonical ranges, so any two ways of collecting the
      same reads store the same ranges. */
  lemma {:induction false} CanonicalUnique(a: seq<Range>, b: seq<Range>)
    requires Canonical(a) && Canonical(b)
    requires Lines(a) == Lines(b)
    ensures a == b
    decreases |a|
  {
    assert Lines([]) == iset{};
    if a == [] || b == [] {
      if a != [] { NoLines(a); }
      if b != [] { NoLines(b); }
    } else {
      SameFirst(a, b);
      FirstRange(a);
      FirstRange(b);
      CanonicalTail(a);
      CanonicalTail(b);
      CanonicalUnique(a[1..], b[1..]);
      assert a == [a[0]] + a[1..];
      assert b == [b[0]] + b[1..];
    }
  }
}
