/** The file finder's alignment: dashboard/src/fuzzy.ts, score. A greedy left-to-right
    choice that may skip ahead to a boundary must never strand the rest of the query. */
module Fuzzy {
  import opened Wrappers

  // ---- The two string searches of the language ----

  function AtLeastZero(i: int): int { if i < 0 then 0 else i }

  /** lastIndexOf clamps a negative start to the first character. */
  function LastIndexOf(s: string, c: char, from: int): (r: int)
    ensures -1 <= r < |s|
    ensures r >= 0 ==> s[r] == c && r <= AtLeastZero(from)
    ensures forall j :: r < j < |s| && 0 <= j <= AtLeastZero(from) ==> s[j] != c
    decreases from < 0, AtLeastZero(from)
  {
    if s == "" then -1
    else if from < 0 then LastIndexOf(s, c, 0)
    else if from < |s| && s[from] == c then from
    else if from == 0 then -1
    else LastIndexOf(s, c, from - 1)
  }

  function IndexOf(s: string, c: char, at: nat): (r: int)
    ensures -1 <= r < |s|
    ensures r >= 0 ==> at <= r && s[r] == c
    ensures forall j :: at <= j < |s| && (r == -1 || j < r) ==> s[j] != c
    decreases |s| - at
  {
    if at >= |s| then -1 else if s[at] == c then at else IndexOf(s, c, at + 1)
  }

  // ---- Alignments ----

  /** positions place the query's characters, from the k-th on, in order in s. */
  ghost predicate AlignedFrom(s: string, query: string, positions: seq<int>, k: nat) {
    && |positions| == |query|
    && (forall i :: k <= i < |query| ==> 0 <= positions[i] < |s| && s[positions[i]] == query[i])
    && (forall i :: k < i < |query| ==> positions[i - 1] < positions[i])
  }

  ghost predicate Aligned(s: string, query: string, positions: seq<int>) {
    AlignedFrom(s, query, positions, 0)
  }

  ghost predicate Subsequence(s: string, query: string) {
    exists positions :: Aligned(s, query, positions)
  }

  /** How many characters at the start of the query the clamp can place on s[0] together
      with the character after them. */
  function Repeats(query: string, c: char): nat {
    if |query| >= 2 && query[0] == c && query[1] == c then 1 + Repeats(query[1..], c) else 0
  }

  lemma {:induction false} RepeatsAre(query: string, c: char)
    ensures Repeats(query, c) <= |query|
    ensures query != "" ==> Repeats(query, c) < |query|
    ensures Repeats(query, c) > 0 ==> forall i :: 0 <= i <= Repeats(query, c) ==> query[i] == c
  {
    if Repeats(query, c) > 0 {
      RepeatsAre(query[1..], c);
      forall i | 0 <= i <= Repeats(query, c)
        ensures query[i] == c
      {
        if i > 1 { assert query[1..][i - 1] == c; }
      }
    }
  }

  /** A longer run than that there is not. */
  lemma {:induction false} RunIsRepeated(query: string, c: char, k: nat)
    requires k + 1 < |query| && forall i :: 0 <= i <= k + 1 ==> query[i] == c
    ensures k < Repeats(query, c)
  {
    assert query[0] == c && query[1] == c;
    if k > 0 {
      assert forall i :: 0 <= i <= k ==> query[1..][i] == query[i + 1];
      RunIsRepeated(query[1..], c, k - 1);
    }
  }

  /** The query the search really looks for: a repeated s[0] at its start counts once. */
  function Collapsed(query: string, c: char): string {
    RepeatsAre(query, c);
    query[Repeats(query, c)..]
  }

  ghost predicate Accepted(s: string, query: string) {
    query == "" || (s != "" && Subsequence(s, Collapsed(query, s[0])))
  }

  // latest as the first loop fills it, from the k-th character on.
  ghost predicate LatestFrom(s: string, query: string, latest: seq<int>, k: nat) {
    && |latest| == |query|
    && (forall i :: k <= i < |query| ==> 0 <= latest[i] < |s| && s[latest[i]] == query[i])
    && (forall i :: k < i < |query| ==> latest[i - 1] < latest[i] || (latest[i - 1] == latest[i] == 0))
    && (forall i :: k <= i < |query| ==> NoneBetween(s, query[i], latest[i], End(s, latest, i)))
  }

  function End(s: string, latest: seq<int>, i: int): int {
    if 0 <= i + 1 < |latest| then latest[i + 1] else |s|
  }

  ghost predicate NoneBetween(s: string, c: char, low: int, high: int) {
    forall j :: low < j < high && 0 <= j < |s| ==> s[j] != c
  }

  /** latest[i] is the rightmost place of query[i] that leaves room for the rest. */
  lemma {:induction false} LatestIsLatest(s: string, query: string, latest: seq<int>, positions: seq<int>, k: nat,
                                          i: nat)
    requires LatestFrom(s, query, latest, k) && AlignedFrom(s, query, positions, k) && k <= i < |query|
    ensures positions[i] <= latest[i]
    decreases |query| - i
  {
    var later := if i + 1 < |query| then positions[i + 1] else |s|;
    assert positions[i] < later by {
      if i + 1 < |query| { assert positions[i + 1 - 1] < positions[i + 1]; }
    }
    if i + 1 < |query| {
      LatestIsLatest(s, query, latest, positions, k, i + 1);
    }
    assert 0 <= positions[i] < End(s, latest, i) && s[positions[i]] == query[i];
    assert NoneBetween(s, query[i], latest[i], End(s, latest, i));
  }

  /** When the query is a subsequence, latest is itself an alignment. */
  lemma LatestAligned(s: string, query: string, latest: seq<int>, k: nat, positions: seq<int>)
    requires LatestFrom(s, query, latest, k) && AlignedFrom(s, query, positions, k)
    ensures AlignedFrom(s, query, latest, k)
  {
    forall i | k < i < |query|
      ensures latest[i - 1] < latest[i]
    {
      LatestIsLatest(s, query, latest, positions, k, i);
      assert 0 <= positions[i - 1] < positions[i];
    }
  }

  /** A clamp puts two characters on s[0]; then everything before them is there too. */
  lemma {:induction false} ClampedToFirst(s: string, query: string, latest: seq<int>, i: nat, k: nat)
    requires LatestFrom(s, query, latest, 0) && k <= i < |query| && latest[i] == 0
    ensures latest[k] == 0 && query[k] == s[0]
    decreases i - k
  {
    if k < i {
      assert latest[i - 1] < latest[i] || latest[i - 1] == 0;
      ClampedToFirst(s, query, latest, i - 1, k);
      hide LatestFrom;
    }
  }

  lemma SuffixAligned(s: string, query: string, positions: seq<int>, d: nat)
    requires d <= |query| == |positions|
    requires forall i :: d <= i < |query| ==> 0 <= positions[i] < |s| && s[positions[i]] == query[i]
    requires forall i :: d < i < |query| ==> positions[i - 1] < positions[i]
    ensures Aligned(s, query[d..], positions[d..])
  {
    var rest := positions[d..];
    forall i | 0 < i < |rest|
      ensures rest[i - 1] < rest[i]
    {
      assert rest[i - 1] == positions[i + d - 1] && rest[i] == positions[i + d];
    }
  }

  /** Past the repeated start, latest strictly increases. */
  lemma LatestAlignsCollapsed(s: string, query: string, latest: seq<int>)
    requires LatestFrom(s, query, latest, 0) && query != "" && s != ""
    ensures Repeats(query, s[0]) < |latest| && Aligned(s, Collapsed(query, s[0]), latest[Repeats(query, s[0])..])
  {
    RepeatsAre(query, s[0]);
    var d := Repeats(query, s[0]);
    var short, rest := Collapsed(query, s[0]), latest[d..];
    assert short == query[d..];
    forall i | d < i < |query|
      ensures latest[i - 1] < latest[i]
    {
      NoClampPast(s, query, latest, i);
    }
    assert forall i :: d <= i < |query| ==> 0 <= latest[i] < |s| && s[latest[i]] == query[i];
    hide LatestFrom, Collapsed, Repeats;
    SuffixAligned(s, query, latest, d);
  }

  lemma NoClampPast(s: string, query: string, latest: seq<int>, i: nat)
    requires LatestFrom(s, query, latest, 0) && s != "" && Repeats(query, s[0]) < i < |query|
    ensures latest[i - 1] < latest[i]
  {
    if latest[i - 1] == latest[i] == 0 {
      forall k | 0 <= k <= i
        ensures query[k] == s[0]
      {
        ClampedToFirst(s, query, latest, i, k);
      }
      RunIsRepeated(query, s[0], i - 1);
    }
  }

  /** Where the backward search fails, the query is not accepted. */
  lemma FailureIsRejection(s: string, query: string, latest: seq<int>, k: nat, end: int)
    requires k < |query| && LatestFrom(s, query, latest, k + 1)
    requires end == End(s, latest, k)
    requires LastIndexOf(s, query[k], end - 1) == -1
    ensures !Accepted(s, query)
  {
    if Accepted(s, query) {
      RepeatsAre(query, s[0]);
      var d := Repeats(query, s[0]);
      if k >= d {
        var positions :| Aligned(s, Collapsed(query, s[0]), positions);
        var padded := seq(d, i => 0) + positions;
        Padded(s, query, positions, d, k);
        NowhereToPlace(s, query, latest, padded, k);
      }
    }
  }

  lemma NowhereToPlace(s: string, query: string, latest: seq<int>, positions: seq<int>, k: nat)
    requires k < |query| && LatestFrom(s, query, latest, k + 1)
    requires AlignedFrom(s, query, positions, k)
    ensures LastIndexOf(s, query[k], End(s, latest, k) - 1) >= positions[k]
  {
    assert s[positions[k]] == query[k];
    if k + 1 < |query| {
      assert AlignedFrom(s, query, positions, k + 1);
      LatestIsLatest(s, query, latest, positions, k + 1, k + 1);
      assert positions[k + 1 - 1] < positions[k + 1];
    }
  }

  lemma Padded(s: string, query: string, positions: seq<int>, d: nat, k: nat)
    requires d <= k && d <= |query| && Aligned(s, query[d..], positions)
    ensures AlignedFrom(s, query, seq(d, i => 0) + positions, k)
  {
  }

  lemma LatestMore(s: string, query: string, latest: seq<int>, k: nat, index: int)
    requires k < |query| && LatestFrom(s, query, latest, k + 1)
    requires index == LastIndexOf(s, query[k], End(s, latest, k) - 1) >= 0
    ensures LatestFrom(s, query, latest[k := index], k)
  {
    var now := latest[k := index];
    assert forall i :: k <= i < |query| ==> End(s, now, i) == End(s, latest, i);
    assert NoneBetween(s, query[k], index, End(s, latest, k));
    hide End, LastIndexOf, NoneBetween;
    forall i | k <= i < |query|
      ensures NoneBetween(s, query[i], now[i], End(s, now, i))
    {
      if i > k { assert NoneBetween(s, query[i], latest[i], End(s, latest, i)); }
    }
  }

  /** The first loop. */
  method LatestPositions(lower: string, query: string) returns (latest: seq<int>, found: bool)
    requires query != ""
    ensures found <==> Accepted(lower, query)
    ensures found ==> LatestFrom(lower, query, latest, 0)
  {
    latest := seq(|query|, i => 0);
    var end := |lower|;
    var i := |query| - 1;
    while i >= 0
      invariant -1 <= i < |query|
      invariant LatestFrom(lower, query, latest, i + 1) && end == End(lower, latest, i)
    {
      hide LatestFrom, Accepted;
      end := LastIndexOf(lower, query[i], end - 1);
      if end == -1 {
        FailureIsRejection(lower, query, latest, i, End(lower, latest, i));
        return latest, false;
      }
      LatestMore(lower, query, latest, i, end);
      latest := latest[i := end];
      i := i - 1;
    }
    LatestAlignsCollapsed(lower, query, latest);
    found := true;
  }

  // ---- The score ----

  const MATCH: int := 16
  const BOUNDARY_BONUS: int := 24
  const SEGMENT_BONUS: int := 32
  const CONSECUTIVE_BONUS: int := 12
  const FILENAME_BONUS: int := 40
  const GAP_PENALTY: int := 1

  function CharBefore(s: string, index: int): Option<char> {
    if index == 0 then Some('/') else if 0 < index <= |s| then Some(s[index - 1]) else None
  }

  predicate IsBoundary(previous: Option<char>) {
    previous == Some('-') || previous == Some('_') || previous == Some('.') || previous == Some(' ')
  }

  predicate StartsWord(s: string, index: int) {
    CharBefore(s, index) == Some('/') || IsBoundary(CharBefore(s, index))
  }

  function Last(positions: seq<int>): int {
    if positions == [] then -2 else positions[|positions| - 1]
  }

  function Gain(s: string, filenameStart: int, before: seq<int>, index: int): int {
    MATCH
    + (if CharBefore(s, index) == Some('/') then SEGMENT_BONUS
       else if IsBoundary(CharBefore(s, index)) then BOUNDARY_BONUS
       else 0)
    + (if index == Last(before) + 1 then CONSECUTIVE_BONUS
       else if before != [] then -(GAP_PENALTY * (index - Last(before) - 1))
       else 0)
    + (if index >= filenameStart then FILENAME_BONUS else 0)
  }

  // A place for the next character: where in which path, after which places.
  datatype Place = Place(s: string, name: int, before: seq<int>, index: int)

  function GainAt(p: Place): int { Gain(p.s, p.name, p.before, p.index) }

  predicate InName(p: Place) { p.name <= p.index }

  /** 2 at the start of the path or after a slash, 1 after a word separator, 0 in a word. */
  function StartOf(p: Place): int
    requires 0 <= p.index < |p.s|
  {
    if p.index == 0 || p.s[p.index - 1] == '/' then 2
    else if p.s[p.index - 1] in {'-', '_', '.', ' '} then 1
    else 0
  }

  /** How many characters are skipped since the last place. */
  function Gap(p: Place): int
    requires p.before != []
  {
    p.index - p.before[|p.before| - 1] - 1
  }

  predicate IsPlace(p: Place) {
    && 0 <= p.index < |p.s|
    && (p.before != [] ==> Gap(p) >= 0)
  }

  predicate SameGap(a: Place, b: Place) {
    if a.before == [] || b.before == [] then a.before == b.before else Gap(a) == Gap(b)
  }

  /** What makes one place better than another, all else equal: lying in the filename,
      starting a segment, or else a word, and skipping less, a run's next place most of all. */
  lemma GainOrder(a: Place, b: Place)
    requires IsPlace(a) && IsPlace(b)
    ensures InName(a) && !InName(b) && StartOf(a) == StartOf(b) && SameGap(a, b) ==> GainAt(a) > GainAt(b)
    ensures InName(a) == InName(b) && StartOf(a) > StartOf(b) && SameGap(a, b) ==> GainAt(a) > GainAt(b)
    ensures InName(a) == InName(b) && StartOf(a) == StartOf(b) && a.before != [] && b.before != [] ==>
              (Gap(a) < Gap(b) ==> GainAt(a) > GainAt(b))
    ensures InName(a) == InName(b) && StartOf(a) == StartOf(b) && SameGap(a, b) ==> GainAt(a) == GainAt(b)
  {
    GainParts(a);
    GainParts(b);
    hide GainAt;
  }

  lemma GainParts(p: Place)
    requires IsPlace(p)
    ensures GainAt(p) == MATCH
              + (if StartOf(p) == 2 then SEGMENT_BONUS else if StartOf(p) == 1 then BOUNDARY_BONUS else 0)
              + (if p.before == [] then 0 else if Gap(p) == 0 then CONSECUTIVE_BONUS else -(GAP_PENALTY * Gap(p)))
              + (if InName(p) then FILENAME_BONUS else 0)
  {
  }

  function Total(s: string, filenameStart: int, positions: seq<int>): int {
    if positions == [] then 0
    else
      var before := positions[..|positions| - 1];
      Total(s, filenameStart, before) + Gain(s, filenameStart, before, Last(positions))
  }

  /** The place chosen for one character, between from and latest: the first occurrence, or
      the first at the start of a word unless the first occurrence continues a run. */
  ghost predicate Chosen(s: string, c: char, from: nat, latest: int, before: seq<int>, index: int) {
    var first := IndexOf(s, c, from);
    if first != Last(before) + 1 && exists j :: WordStart(s, c, first, latest, j) then
      WordStart(s, c, first, latest, index) && forall j :: WordStart(s, c, first, latest, j) ==> index <= j
    else index == first
  }

  ghost predicate WordStart(s: string, c: char, from: int, to: int, j: int) {
    0 <= from <= j <= to && j < |s| && s[j] == c && StartsWord(s, j)
  }

  /** The probe loop for one character. */
  method Choose(s: string, c: char, at: nat, latest: int, positions: seq<int>) returns (index: int)
    ensures Chosen(s, c, at, latest, positions, index)
  {
    index := IndexOf(s, c, at);
    ghost var first := index;
    var probe := if index == Last(positions) + 1 then -1 else index;
    while probe != -1 && probe <= latest
      invariant index == first && -1 <= probe < |s|
      invariant probe != -1 ==> first != Last(positions) + 1 && first <= probe && s[probe] == c && 0 <= first
      invariant first != Last(positions) + 1 ==>
        forall j :: WordStart(s, c, first, latest, j) ==> probe != -1 && probe <= j
      decreases if probe == -1 then 0 else |s| - probe
    {
      if StartsWord(s, probe) {
        assert WordStart(s, c, first, latest, probe);
        return probe;
      }
      probe := IndexOf(s, c, probe + 1);
    }
  }

  // The positions chosen for the first characters of the query.
  ghost predicate Greedy(s: string, query: string, latest: seq<int>, positions: seq<int>) {
    && |positions| <= |query| == |latest|
    && forall i :: 0 <= i < |positions| ==> ChosenAt(s, query, latest, positions, i)
  }

  ghost predicate ChosenAt(s: string, query: string, latest: seq<int>, positions: seq<int>, i: nat)
    requires i < |positions| <= |query| == |latest|
  {
    var from := if i == 0 then 0 else positions[i - 1] + 1;
    from >= 0 && Chosen(s, query[i], from, latest[i], positions[..i], positions[i])
  }

  /** A choice within reach stays within reach. */
  lemma ChosenFits(s: string, c: char, from: nat, latest: int, before: seq<int>, index: int)
    requires Chosen(s, c, from, latest, before, index)
    requires from <= latest < |s| && s[latest] == c
    ensures from <= index <= latest && s[index] == c
  {
  }

  lemma GreedyFront(s: string, query: string, latest: seq<int>, positions: seq<int>)
    requires Greedy(s, query, latest, positions) && positions != []
    ensures Greedy(s, query, latest, positions[..|positions| - 1])
  {
    var front := positions[..|positions| - 1];
    forall k | 0 <= k < |front|
      ensures ChosenAt(s, query, latest, front, k)
    {
      assert front[..k] == positions[..k];
      assert ChosenAt(s, query, latest, positions, k);
    }
  }

  /** The greedy positions of an accepted subsequence stay left of latest, so the rest of
      the query always fits. */
  lemma {:induction false} GreedyNeverStrands(s: string, query: string, latest: seq<int>, positions: seq<int>)
    requires Greedy(s, query, latest, positions) && Aligned(s, query, latest)
    ensures forall i :: 0 <= i < |positions| ==> 0 <= positions[i] <= latest[i] && s[positions[i]] == query[i]
    ensures forall i :: 0 < i < |positions| ==> positions[i - 1] < positions[i]
    decreases |positions|
  {
    if positions != [] {
      var i := |positions| - 1;
      var front := positions[..i];
      GreedyFront(s, query, latest, positions);
      GreedyNeverStrands(s, query, latest, front);
      assert ChosenAt(s, query, latest, positions, i);
      var from := if i == 0 then 0 else positions[i - 1] + 1;
      if i > 0 { assert front[i - 1] <= latest[i - 1] < latest[i]; }
      ChosenFits(s, query[i], from, latest[i], positions[..i], positions[i]);
    }
  }

  // ---- score ----

  datatype Match = Match(score: real, positions: seq<int>)

  const LENGTH_PENALTY: real := 0.5

  function FilenameStart(s: string): int { LastIndexOf(s, '/', |s|) + 1 }

  /** The filename is what follows the last slash. */
  lemma FilenameIsLast(s: string)
    ensures var start := FilenameStart(s);
            0 <= start <= |s| && (start == 0 || s[start - 1] == '/') && forall i :: start <= i < |s| ==> s[i] != '/'
  {
  }

  function ScoreOf(s: string, positions: seq<int>): real {
    Total(s, FilenameStart(s), positions) as real - (|s| - FilenameStart(s)) as real * LENGTH_PENALTY
  }

  /** An alignment no worse at any character, and better at one, scores higher; at equal
      gains the shorter filename does. */
  lemma ScoreOrder(s: string, xs: seq<int>, t: string, ys: seq<int>)
    requires |xs| == |ys| && NoWorse(s, xs, t, ys)
    requires |s| - FilenameStart(s) <= |t| - FilenameStart(t)
    ensures ScoreOf(s, xs) >= ScoreOf(t, ys)
    ensures |s| - FilenameStart(s) < |t| - FilenameStart(t) || !NoWorse(t, ys, s, xs) ==>
              ScoreOf(s, xs) > ScoreOf(t, ys)
  {
    TotalOrder(s, FilenameStart(s), xs, t, FilenameStart(t), ys);
  }

  ghost predicate NoWorse(s: string, xs: seq<int>, t: string, ys: seq<int>)
    requires |xs| == |ys|
  {
    forall i :: 0 <= i < |xs| ==> GainOf(s, FilenameStart(s), xs, i) >= GainOf(t, FilenameStart(t), ys, i)
  }

  function GainOf(s: string, name: int, positions: seq<int>, i: int): int
    requires 0 <= i < |positions|
  {
    Gain(s, name, positions[..i], positions[i])
  }

  lemma {:induction false} TotalOrder(s: string, m: int, xs: seq<int>, t: string, n: int, ys: seq<int>)
    requires |xs| == |ys|
    requires forall i :: 0 <= i < |xs| ==> GainOf(s, m, xs, i) >= GainOf(t, n, ys, i)
    ensures Total(s, m, xs) >= Total(t, n, ys)
    ensures (exists i :: 0 <= i < |xs| && GainOf(s, m, xs, i) > GainOf(t, n, ys, i)) ==>
              Total(s, m, xs) > Total(t, n, ys)
  {
    if xs != [] {
      var k := |xs| - 1;
      assert forall i :: 0 <= i < k ==> xs[..k][..i] == xs[..i] && ys[..k][..i] == ys[..i];
      assert forall i :: 0 <= i < k ==>
               GainOf(s, m, xs[..k], i) == GainOf(s, m, xs, i) && GainOf(t, n, ys[..k], i) == GainOf(t, n, ys, i);
      TotalOrder(s, m, xs[..k], t, n, ys[..k]);
      assert GainOf(s, m, xs, k) >= GainOf(t, n, ys, k);
      hide Gain;
    }
  }

  /** score over the lowercased path. It is null exactly when the query is not accepted; for
      a subsequence the positions spell the query in order, none past its latest place. */
  method Score(lower: string, query: string) returns (m: Option<Match>, ghost latest: seq<int>)
    ensures query == "" ==> m == Some(Match(0.0, []))
    ensures m.None? <==> !Accepted(lower, query)
    ensures m.Some? && query != "" ==>
      && m.value.score == ScoreOf(lower, m.value.positions)
      && LatestFrom(lower, query, latest, 0) && |m.value.positions| == |query|
          && Greedy(lower, query, latest, m.value.positions)
    ensures m.Some? && Subsequence(lower, query) ==>
      && Aligned(lower, query, m.value.positions)
      && (query != "" ==> forall i :: 0 <= i < |query| ==> m.value.positions[i] <= latest[i])
  {
    latest := [];
    if query == "" {
      return Some(Match(0.0, [])), latest;
    }
    var places, found := LatestPositions(lower, query);
    latest := places;
    if !found {
      return None, latest;
    }
    hide LatestFrom, Accepted, Greedy, Aligned;
    var positions, total := Align(lower, query, places);
    m := Some(Match(total as real - (|lower| - FilenameStart(lower)) as real * LENGTH_PENALTY, positions));
    if Subsequence(lower, query) {
      SubsequenceAligned(lower, query, latest, positions);
    }
  }

  lemma SubsequenceAligned(s: string, query: string, latest: seq<int>, positions: seq<int>)
    requires Subsequence(s, query) && LatestFrom(s, query, latest, 0)
    requires |positions| == |query| && Greedy(s, query, latest, positions)
    ensures Aligned(s, query, positions) && forall i :: 0 <= i < |query| ==> positions[i] <= latest[i]
  {
    var some :| Aligned(s, query, some);
    LatestAligned(s, query, latest, 0, some);
    hide Greedy, LatestFrom;
    GreedyNeverStrands(s, query, latest, positions);
  }

  /** The second loop. */
  method Align(lower: string, query: string, latest: seq<int>) returns (positions: seq<int>, total: int)
    requires |latest| == |query|
    ensures |positions| == |query| && Greedy(lower, query, latest, positions)
    ensures total == Total(lower, FilenameStart(lower), positions)
  {
    var filenameStart := FilenameStart(lower);
    positions, total := [], 0;
    var at := 0;
    for i := 0 to |query|
      invariant |positions| == i && at == (if i == 0 then 0 else positions[i - 1] + 1) && at >= 0
      invariant total == Total(lower, filenameStart, positions)
      invariant Greedy(lower, query, latest, positions)
    {
      hide Chosen, Gain, Greedy;
      var index := Choose(lower, query[i], at, latest[i], positions);
      ChosenBounds(lower, query[i], at, latest[i], positions, index);
      GreedyMore(lower, query, latest, positions, index);
      total := total + Gain(lower, filenameStart, positions, index);
      assert (positions + [index])[..i] == positions;
      positions := positions + [index];
      at := index + 1;
    }
  }

  lemma ChosenBounds(s: string, c: char, from: nat, latest: int, before: seq<int>, index: int)
    requires Chosen(s, c, from, latest, before, index)
    ensures -1 <= index < |s|
  {
  }

  lemma GreedyMore(s: string, query: string, latest: seq<int>, positions: seq<int>, index: int)
    requires Greedy(s, query, latest, positions) && |positions| < |query|
    requires var i := |positions|; var from := if i == 0 then 0 else positions[i - 1] + 1;
             from >= 0 && Chosen(s, query[i], from, latest[i], positions, index)
    ensures Greedy(s, query, latest, positions + [index])
  {
    hide Chosen;
    var now := positions + [index];
    forall k | 0 <= k < |now|
      ensures ChosenAt(s, query, latest, now, k)
    {
      assert now[..k] == positions[..k];
      if k < |positions| {
        assert ChosenAt(s, query, latest, positions, k);
      } else {
        assert positions[..k] == positions;
      }
    }
  }

  // ---- When null means "not a subsequence" ----

  /** The test is right for every path starting with c if and only if the query does not
      start with c twice: searching "//" wrongly accepts "/". */
  lemma NullIffNotSubsequence(query: string, c: char)
    ensures !(|query| >= 2 && query[0] == c && query[1] == c)
       <==> forall s: string :: s != "" && s[0] == c ==> (Accepted(s, query) <==> Subsequence(s, query))
  {
    if |query| >= 2 && query[0] == c && query[1] == c {
      var short := Collapsed(query, c);
      CollapsedStarts(query, c);
      Identity(short);
      assert Accepted(short, query) && !Subsequence(short, query) by {
        if positions :| Aligned(short, query, positions) {
          TooLong(short, query, positions, |query| - 1);
        }
      }
    } else {
      forall s: string | s != "" && s[0] == c
        ensures Accepted(s, query) <==> Subsequence(s, query)
      {
        assert Collapsed(query, s[0]) == query;
        if query == "" { assert Aligned(s, query, []); }
      }
    }
  }

  lemma CollapsedStarts(query: string, c: char)
    requires |query| >= 2 && query[0] == c && query[1] == c
    ensures Collapsed(query, c) != "" && Collapsed(query, c)[0] == c && |Collapsed(query, c)| < |query|
  {
    RepeatsAre(query, c);
  }

  lemma Identity(s: string)
    ensures Subsequence(s, s)
  {
    assert Aligned(s, s, seq(|s|, i => i));
  }

  lemma {:induction false} TooLong(s: string, query: string, positions: seq<int>, i: nat)
    requires Aligned(s, query, positions) && i < |query|
    ensures positions[i] >= i
  {
    if i > 0 {
      TooLong(s, query, positions, i - 1);
      assert positions[i - 1] < positions[i];
    }
  }
}
