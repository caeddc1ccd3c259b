/** Usage summaries: internal/analytics/summary.go. A partial is scanned event by event;
    two partials of adjacent ranges merge exactly, or merge refuses. */
module UsageSummary {
  import opened Wrappers
  import opened Sums

  datatype Writer = Human | Agent | Unknown

  // The fields scanUsage reads, by event type. characters is numericField's result.
  datatype Event =
    | Write(doc: bool, authored: bool, key: string, day: int, writer: Writer)
    | Use(isRead: bool, characters: Option<real>, day: int, writer: Writer)
    | Command(day: int, writer: Writer)
    | Other

  datatype Row = Row(human: int, agent: int, unknown: int, uses: int, writes: int)

  datatype WriteEntry = WriteEntry(doc: bool, day: int, writer: Writer)

  type Activity = map<int, Row>

  datatype Usage = Usage(
    readCount: int,
    hitCount: int,
    commands: int,
    tokens: int,
    estimated: int,
    unestimated: int,
    activity: Activity,
    writes: map<string, WriteEntry>,
    overflow: bool)

  const MAX_INT64: int := 0x7FFF_FFFF_FFFF_FFFF
  const EMPTY_ROW := Row(0, 0, 0, 0, 0)
  const EMPTY := Usage(0, 0, 0, 0, 0, 0, map[], map[], false)

  function RowOn(activity: Activity, day: int): Row {
    if day in activity then activity[day] else EMPTY_ROW
  }

  function Increment(row: Row, writer: Writer): Row {
    Row(row.human + (if writer == Human then 1 else 0), row.agent + (if writer == Agent then 1 else 0),
        row.unknown + (if writer == Unknown then 1 else 0), row.uses, row.writes)
  }

  function Ceil(x: real): int { -((-x).Floor) }

  /** The token estimate of a read, when its characters are known and the int64 holds it. */
  function Estimate(characters: Option<real>, charsPerToken: nat): Option<nat>
    requires charsPerToken > 0
  {
    if characters.None? || characters.value < 0.0 then None
    else
      var estimate := Ceil(characters.value / charsPerToken as real);
      CeilNonNegative(characters.value, charsPerToken);
      if estimate < MAX_INT64 + 1 then Some(estimate) else None
  }

  lemma CeilNonNegative(c: real, charsPerToken: nat)
    requires c >= 0.0 && charsPerToken > 0
    ensures Ceil(c / charsPerToken as real) >= 0
  {
  }

  /** A later doc.write replaces any earlier event; a later doc.scalars only another one. */
  function AddWrite(writes: map<string, WriteEntry>, key: string, entry: WriteEntry): map<string, WriteEntry> {
    if key !in writes || entry.doc || !writes[key].doc then writes[key := entry] else writes
  }

  function UseStep(u: Usage, e: Event, charsPerToken: nat): Usage
    requires charsPerToken > 0 && e.Use?
  {
    var row := RowOn(u.activity, e.day);
    var counted := u.(
      readCount := u.readCount + (if e.isRead then 1 else 0),
      hitCount := u.hitCount + (if e.isRead then 0 else 1),
      activity := u.activity[e.day := Increment(row.(uses := row.uses + 1), e.writer)]);
    var tokens := Estimate(e.characters, charsPerToken);
    if tokens.Some? && tokens.value <= MAX_INT64 - u.tokens then
      counted.(estimated := u.estimated + 1, tokens := u.tokens + tokens.value)
    else
      counted.(unestimated := u.unestimated + 1, overflow := u.overflow || tokens.Some?)
  }

  function Step(u: Usage, e: Event, charsPerToken: nat): Usage
    requires charsPerToken > 0
  {
    match e
    case Write(doc, authored, key, day, writer) =>
      if authored then u.(writes := AddWrite(u.writes, key, WriteEntry(doc, day, writer))) else u
    case Use(_, _, _, _) => UseStep(u, e, charsPerToken)
    case Command(day, writer) =>
      u.(commands := u.commands + 1, activity := u.activity[day := Increment(RowOn(u.activity, day), writer)])
    case Other => u
  }

  function Scan(events: seq<Event>, charsPerToken: nat): Usage
    requires charsPerToken > 0
  {
    if events == [] then EMPTY
    else Step(Scan(events[..|events| - 1], charsPerToken), events[|events| - 1], charsPerToken)
  }

  /** The events that are not of another type. */
  function Relevant(events: seq<Event>): seq<Event> {
    if events == [] then []
    else
      var front, e := Relevant(events[..|events| - 1]), events[|events| - 1];
      if e.Other? then front else front + [e]
  }

  /** Events of other types leave no trace: the scan may as well not see them. */
  lemma {:induction false} OthersLeaveNoTrace(events: seq<Event>, charsPerToken: nat)
    requires charsPerToken > 0
    ensures Scan(Relevant(events), charsPerToken) == Scan(events, charsPerToken)
  {
    if events != [] {
      var front, e := events[..|events| - 1], events[|events| - 1];
      OthersLeaveNoTrace(front, charsPerToken);
      if !e.Other? {
        var all := Relevant(front) + [e];
        assert all[..|all| - 1] == Relevant(front);
      }
    }
  }

  // ---- Merge ----

  function AddRows(a: Row, b: Row): Row {
    Row(a.human + b.human, a.agent + b.agent, a.unknown + b.unknown, a.uses + b.uses, a.writes + b.writes)
  }

  function MergedActivity(a: Activity, b: Activity): Activity {
    map day | day in a.Keys + b.Keys :: AddRows(RowOn(a, day), RowOn(b, day))
  }

  function MergedWrites(a: map<string, WriteEntry>, b: map<string, WriteEntry>): map<string, WriteEntry> {
    map key | key in a.Keys + b.Keys ::
      if key in b && (key !in a || b[key].doc || !a[key].doc) then b[key] else a[key]
  }

  predicate Mergeable(a: Usage, b: Usage) {
    !a.overflow && !b.overflow && b.tokens <= MAX_INT64 - a.tokens
  }

  function Merged(a: Usage, b: Usage): Usage {
    Usage(a.readCount + b.readCount, a.hitCount + b.hitCount, a.commands + b.commands, a.tokens + b.tokens,
          a.estimated + b.estimated, a.unestimated + b.unestimated,
          MergedActivity(a.activity, b.activity), MergedWrites(a.writes, b.writes), a.overflow || b.overflow)
  }

  lemma AddRowsIncrement(a: Row, b: Row, writer: Writer, n: nat)
    ensures AddRows(a, Increment(b.(uses := b.uses + n), writer))
         == var total := AddRows(a, b); Increment(total.(uses := total.uses + n), writer)
  {
  }

  lemma MergedActivityUpdate(a: Activity, b: Activity, day: int, row: Row)
    ensures MergedActivity(a, b[day := row]) == MergedActivity(a, b)[day := AddRows(RowOn(a, day), row)]
  {
  }

  lemma MergedRow(a: Activity, b: Activity, day: int)
    ensures RowOn(MergedActivity(a, b), day) == AddRows(RowOn(a, day), RowOn(b, day))
  {
  }

  lemma MergedActivityStep(a: Activity, b: Activity, day: int, writer: Writer, n: nat)
    ensures MergedActivity(a, b[day := Increment(RowOn(b, day).(uses := RowOn(b, day).uses + n), writer)])
         == var total := RowOn(MergedActivity(a, b), day);
            MergedActivity(a, b)[day := Increment(total.(uses := total.uses + n), writer)]
  {
    AddRowsIncrement(RowOn(a, day), RowOn(b, day), writer, n);
    MergedRow(a, b, day);
    hide Increment, MergedActivity, AddRows, RowOn;
    MergedActivityUpdate(a, b, day, Increment(RowOn(b, day).(uses := RowOn(b, day).uses + n), writer));
  }

  lemma MergedWritesStep(a: map<string, WriteEntry>, b: map<string, WriteEntry>, key: string, entry: WriteEntry)
    ensures MergedWrites(a, AddWrite(b, key, entry)) == AddWrite(MergedWrites(a, b), key, entry)
  {
  }

  /** Scanning one more event after a merge, while the token total still fits. */
  lemma MergedStep(a: Usage, b: Usage, e: Event, charsPerToken: nat)
    requires charsPerToken > 0
    requires Mergeable(a, Step(b, e, charsPerToken))
    ensures Mergeable(a, b)
    ensures Step(Merged(a, b), e, charsPerToken) == Merged(a, Step(b, e, charsPerToken))
  {
    hide MergedActivity, MergedWrites, AddWrite, Estimate;
    match e
    case Write(doc, authored, key, day, writer) => MergedWritesStep(a.writes, b.writes, key,
        WriteEntry(doc, day, writer));
    case Use(_, _, day, writer) => MergedActivityStep(a.activity, b.activity, day, writer, 1);
    case Command(day, writer) => MergedActivityStep(a.activity, b.activity, day, writer, 0);
    case Other =>
  }

  lemma MergedEmpty(a: Usage)
    ensures Merged(a, EMPTY) == a
  {
  }

  lemma ScanNext(xs: seq<Event>, ys: seq<Event>, charsPerToken: nat)
    requires charsPerToken > 0 && ys != []
    ensures Scan(xs + ys, charsPerToken) == Step(Scan(xs + ys[..|ys| - 1], charsPerToken), ys[|ys| - 1], charsPerToken)
  {
    assert (xs + ys)[..|xs + ys| - 1] == xs + ys[..|ys| - 1];
  }

  /** When merge succeeds, the result is one scan of both ranges in order. */
  lemma {:induction false} MergeIsOneScan(xs: seq<Event>, ys: seq<Event>, charsPerToken: nat)
    requires charsPerToken > 0
    requires Mergeable(Scan(xs, charsPerToken), Scan(ys, charsPerToken))
    ensures Merged(Scan(xs, charsPerToken), Scan(ys, charsPerToken)) == Scan(xs + ys, charsPerToken)
  {
    if ys == [] {
      assert xs + ys == xs;
      MergedEmpty(Scan(xs, charsPerToken));
    } else {
      var front, e := ys[..|ys| - 1], ys[|ys| - 1];
      hide Merged, Step, Mergeable;
      MergedStep(Scan(xs, charsPerToken), Scan(front, charsPerToken), e, charsPerToken);
      MergeIsOneScan(xs, front, charsPerToken);
      ScanNext(xs, ys, charsPerToken);
    }
  }

  lemma {:induction false} TokensFit(events: seq<Event>, charsPerToken: nat)
    requires charsPerToken > 0
    ensures Scan(events, charsPerToken).tokens <= MAX_INT64
  {
    if events != [] {
      TokensFit(events[..|events| - 1], charsPerToken);
    }
  }

  lemma {:induction false} TokensGrow(events: seq<Event>, charsPerToken: nat)
    requires charsPerToken > 0
    ensures Scan(events, charsPerToken).tokens >= 0
  {
    if events != [] {
      TokensGrow(events[..|events| - 1], charsPerToken);
    }
  }

  /** A scan of both ranges without overflow carries both token totals. */
  lemma {:induction false} OneScanFits(xs: seq<Event>, ys: seq<Event>, charsPerToken: nat)
    requires charsPerToken > 0
    requires !Scan(xs + ys, charsPerToken).overflow
    ensures Mergeable(Scan(xs, charsPerToken), Scan(ys, charsPerToken))
    ensures Scan(xs + ys, charsPerToken).tokens == Scan(xs, charsPerToken).tokens + Scan(ys, charsPerToken).tokens
  {
    if ys == [] {
      assert xs + ys == xs;
      TokensFit(xs, charsPerToken);
    } else {
      ScanNext(xs, ys, charsPerToken);
      OneScanFits(xs, ys[..|ys| - 1], charsPerToken);
      TokensFit(xs + ys, charsPerToken);
      TokensGrow(xs, charsPerToken);
    }
  }

  /** merge refuses exactly when one scan of both ranges would leave an estimable read
      unestimated: no window is rescanned as a whole without need, and none is missed. */
  lemma MergeableIffOneScanFits(xs: seq<Event>, ys: seq<Event>, charsPerToken: nat)
    requires charsPerToken > 0
    ensures Mergeable(Scan(xs, charsPerToken), Scan(ys, charsPerToken)) <==> !Scan(xs + ys, charsPerToken).overflow
  {
    if Mergeable(Scan(xs, charsPerToken), Scan(ys, charsPerToken)) {
      MergeIsOneScan(xs, ys, charsPerToken);
    }
    if !Scan(xs + ys, charsPerToken).overflow {
      OneScanFits(xs, ys, charsPerToken);
    }
  }

  // ---- What a scan records ----

  /** The write of key that counts: its last doc.write, else its last doc.scalars. */
  function LastWrite(events: seq<Event>, key: string, docOnly: bool): Option<WriteEntry> {
    if events == [] then None
    else
      var e := events[|events| - 1];
      if e.Write? && e.authored && e.key == key && (docOnly ==> e.doc) then Some(WriteEntry(e.doc, e.day, e.writer))
      else LastWrite(events[..|events| - 1], key, docOnly)
  }

  function CountedWrite(events: seq<Event>, key: string): Option<WriteEntry> {
    if LastWrite(events, key, true).Some? then LastWrite(events, key, true) else LastWrite(events, key, false)
  }

  lemma {:induction false} WritesAreCounted(events: seq<Event>, key: string, charsPerToken: nat)
    requires charsPerToken > 0
    ensures var writes := Scan(events, charsPerToken).writes;
            CountedWrite(events, key) == if key in writes then Some(writes[key]) else None
  {
    if events != [] {
      WritesAreCounted(events[..|events| - 1], key, charsPerToken);
      DocWriteIsDoc(events[..|events| - 1], key);
    }
  }

  lemma {:induction false} DocWriteIsDoc(events: seq<Event>, key: string)
    ensures LastWrite(events, key, true).Some? ==> LastWrite(events, key, true).value.doc
    ensures LastWrite(events, key, false).Some? && LastWrite(events, key, true).None? ==>
        !LastWrite(events, key, false).value.doc
  {
    if events != [] {
      DocWriteIsDoc(events[..|events| - 1], key);
    }
  }

  // ---- Totals ----

  function UsesOf(row: Row): int { row.uses }

  function WritesOf(row: Row): int { row.writes }

  function ActorsOf(row: Row): int { row.human + row.agent + row.unknown }

  ghost function Daily(activity: Activity, of: Row -> int): int -> int {
    day => of(RowOn(activity, day))
  }

  ghost function Total(activity: Activity, of: Row -> int): int {
    Sum(activity.Keys, Daily(activity, of))
  }

  lemma TotalUpdate(activity: Activity, day: int, row: Row, of: Row -> int)
    requires of(EMPTY_ROW) == 0
    ensures Total(activity[day := row], of) == Total(activity, of) - of(RowOn(activity, day)) + of(row)
  {
    var now := activity[day := row];
    assert forall d :: Daily(activity, of)(d) == of(RowOn(activity, d));
    assert forall d :: Daily(now, of)(d) == of(RowOn(now, d));
    if day in activity {
      assert now.Keys == activity.Keys;
      SumChange(activity.Keys, Daily(activity, of), Daily(now, of), day);
    } else {
      assert now.Keys == activity.Keys + {day};
      SumInsert(activity.Keys, Daily(now, of), day);
      SumSame(activity.Keys, Daily(activity, of), Daily(now, of));
    }
  }

  /** Conservation in a partial: every read or hit is estimated or not, and is counted on
      its day; every read, hit and command counts once for its actor. */
  ghost predicate Conserved(u: Usage) {
    && u.estimated + u.unestimated == u.readCount + u.hitCount
    && Total(u.activity, UsesOf) == u.readCount + u.hitCount
    && Total(u.activity, WritesOf) == 0
    && Total(u.activity, ActorsOf) == u.readCount + u.hitCount + u.commands
  }

  lemma IncrementActors(row: Row, writer: Writer, n: nat)
    ensures ActorsOf(Increment(row.(uses := row.uses + n), writer)) == ActorsOf(row) + 1
    ensures ActorsOf(EMPTY_ROW) == 0
  {
  }

  lemma BumpTotal(activity: Activity, day: int, now: Row, of: Row -> int, delta: int)
    requires of(EMPTY_ROW) == 0 && of(now) == of(RowOn(activity, day)) + delta
    ensures Total(activity[day := now], of) == Total(activity, of) + delta
  {
    TotalUpdate(activity, day, now, of);
  }

  lemma UsesGrow(activity: Activity, day: int, writer: Writer, n: nat, row: Row, now: Row)
    requires row == RowOn(activity, day)
    requires now == Increment(row.(uses := row.uses + n), writer)
    ensures Total(activity[day := now], UsesOf) == Total(activity, UsesOf) + n
  {
    hide Total, RowOn;
    BumpTotal(activity, day, now, UsesOf, n);
  }

  lemma WritesStay(activity: Activity, day: int, writer: Writer, n: nat, row: Row, now: Row)
    requires row == RowOn(activity, day)
    requires now == Increment(row.(uses := row.uses + n), writer)
    ensures Total(activity[day := now], WritesOf) == Total(activity, WritesOf) + 0
  {
    hide Total, RowOn;
    BumpTotal(activity, day, now, WritesOf, 0);
  }

  lemma ActorsGrow(activity: Activity, day: int, writer: Writer, n: nat, row: Row, now: Row)
    requires row == RowOn(activity, day)
    requires now == Increment(row.(uses := row.uses + n), writer)
    ensures Total(activity[day := now], ActorsOf) == Total(activity, ActorsOf) + 1
  {
    IncrementActors(row, writer, n);
    hide Total, RowOn, ActorsOf, Increment;
    BumpTotal(activity, day, now, ActorsOf, 1);
  }

  lemma StepConserves(u: Usage, e: Event, charsPerToken: nat)
    requires charsPerToken > 0 && Conserved(u)
    ensures Conserved(Step(u, e, charsPerToken))
  {
    hide Total, Estimate, AddWrite, Increment;
    match e
    case Write(_, _, _, _, _) =>
    case Other =>
    case Command(day, writer) =>
      var row := RowOn(u.activity, day);
      var now := Increment(row, writer);
      UsesGrow(u.activity, day, writer, 0, row, now);
      WritesStay(u.activity, day, writer, 0, row, now);
      ActorsGrow(u.activity, day, writer, 0, row, now);
    case Use(_, _, day, writer) =>
      var row := RowOn(u.activity, day);
      var now := Increment(row.(uses := row.uses + 1), writer);
      UsesGrow(u.activity, day, writer, 1, row, now);
      WritesStay(u.activity, day, writer, 1, row, now);
      ActorsGrow(u.activity, day, writer, 1, row, now);
  }

  lemma {:induction false} ScanConserves(events: seq<Event>, charsPerToken: nat)
    requires charsPerToken > 0
    ensures Conserved(Scan(events, charsPerToken))
  {
    if events == [] {
      assert Total(map[], UsesOf) == Total(map[], WritesOf) == Total(map[], ActorsOf) == 0;
    } else {
      ScanConserves(events[..|events| - 1], charsPerToken);
      StepConserves(Scan(events[..|events| - 1], charsPerToken), events[|events| - 1], charsPerToken);
    }
  }

  // ---- The partial as the program updates it ----

  datatype Summary = Summary(
    usage: Usage,
    writes: int,
    human: int,
    agent: int,
    unknown: int,
    activity: Activity)

  ghost function By(writes: map<string, WriteEntry>, keys: set<string>, writer: Writer): set<string> {
    set key | key in keys && key in writes && writes[key].writer == writer
  }

  ghost function OnDay(writes: map<string, WriteEntry>, keys: set<string>, day: int): set<string> {
    set key | key in keys && key in writes && writes[key].day == day
  }

  /** Every write counts once: for its writer, and on its day. */
  ghost predicate Counts(s: Summary, u: Usage, keys: set<string>) {
    && s.writes == |keys|
    && s.human == |By(u.writes, keys, Human)|
    && s.agent == |By(u.writes, keys, Agent)|
    && s.unknown == |By(u.writes, keys, Unknown)|
    && (forall day :: RowOn(s.activity, day).writes == RowOn(u.activity, day).writes + |OnDay(u.writes, keys, day)|)
    && (forall day :: RowOn(s.activity, day).uses == RowOn(u.activity, day).uses)
    && (forall day, writer :: ActorIn(s.activity, day, writer) ==
          ActorIn(u.activity, day, writer) + |By(u.writes, OnDay(u.writes, keys, day), writer)|)
  }

  /** What a day's row counts for one kind of writer. */
  function ActorIn(activity: Activity, day: int, writer: Writer): int {
    match writer
    case Human => RowOn(activity, day).human
    case Agent => RowOn(activity, day).agent
    case Unknown => RowOn(activity, day).unknown
  }

  ghost predicate TotalsOf(s: Summary, u: Usage) {
    && s.human + s.agent + s.unknown == s.writes
    && Total(s.activity, WritesOf) == Total(u.activity, WritesOf) + s.writes
    && Total(s.activity, UsesOf) == Total(u.activity, UsesOf)
    && Total(s.activity, ActorsOf) == Total(u.activity, ActorsOf) + s.writes
  }

  function CountWrite(s: Summary, entry: WriteEntry): Summary {
    var row := RowOn(s.activity, entry.day);
    s.(writes := s.writes + 1,
       human := s.human + (if entry.writer == Human then 1 else 0),
       agent := s.agent + (if entry.writer == Agent then 1 else 0),
       unknown := s.unknown + (if entry.writer == Unknown then 1 else 0),
       activity := s.activity[entry.day := Increment(row.(writes := row.writes + 1), entry.writer)])
  }

  lemma ByInsert(writes: map<string, WriteEntry>, keys: set<string>, key: string, writer: Writer)
    requires key in writes && key !in keys
    ensures |By(writes, keys + {key}, writer)|
        == |By(writes, keys, writer)| + (if writes[key].writer == writer then 1 else 0)
  {
    if writes[key].writer == writer {
      assert By(writes, keys + {key}, writer) == By(writes, keys, writer) + {key};
    } else {
      assert By(writes, keys + {key}, writer) == By(writes, keys, writer);
    }
  }

  lemma OnDayInsert(writes: map<string, WriteEntry>, keys: set<string>, key: string, day: int)
    requires key in writes && key !in keys
    ensures |OnDay(writes, keys + {key}, day)| == |OnDay(writes, keys, day)| + (if writes[key].day == day then 1 else 0)
  {
    if writes[key].day == day {
      assert OnDay(writes, keys + {key}, day) == OnDay(writes, keys, day) + {key};
    } else {
      assert OnDay(writes, keys + {key}, day) == OnDay(writes, keys, day);
    }
  }

  lemma ByOnDayInsert(writes: map<string, WriteEntry>, keys: set<string>, key: string, day: int, writer: Writer)
    requires key in writes && key !in keys
    ensures |By(writes, OnDay(writes, keys + {key}, day), writer)| ==
            |By(writes, OnDay(writes, keys, day), writer)| +
            if writes[key].day == day && writes[key].writer == writer then 1 else 0
  {
    var before := By(writes, OnDay(writes, keys, day), writer);
    var now := By(writes, OnDay(writes, keys + {key}, day), writer);
    if writes[key].day == day && writes[key].writer == writer {
      assert now == before + {key};
    } else {
      assert now == before;
    }
  }

  lemma CountWriteActors(s: Summary, u: Usage, keys: set<string>, key: string, day: int, writer: Writer)
    requires key in u.writes && key !in keys
    requires ActorIn(s.activity, day, writer) ==
             ActorIn(u.activity, day, writer) + |By(u.writes, OnDay(u.writes, keys, day), writer)|
    ensures ActorIn(CountWrite(s, u.writes[key]).activity, day, writer) ==
            ActorIn(u.activity, day, writer) + |By(u.writes, OnDay(u.writes, keys + {key}, day), writer)|
  {
    ByOnDayInsert(u.writes, keys, key, day, writer);
    hide By, OnDay;
  }

  lemma CountWriteCounts(s: Summary, u: Usage, keys: set<string>, key: string)
    requires Counts(s, u, keys) && key in u.writes && key !in keys
    ensures Counts(CountWrite(s, u.writes[key]), u, keys + {key})
  {
    var entry := u.writes[key];
    var now := CountWrite(s, entry);
    ByInsert(u.writes, keys, key, Human);
    ByInsert(u.writes, keys, key, Agent);
    ByInsert(u.writes, keys, key, Unknown);
    hide By, OnDay;
    forall day
      ensures RowOn(now.activity, day).writes == RowOn(u.activity, day).writes + |OnDay(u.writes, keys + {key}, day)|
      ensures RowOn(now.activity, day).uses == RowOn(u.activity, day).uses
    {
      OnDayInsert(u.writes, keys, key, day);
      assert RowOn(s.activity, day).writes == RowOn(u.activity, day).writes + |OnDay(u.writes, keys, day)|;
      assert RowOn(s.activity, day).uses == RowOn(u.activity, day).uses;
    }
    forall day, writer
      ensures ActorIn(now.activity, day, writer) ==
              ActorIn(u.activity, day, writer) + |By(u.writes, OnDay(u.writes, keys + {key}, day), writer)|
    {
      CountWriteActors(s, u, keys, key, day, writer);
    }
    hide CountWrite, ActorIn, RowOn;
  }

  lemma WriteRow(row: Row, writer: Writer)
    ensures var now := Increment(row.(writes := row.writes + 1), writer);
            ActorsOf(now) == ActorsOf(row) + 1 && WritesOf(now) == WritesOf(row) + 1 && UsesOf(now) == UsesOf(row)
    ensures ActorsOf(EMPTY_ROW) == 0 && WritesOf(EMPTY_ROW) == 0 && UsesOf(EMPTY_ROW) == 0
  {
  }

  lemma WriteUses(activity: Activity, day: int, writer: Writer, row: Row, now: Row)
    requires row == RowOn(activity, day) && now == Increment(row.(writes := row.writes + 1), writer)
    ensures Total(activity[day := now], UsesOf) == Total(activity, UsesOf) + 0
  {
    WriteRow(row, writer);
    hide Total, RowOn, Increment, UsesOf;
    BumpTotal(activity, day, now, UsesOf, 0);
  }

  lemma WriteWrites(activity: Activity, day: int, writer: Writer, row: Row, now: Row)
    requires row == RowOn(activity, day) && now == Increment(row.(writes := row.writes + 1), writer)
    ensures Total(activity[day := now], WritesOf) == Total(activity, WritesOf) + 1
  {
    WriteRow(row, writer);
    hide Total, RowOn, Increment, WritesOf;
    BumpTotal(activity, day, now, WritesOf, 1);
  }

  lemma WriteActors(activity: Activity, day: int, writer: Writer, row: Row, now: Row)
    requires row == RowOn(activity, day) && now == Increment(row.(writes := row.writes + 1), writer)
    ensures Total(activity[day := now], ActorsOf) == Total(activity, ActorsOf) + 1
  {
    WriteRow(row, writer);
    hide Total, RowOn, Increment, ActorsOf;
    BumpTotal(activity, day, now, ActorsOf, 1);
  }

  lemma CountWriteTotals(s: Summary, u: Usage, entry: WriteEntry)
    requires TotalsOf(s, u)
    ensures TotalsOf(CountWrite(s, entry), u)
  {
    var row := RowOn(s.activity, entry.day);
    var now := Increment(row.(writes := row.writes + 1), entry.writer);
    WriteUses(s.activity, entry.day, entry.writer, row, now);
    WriteWrites(s.activity, entry.day, entry.writer, row, now);
    WriteActors(s.activity, entry.day, entry.writer, row, now);
    hide Total, RowOn, Increment;
    var counted := CountWrite(s, entry);
    assert counted.activity == s.activity[entry.day := now];
    assert counted.human + counted.agent + counted.unknown == s.human + s.agent + s.unknown + 1;
    hide CountWrite;
  }

  lemma NothingCounted(u: Usage)
    ensures var s := Summary(u, 0, 0, 0, 0, u.activity); Counts(s, u, {}) && TotalsOf(s, u)
  {
  }

  class UsagePartial {
    var usage: Usage

    constructor ()
      ensures usage == EMPTY
    {
      usage := EMPTY;
    }

    /** One event of scanUsage. */
    method Record(e: Event, charsPerToken: nat)
      requires charsPerToken > 0
      modifies this
      ensures usage == Step(old(usage), e, charsPerToken)
    {
      match e
      case Write(doc, authored, key, day, writer) =>
        if authored {
          usage := usage.(writes := AddWrite(usage.writes, key, WriteEntry(doc, day, writer)));
        }
      case Use(isRead, characters, day, writer) =>
        var row := RowOn(usage.activity, day);
        if isRead {
          usage := usage.(readCount := usage.readCount + 1);
        } else {
          usage := usage.(hitCount := usage.hitCount + 1);
        }
        usage := usage.(activity := usage.activity[day := Increment(row.(uses := row.uses + 1), writer)]);
        var estimated := false;
        var tokens := Estimate(characters, charsPerToken);
        if tokens.Some? {
          if tokens.value <= MAX_INT64 - usage.tokens {
            usage := usage.(estimated := usage.estimated + 1, tokens := usage.tokens + tokens.value);
            estimated := true;
          } else {
            usage := usage.(overflow := true);
          }
        }
        if !estimated {
          usage := usage.(unestimated := usage.unestimated + 1);
        }
      case Command(day, writer) =>
        usage := usage.(commands := usage.commands + 1,
                        activity := usage.activity[day := Increment(RowOn(usage.activity, day), writer)]);
      case Other =>
    }

    /** Add a later range, or refuse and stay unchanged. */
    method Merge(later: UsagePartial) returns (ok: bool)
      requires later != this
      modifies this
      ensures ok == Mergeable(old(usage), old(later.usage))
      ensures usage == if ok then Merged(old(usage), old(later.usage)) else old(usage)
    {
      if usage.overflow || later.usage.overflow || later.usage.tokens > MAX_INT64 - usage.tokens {
        return false;
      }
      var activity := MergeActivity(usage.activity, later.usage.activity);
      var writes := MergeWrites(usage.writes, later.usage.writes);
      usage := Usage(usage.readCount + later.usage.readCount, usage.hitCount + later.usage.hitCount,
                     usage.commands + later.usage.commands, usage.tokens + later.usage.tokens,
                     usage.estimated + later.usage.estimated, usage.unestimated + later.usage.unestimated,
                     activity, writes, usage.overflow);
      return true;
    }

    /** The summary of the recorded usage: every write is counted exactly once. */
    method Summarize() returns (s: Summary)
      requires Conserved(usage)
      ensures s.usage == usage
      ensures Counts(s, usage, usage.writes.Keys)
      ensures s.human + s.agent + s.unknown == s.writes == |usage.writes|
      ensures Total(s.activity, WritesOf) == s.writes
      ensures Total(s.activity, UsesOf) == usage.readCount + usage.hitCount == usage.estimated + usage.unestimated
      ensures Total(s.activity, ActorsOf) == usage.readCount + usage.hitCount + usage.commands + s.writes
    {
      var u := usage;
      s := CountWrites(u);
    }
  }

  method CountWrites(u: Usage) returns (s: Summary)
    ensures s.usage == u && Counts(s, u, u.writes.Keys) && TotalsOf(s, u)
  {
    s := Summary(u, 0, 0, 0, 0, u.activity);
    NothingCounted(u);
    hide Counts, TotalsOf;
    var todo := u.writes.Keys;
    ghost var done: set<string> := {};
    while todo != {}
      invariant todo <= u.writes.Keys && done == u.writes.Keys - todo
      invariant s.usage == u && Counts(s, u, done) && TotalsOf(s, u)
      decreases todo
    {
      var key :| key in todo;
      CountWriteCounts(s, u, done, key);
      CountWriteTotals(s, u, u.writes[key]);
      s := CountWrite(s, u.writes[key]);
      todo, done := todo - {key}, done + {key};
    }
    assert done == u.writes.Keys;
  }

  lemma LaterNext(later: Activity, todo: set<int>, day: int)
    requires day in todo && todo <= later.Keys
    ensures later - (todo - {day}) == (later - todo)[day := later[day]] && RowOn(later - todo, day) == EMPTY_ROW
  {
  }

  lemma MergedActivityNext(current: Activity, later: Activity, todo: set<int>, day: int)
    requires day in todo && todo <= later.Keys
    ensures var merged := MergedActivity(current, later - todo);
            MergedActivity(current, later - (todo - {day})) == merged[day := AddRows(RowOn(merged, day), later[day])]
  {
    MergedActivityUpdate(current, later - todo, day, later[day]);
    MergedRow(current, later - todo, day);
    LaterNext(later, todo, day);
    hide *;
  }

  method MergeActivity(current: Activity, later: Activity) returns (merged: Activity)
    ensures merged == MergedActivity(current, later)
  {
    merged := current;
    var todo := later.Keys;
    while todo != {}
      invariant todo <= later.Keys
      invariant merged == MergedActivity(current, later - todo)
      decreases todo
    {
      Inhabited(todo);
      var day :| day in todo;
      MergedActivityNext(current, later, todo, day);
      hide MergedActivity;
      merged := merged[day := AddRows(RowOn(merged, day), later[day])];
      todo := todo - {day};
    }
    assert later - {} == later;
  }

  method MergeWrites(current: map<string, WriteEntry>, later: map<string, WriteEntry>)
    returns (merged: map<string, WriteEntry>)
    ensures merged == MergedWrites(current, later)
  {
    merged := current;
    var todo := later.Keys;
    while todo != {}
      invariant todo <= later.Keys
      invariant merged == MergedWrites(current, later - todo)
      decreases todo
    {
      var key :| key in todo;
      ghost var before := later - todo;
      MergedWritesStep(current, before, key, later[key]);
      assert later - (todo - {key}) == AddWrite(before, key, later[key]);
      hide MergedWrites, AddWrite;
      merged := AddWrite(merged, key, later[key]);
      todo := todo - {key};
    }
    assert later - {} == later;
  }

  /** scanUsage over a whole range. */
  method ScanUsage(events: seq<Event>, charsPerToken: nat) returns (partial: UsagePartial)
    requires charsPerToken > 0
    ensures fresh(partial) && partial.usage == Scan(events, charsPerToken) && Conserved(partial.usage)
  {
    partial := new UsagePartial();
    for i := 0 to |events|
      invariant fresh(partial) && partial.usage == Scan(events[..i], charsPerToken)
    {
      hide Step;
      assert events[..i + 1][..i] == events[..i];
      partial.Record(events[i], charsPerToken);
    }
    assert events[..|events|] == events;
    ScanConserves(events, charsPerToken);
  }
}
