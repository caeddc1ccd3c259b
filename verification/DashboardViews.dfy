/** Dashboard views end to end: a day-cached aggregation over the caller's restricted
    event source equals one pass over everything the caller may see. */
module DashboardViews {
  import opened Wrappers
  import opened DashboardScan
  import DayCache
  import UsageSummary
  import FileUsageSpec

  // ---- Scan order: time, then id as SQLite compares text ----

  predicate TextLess(a: string, b: string) {
    if b == "" then false
    else if a == "" then true
    else if a[0] == b[0] then TextLess(a[1..], b[1..])
    else a[0] < b[0]
  }

  predicate Earlier(a: Event, b: Event) {
    a.time < b.time || (a.time == b.time && TextLess(a.id, b.id))
  }

  lemma {:induction false} TextLessTotal(a: string, b: string)
    ensures TextLess(a, b) || TextLess(b, a) || a == b
    ensures !(TextLess(a, b) && TextLess(b, a))
    ensures a == b ==> !TextLess(a, b)
  {
    if a != "" && b != "" && a[0] == b[0] {
      TextLessTotal(a[1..], b[1..]);
      assert a == [a[0]] + a[1..];
      assert b == [b[0]] + b[1..];
    }
  }

  lemma {:induction false} TextLessTransitive(a: string, b: string, c: string)
    requires TextLess(a, b) && TextLess(b, c)
    ensures TextLess(a, c)
  {
    if a != "" && a[0] == b[0] == c[0] {
      TextLessTransitive(a[1..], b[1..], c[1..]);
    }
  }

  ghost predicate DistinctIds(events: set<Event>) {
    forall x, y :: x in events && y in events && x.id == y.id ==> x == y
  }

  lemma EarlierTransitive(a: Event, b: Event, c: Event)
    requires Earlier(a, b) && Earlier(b, c)
    ensures Earlier(a, c)
  {
    if a.time == b.time == c.time { TextLessTransitive(a.id, b.id, c.id); }
  }

  lemma EarlierTotal(a: Event, b: Event)
    ensures a.id != b.id ==> Earlier(a, b) || Earlier(b, a)
    ensures !(Earlier(a, b) && Earlier(b, a))
  {
    TextLessTotal(a.id, b.id);
  }

  ghost predicate First(events: set<Event>, e: Event) {
    e in events && forall x :: x in events && x != e ==> Earlier(e, x)
  }

  lemma {:induction false} FirstExists(events: set<Event>)
    requires events != {} && DistinctIds(events)
    ensures exists e :: First(events, e)
    decreases |events|
  {
    var e :| e in events;
    if events == {e} {
      assert First(events, e);
    } else {
      var rest := events - {e};
      FirstExists(rest);
      var f :| First(rest, f);
      EarlierTotal(e, f);
      hide Earlier;
      if Earlier(f, e) {
        assert First(events, f);
      } else {
        forall x | x in events && x != e
          ensures Earlier(e, x)
        {
          assert x in rest;
          if x != f { EarlierTransitive(e, f, x); }
        }
        assert First(events, e);
      }
    }
  }

  lemma FirstUnique(events: set<Event>, a: Event, b: Event)
    requires First(events, a) && First(events, b)
    ensures a == b
  {
    EarlierTotal(a, b);
  }

  /** The events of a set in scan order. */
  ghost function Ordered(events: set<Event>): seq<Event>
    requires DistinctIds(events)
    decreases |events|
  {
    if events == {} then []
    else
      FirstExists(events);
      var e :| First(events, e);
      [e] + Ordered(events - {e})
  }

  lemma OrderedNone()
    ensures Ordered({}) == []
  {
  }

  lemma OrderedFirst(events: set<Event>, e: Event)
    requires DistinctIds(events) && First(events, e)
    ensures Ordered(events) == [e] + Ordered(events - {e})
  {
    var f :| First(events, f) && Ordered(events) == [f] + Ordered(events - {f});
    FirstUnique(events, e, f);
  }

  lemma FirstOfBoth(early: set<Event>, late: set<Event>, e: Event)
    requires First(early, e)
    requires forall x, y :: x in early && y in late ==> x.time < y.time
    ensures First(early + late, e) && e !in late
  {
  }

  /** Scanning two adjacent ranges is scanning them in one go. */
  lemma {:induction false} OrderedSplit(early: set<Event>, late: set<Event>)
    requires DistinctIds(early + late)
    requires forall x, y :: x in early && y in late ==> x.time < y.time
    ensures Ordered(early + late) == Ordered(early) + Ordered(late)
    decreases |early|
  {
    hide First, Earlier, Ordered;
    OrderedNone();
    if early == {} {
      assert early + late == late;
    } else {
      FirstExists(early);
      var e :| First(early, e);
      FirstOfBoth(early, late, e);
      OrderedSplit(early - {e}, late);
      assert early + late - {e} == (early - {e}) + late;
      calc {
        Ordered(early + late);
        { OrderedFirst(early + late, e); }
        [e] + Ordered(early + late - {e});
        [e] + (Ordered(early - {e}) + Ordered(late));
        ([e] + Ordered(early - {e})) + Ordered(late);
        { OrderedFirst(early, e); }
        Ordered(early) + Ordered(late);
      }
    }
  }

  ghost predicate InOrder(log: seq<Event>) {
    forall i, j :: 0 <= i < j < |log| ==> Earlier(log[i], log[j])
  }

  /** A log already in scan order is the ordered form of its events. */
  lemma {:induction false} OrderedLog(log: seq<Event>)
    requires InOrder(log) && DistinctIds(DayCache.Indexed(log))
    ensures Ordered(DayCache.Indexed(log)) == log
  {
    if log != [] {
      var events, rest := DayCache.Indexed(log), DayCache.Indexed(log[1..]);
      assert log == [log[0]] + log[1..];
      assert events == {log[0]} + rest;
      forall x | x in rest
        ensures Earlier(log[0], x)
      {
        var i :| 0 <= i < |log[1..]| && log[1..][i] == x;
        assert log[i + 1] == x;
      }
      if log[0] in rest { EarlierTotal(log[0], log[0]); }
      assert First(events, log[0]);
      OrderedFirst(events, log[0]);
      assert events - {log[0]} == rest;
      OrderedLog(log[1..]);
    }
  }

  // ---- A day-cached aggregation over the restricted source ----

  ghost function All(events: set<Event>): iset<Event> { iset e | e in events }

  // No types are all types.
  predicate OfType(types: set<string>, e: Event) { types == {} || e.kind in types }

  /** What one scan of [from, to] hands to an aggregation of the given event types. */
  ghost function Handed(policy: Policy, types: set<string>, events: set<Event>, from: int, to: int): set<Event> {
    set e | e in events && from <= e.time <= to && OfType(types, e)
        && Visible(policy, Between(All(events), from, to), e)
  }

  // The scan's result; equal ids never occur, the log holds an event once.
  ghost function Folded<P>(fold: seq<Event> -> P, handed: set<Event>): P {
    if DistinctIds(handed) then fold(Ordered(handed)) else fold([])
  }

  function TimeOf(e: Event): int { e.time }

  ghost function ViewOf<P>(key: string, policy: Policy, types: set<string>, fold: seq<Event> -> P,
                           merge: (P, P) -> Option<P>): DayCache.View<Event, P> {
    DayCache.View(key, TimeOf, (events: set<Event>, from: int, to: int) => Folded(fold,
        Handed(policy, types, events, from, to)), merge)
  }

  /** The restricted source looks no further than the margin beyond a scanned range. */
  lemma ViewIsLocal<P>(key: string, policy: Policy, types: set<string>, fold: seq<Event> -> P,
                       merge: (P, P) -> Option<P>)
    ensures DayCache.Local(ViewOf(key, policy, types, fold, merge))
  {
    var view := ViewOf(key, policy, types, fold, merge);
    forall events, other, from, to | DayCache.Around(view, events, from, to) == DayCache.Around(view, other, from, to)
      ensures view.build(events, from, to) == view.build(other, from, to)
    {
      HandedAround(view, policy, types, events, other, from, to);
    }
  }

  lemma HandedAround<P>(view: DayCache.View<Event, P>, policy: Policy, types: set<string>, events: set<Event>,
                        other: set<Event>, from: int, to: int)
    requires view.time == TimeOf
    requires DayCache.Around(view, events, from, to) == DayCache.Around(view, other, from, to)
    ensures Handed(policy, types, events, from, to) == Handed(policy, types, other, from, to)
  {
    hide Visible;
    forall e
      ensures e in events && DayCache.Near(e.time, from, to) <==> e in other && DayCache.Near(e.time, from, to)
    {
      assert e in DayCache.Around(view, events, from, to) <==> e in DayCache.Around(view, other, from, to);
      assert view.time(e) == e.time;
    }
    assert Between(All(events), from, to) == Between(All(other), from, to);
  }

  /** Merging two folds is folding the concatenation, or is refused. */
  ghost predicate FoldMerges<P(!new)>(fold: seq<Event> -> P, merge: (P, P) -> Option<P>) {
    forall xs, ys :: merge(fold(xs), fold(ys)).None? || merge(fold(xs), fold(ys)).value == fold(xs + ys)
  }

  // ---- Sessions, whose visibility no margin bounds ----

  ghost function NonSession(events: set<Event>): set<Event> { set e | e in events && !SessionEvent(e.kind) }

  function WithoutSessions(xs: seq<Event>): seq<Event> {
    if xs == [] then []
    else
      var front, e := WithoutSessions(xs[..|xs| - 1]), xs[|xs| - 1];
      if SessionEvent(e.kind) then front else front + [e]
  }

  /** The fold takes nothing from session events. */
  ghost predicate IgnoresSessions<P(!new)>(fold: seq<Event> -> P) {
    forall xs :: fold(WithoutSessions(xs)) == fold(xs)
  }

  /** The view asks for no session events, or makes nothing of them. */
  ghost predicate Sessionless<P(!new)>(types: set<string>, fold: seq<Event> -> P) {
    (types != {} && forall kind :: kind in types ==> !SessionEvent(kind)) || IgnoresSessions(fold)
  }

  lemma {:induction false} WithoutSessionsFirst(e: Event, xs: seq<Event>)
    ensures WithoutSessions([e] + xs) == (if SessionEvent(e.kind) then [] else [e]) + WithoutSessions(xs)
  {
    var all := [e] + xs;
    if xs == [] {
      assert all == [e] && all[..0] == [];
    } else {
      WithoutSessionsFirst(e, xs[..|xs| - 1]);
      assert all[..|all| - 1] == [e] + xs[..|xs| - 1];
    }
  }

  lemma {:induction false} OrderedNonSession(events: set<Event>)
    requires DistinctIds(events)
    ensures Ordered(NonSession(events)) == WithoutSessions(Ordered(events))
  {
    hide Earlier, Ordered;
    OrderedNone();
    if events == {} {
      assert NonSession(events) == {};
    } else {
      FirstExists(events);
      var e :| First(events, e);
      OrderedFirst(events, e);
      OrderedNonSession(events - {e});
      WithoutSessionsFirst(e, Ordered(events - {e}));
      if SessionEvent(e.kind) {
        assert NonSession(events) == NonSession(events - {e});
      } else {
        FirstNonSession(events, e);
        OrderedFirst(NonSession(events), e);
        assert NonSession(events) - {e} == NonSession(events - {e});
      }
    }
  }

  lemma FirstNonSession(events: set<Event>, e: Event)
    requires First(events, e) && !SessionEvent(e.kind)
    ensures First(NonSession(events), e)
  {
  }

  lemma FoldedNonSession<P(!new)>(types: set<string>, fold: seq<Event> -> P, handed: set<Event>)
    requires DistinctIds(handed) && Sessionless(types, fold)
    requires forall e :: e in handed ==> OfType(types, e)
    ensures Folded(fold, handed) == fold(Ordered(NonSession(handed)))
  {
    if IgnoresSessions(fold) {
      OrderedNonSession(handed);
    } else {
      assert NonSession(handed) == handed;
    }
  }

  lemma HandedSplit(policy: Policy, types: set<string>, events: set<Event>, a: int, b: int, c: int)
    requires a < b <= c
    requires CorrelatedNearby(All(events))
    ensures NonSession(Handed(policy, types, events, a, c)) ==
            NonSession(Handed(policy, types, events, a, b - 1)) + NonSession(Handed(policy, types, events, b, c))
  {
  }

  /** Splitting a window at any instant and merging the scans of its parts is one scan of
      the window, provided correlated events lie within the margin of each other. */
  lemma ViewIsMergeable<P(!new)>(key: string, policy: Policy, types: set<string>, fold: seq<Event> -> P,
                                 merge: (P, P) -> Option<P>, events: set<Event>)
    requires DistinctIds(events) && CorrelatedNearby(All(events))
    requires Sessionless(types, fold) && FoldMerges(fold, merge)
    ensures DayCache.Mergeable(ViewOf(key, policy, types, fold, merge), events)
  {
    var view := ViewOf(key, policy, types, fold, merge);
    forall a, b, c | a < b <= c
      ensures DayCache.Joins(view, events, a, b, c)
    {
      var early, late := Handed(policy, types, events, a, b - 1), Handed(policy, types, events, b, c);
      HandedSplit(policy, types, events, a, b, c);
      OrderedSplit(NonSession(early), NonSession(late));
      FoldedNonSession(types, fold, early);
      FoldedNonSession(types, fold, late);
      FoldedNonSession(types, fold, Handed(policy, types, events, a, c));
      hide Handed;
      var xs, ys := Ordered(NonSession(early)), Ordered(NonSession(late));
      assert merge(fold(xs), fold(ys)).None? || merge(fold(xs), fold(ys)).value == fold(xs + ys);
    }
  }

  // ---- The source really hands those events, in that order ----

  ghost function Range(from: int, to: int, types: set<string>): Filter {
    Filter(Some(from), Some(to), types, {})
  }

  lemma {:induction false} EmittedInOrder(policy: Policy, f: Filter, window: iset<Event>, log: seq<Event>)
    requires InOrder(log)
    ensures InOrder(Emitted(policy, f, window, log))
  {
    if log != [] {
      var front, e := log[..|log| - 1], log[|log| - 1];
      EmittedInOrder(policy, f, window, front);
      var out := Emitted(policy, f, window, front);
      forall x | x in out
        ensures Earlier(x, e)
      {
        EmittedIffVisible(policy, f, window, front, x);
        var i :| 0 <= i < |front| && front[i] == x;
        assert log[i] == x;
      }
    }
  }

  /** Scanning the log, in order, emits exactly the handed events in scan order. */
  lemma ScanHandsInOrder(policy: Policy, types: set<string>, log: seq<Event>, from: int, to: int)
    requires InOrder(log) && DistinctIds(DayCache.Indexed(log))
    ensures var f := Range(from, to, types);
            Emitted(policy, f, Window(f, log), log) == Ordered(Handed(policy, types, DayCache.Indexed(log), from, to))
  {
    var f := Range(from, to, types);
    var out := Emitted(policy, f, Window(f, log), log);
    var events := DayCache.Indexed(log);
    assert Window(f, log) == Between(All(events), from, to);
    forall e
      ensures e in out <==> e in Handed(policy, types, events, from, to)
    {
      EmittedIffVisible(policy, f, Window(f, log), log, e);
    }
    assert DayCache.Indexed(out) == Handed(policy, types, events, from, to);
    EmittedInOrder(policy, f, Window(f, log), log);
    OrderedLog(out);
  }

  // ---- The two cached aggregations ----

  function MapSeq<A, B>(f: A -> B, xs: seq<A>): seq<B> {
    seq(|xs|, i requires 0 <= i < |xs| => f(xs[i]))
  }

  lemma MapConcat<A, B>(f: A -> B, xs: seq<A>, ys: seq<A>)
    ensures MapSeq(f, xs + ys) == MapSeq(f, xs) + MapSeq(f, ys)
  {
  }

  ghost function FoldUsage(fields: Event -> UsageSummary.Event, charsPerToken: nat): seq<Event> -> UsageSummary.Usage
    requires charsPerToken > 0
  {
    xs => UsageSummary.Scan(MapSeq(fields, xs), charsPerToken)
  }

  ghost function MergeUsage(): (UsageSummary.Usage, UsageSummary.Usage) -> Option<UsageSummary.Usage> {
    (a, b) => if UsageSummary.Mergeable(a, b) then Some(UsageSummary.Merged(a, b)) else None
  }

  ghost function FoldFiles(fields: Event -> FileUsageSpec.Event,
                           cfg: FileUsageSpec.Config): seq<Event> -> FileUsageSpec.State {
    xs => FileUsageSpec.Build(cfg, MapSeq(fields, xs))
  }

  ghost function MergeFiles(cfg: FileUsageSpec.Config)
    : (FileUsageSpec.State, FileUsageSpec.State) -> Option<FileUsageSpec.State>
  {
    (a, b) => Some(FileUsageSpec.MergeState(cfg, a, b))
  }

  lemma UsageFoldMerges(fields: Event -> UsageSummary.Event, charsPerToken: nat)
    requires charsPerToken > 0
    ensures FoldMerges(FoldUsage(fields, charsPerToken), MergeUsage())
  {
    var fold, merge := FoldUsage(fields, charsPerToken), MergeUsage();
    forall xs, ys
      ensures merge(fold(xs), fold(ys)).None? || merge(fold(xs), fold(ys)).value == fold(xs + ys)
    {
      MapConcat(fields, xs, ys);
      if UsageSummary.Mergeable(fold(xs), fold(ys)) {
        UsageSummary.MergeIsOneScan(MapSeq(fields, xs), MapSeq(fields, ys), charsPerToken);
      }
    }
  }

  /** The summary has no case for session events. */
  ghost predicate SessionsAreOther(fields: Event -> UsageSummary.Event) {
    forall e: Event :: SessionEvent(e.kind) ==> fields(e).Other?
  }

  lemma {:induction false} RelevantWithoutSessions(fields: Event -> UsageSummary.Event, xs: seq<Event>)
    requires SessionsAreOther(fields)
    ensures UsageSummary.Relevant(MapSeq(fields, WithoutSessions(xs))) == UsageSummary.Relevant(MapSeq(fields, xs))
  {
    if xs != [] {
      var front, e := xs[..|xs| - 1], xs[|xs| - 1];
      RelevantWithoutSessions(fields, front);
      assert MapSeq(fields, xs)[..|xs| - 1] == MapSeq(fields, front);
      if !SessionEvent(e.kind) {
        var all := WithoutSessions(xs);
        assert MapSeq(fields, all)[..|all| - 1] == MapSeq(fields, WithoutSessions(front));
      }
    }
  }

  /** A usage summary scans every type of event and makes nothing of sessions. */
  lemma UsageIgnoresSessions(fields: Event -> UsageSummary.Event, charsPerToken: nat)
    requires charsPerToken > 0 && SessionsAreOther(fields)
    ensures IgnoresSessions(FoldUsage(fields, charsPerToken))
  {
    forall xs
      ensures FoldUsage(fields, charsPerToken)(WithoutSessions(xs)) == FoldUsage(fields, charsPerToken)(xs)
    {
      RelevantWithoutSessions(fields, xs);
      UsageSummary.OthersLeaveNoTrace(MapSeq(fields, xs), charsPerToken);
      UsageSummary.OthersLeaveNoTrace(MapSeq(fields, WithoutSessions(xs)), charsPerToken);
    }
  }

  lemma FilesFoldMerges(fields: Event -> FileUsageSpec.Event, cfg: FileUsageSpec.Config)
    ensures FoldMerges(FoldFiles(fields, cfg), MergeFiles(cfg))
  {
    var fold, merge := FoldFiles(fields, cfg), MergeFiles(cfg);
    forall xs, ys
      ensures merge(fold(xs), fold(ys)).None? || merge(fold(xs), fold(ys)).value == fold(xs + ys)
    {
      MapConcat(fields, xs, ys);
      FileUsageSpec.MergeIsConcatenation(cfg, MapSeq(fields, xs), MapSeq(fields, ys));
    }
  }

  /** The file-usage view of one caller: after any run of the tables, a finished turn
      gives exactly the partial of one scan of the restricted source over the window. */
  method FileUsageView(partials: DayCache.DayPartials<Event, FileUsageSpec.State>, ghost policy: Policy,
                       ghost types: set<string>,
                       ghost fields: Event -> FileUsageSpec.Event, ghost cfg: FileUsageSpec.Config,
                       since: int, until: int, budget: nat)
    returns (result: Option<FileUsageSpec.State>)
    requires partials.view == ViewOf(partials.view.key, policy, types, FoldFiles(fields, cfg), MergeFiles(cfg))
    requires types != {} && forall kind :: kind in types ==> !SessionEvent(kind)
    requires DayCache.Sound(partials.view, partials.State())
    requires DistinctIds(DayCache.Indexed(partials.rows)) && CorrelatedNearby(All(DayCache.Indexed(partials.rows)))
    requires -DayCache.DAY < since <= until
    modifies partials`days
    ensures result.None? ||
      result.value == Folded(FoldFiles(fields, cfg),
          Handed(policy, types, DayCache.Indexed(partials.rows), since, until))
    ensures DayCache.Fresh(partials.view, partials.State())
  {
    ViewIsLocal(partials.view.key, policy, types, FoldFiles(fields, cfg), MergeFiles(cfg));
    FilesFoldMerges(fields, cfg);
    ViewIsMergeable(partials.view.key, policy, types, FoldFiles(fields, cfg), MergeFiles(cfg),
        DayCache.Indexed(partials.rows));
    result := partials.Summarize(since, until, budget);
  }

  /** The usage summary of one caller, likewise; it is scanned without a type filter. */
  method UsageView(partials: DayCache.DayPartials<Event, UsageSummary.Usage>, ghost policy: Policy,
                   ghost fields: Event -> UsageSummary.Event, ghost charsPerToken: nat,
                   since: int, until: int, budget: nat)
    returns (result: Option<UsageSummary.Usage>)
    requires charsPerToken > 0 && SessionsAreOther(fields)
    requires partials.view == ViewOf(partials.view.key, policy, {}, FoldUsage(fields, charsPerToken), MergeUsage())
    requires DayCache.Sound(partials.view, partials.State())
    requires DistinctIds(DayCache.Indexed(partials.rows)) && CorrelatedNearby(All(DayCache.Indexed(partials.rows)))
    requires -DayCache.DAY < since <= until
    modifies partials`days
    ensures result.None? ||
      result.value == Folded(FoldUsage(fields, charsPerToken),
          Handed(policy, {}, DayCache.Indexed(partials.rows), since, until))
    ensures DayCache.Fresh(partials.view, partials.State())
  {
    var fold := FoldUsage(fields, charsPerToken);
    ViewIsLocal(partials.view.key, policy, {}, fold, MergeUsage());
    UsageFoldMerges(fields, charsPerToken);
    UsageIgnoresSessions(fields, charsPerToken);
    ViewIsMergeable(partials.view.key, policy, {}, fold, MergeUsage(), DayCache.Indexed(partials.rows));
    result := partials.Summarize(since, until, budget);
  }
}
