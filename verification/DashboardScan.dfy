/** The dashboard's restricted event source: pkg/openlore/analytics_event_source.go.
    Three streaming passes must emit exactly the events whose resources the caller may
    read, whatever the order of the log. */
module DashboardScan {
  import opened Wrappers

  // A "path" or "from" field: absent, not a usable string, or a path.
  datatype PathField = NoPath | BadPath | At(path: string)

  // The "scope" field: absent, not a non-empty list of strings, or its targets.
  datatype ScopeField = NoScope | BadScope | Targets(targets: seq<string>)

  datatype Event = Event(
    id: string,
    time: int,
    kind: string,
    principal: string,
    parent: string,
    invocation: string,
    session: string,
    path: PathField,
    from: PathField,
    scope: ScopeField)

  // The caller's policy, resolved once per scan.
  datatype Policy = Policy(readable: string -> bool, subtree: string -> bool)

  datatype Access = Access(proved: bool, allowed: bool)

  const UNPROVED := Access(false, false)

  // analyticsAccess.add
  function Add(a: Access, allowed: bool): Access {
    Access(true, (!a.proved || a.allowed) && allowed)
  }

  // mergeAnalyticsAccess of two values
  function MergeAccess(a: Access, b: Access): Access {
    var first := if a.proved then Add(UNPROVED, a.allowed) else UNPROVED;
    if b.proved then Add(first, b.allowed) else first
  }

  predicate CommandEvent(kind: string) {
    kind == "command.exec" || kind == "command.unknown" || kind == "syntax.unknown"
  }

  predicate SessionEvent(kind: string) {
    kind == "session.start" || kind == "session.end" || kind == "auth.login"
  }

  method DirectAccess(policy: Policy, e: Event) returns (access: Access)
    ensures access == Access(Attributed(e), Attributed(e) && Readable(policy, e))
  {
    access := UNPROVED;
    if e.path != NoPath {
      access := Add(access, e.path.At? && e.path.path != "" && policy.readable(e.path.path));
    }
    if e.from != NoPath {
      access := Add(access, e.from.At? && e.from.path != "" && policy.readable(e.from.path));
    }
    if e.scope != NoScope {
      if e.scope == BadScope || |e.scope.targets| == 0 {
        access := Add(access, false);
      } else {
        ghost var before := access;
        for i := 0 to |e.scope.targets|
          invariant access == if i == 0 then before else
            Access(true,
                   (!before.proved || before.allowed) && forall t :: t in e.scope.targets[..i] ==> policy.subtree(t))
        {
          access := Add(access, policy.subtree(e.scope.targets[i]));
          assert e.scope.targets[..i + 1] == e.scope.targets[..i] + [e.scope.targets[i]];
        }
        assert e.scope.targets[..|e.scope.targets|] == e.scope.targets;
      }
    }
  }

  // ---- Declarative access ----

  /** The event names a resource. */
  predicate Attributed(e: Event) {
    e.path != NoPath || e.from != NoPath || e.scope != NoScope
  }

  predicate ReadableField(policy: Policy, f: PathField) {
    f == NoPath || (f.At? && f.path != "" && policy.readable(f.path))
  }

  /** Every resource the event names is readable. */
  ghost predicate Readable(policy: Policy, e: Event) {
    && ReadableField(policy, e.path)
    && ReadableField(policy, e.from)
    && (e.scope != NoScope ==>
          e.scope.Targets? && e.scope.targets != [] && forall t :: t in e.scope.targets ==> policy.subtree(t))
  }

  /** x runs under the command e: as its child, or in the same invocation. */
  predicate Under(x: Event, e: Event) {
    (x.parent != "" && x.parent == e.id) || (x.invocation != "" && x.invocation == e.invocation)
  }

  /** Access of an event that is not a session event, given the events in the window. */
  ghost predicate Proved(window: iset<Event>, e: Event) {
    Attributed(e) || (CommandEvent(e.kind) && exists x :: x in window && Attributed(x) && Under(x, e))
  }

  ghost predicate Permitted(policy: Policy, window: iset<Event>, e: Event) {
    if Attributed(e) then Readable(policy, e)
    else forall x :: x in window && Attributed(x) && Under(x, e) ==> Readable(policy, x)
  }

  ghost predicate Authorized(policy: Policy, window: iset<Event>, e: Event) {
    Proved(window, e) && Permitted(policy, window, e)
  }

  ghost predicate InSession(window: iset<Event>, x: Event, session: string) {
    x in window && session != "" && x.session == session && !SessionEvent(x.kind)
  }

  /** The rule the dashboard promises: a session is visible only through activity that is
      visible in full; any other event through the resources it touched. */
  ghost predicate Visible(policy: Policy, window: iset<Event>, e: Event) {
    if SessionEvent(e.kind) then
      && (exists x :: InSession(window, x, e.session))
      && (forall x :: InSession(window, x, e.session) ==> Authorized(policy, window, x))
    else Authorized(policy, window, e)
  }

  /** The rule, kind by kind. A session is seen through its other events, all of them; what
      names a resource is seen with that resource; a command that names none is seen with
      what ran under it, as its child or in its invocation; anything else is not seen. */
  lemma VisibleMeans(policy: Policy, window: iset<Event>, e: Event)
    ensures var session := e.kind in {"session.start", "session.end", "auth.login"};
            var command := e.kind in {"command.exec", "command.unknown", "syntax.unknown"};
            var names := e.path != NoPath || e.from != NoPath || e.scope != NoScope;
            && (session ==> (Visible(policy, window, e) <==>
                  e.session != "" && SessionKnown(window, e.session) && SessionAllowed(policy, window, e.session)))
            && (!session && names ==> (Visible(policy, window, e) <==> Readable(policy, e)))
            && (!session && !names && command ==> (Visible(policy, window, e) <==>
                  (exists x :: RanUnder(window, x, e)) && forall x :: RanUnder(window, x, e) ==> Readable(policy, x)))
            && (!session && !names && !command ==> !Visible(policy, window, e))
  {
    hide Readable;
    assert forall x :: RanUnder(window, x, e) <==> x in window && Attributed(x) && Under(x, e);
    if SessionEvent(e.kind) {
      assert forall x :: InSession(window, x, e.session) <==> e.session != "" && OfSession(window, x, e.session);
      assert forall x :: OfSession(window, x, e.session) ==>
               (Visible(policy, window, x) <==> Authorized(policy, window, x));
      hide Authorized, OfSession, InSession;
    } else {
      hide RanUnder, Under;
    }
  }

  /** x names a resource and is a child of e or of e's invocation. */
  ghost predicate RanUnder(window: iset<Event>, x: Event, e: Event) {
    && x in window && (x.path != NoPath || x.from != NoPath || x.scope != NoScope)
    && ((x.parent != "" && x.parent == e.id) || (x.invocation != "" && x.invocation == e.invocation))
  }

  ghost predicate OfSession(window: iset<Event>, x: Event, session: string) {
    x in window && x.session == session && x.kind !in {"session.start", "session.end", "auth.login"}
  }

  ghost predicate SessionKnown(window: iset<Event>, session: string) {
    exists x :: OfSession(window, x, session)
  }

  ghost predicate SessionAllowed(policy: Policy, window: iset<Event>, session: string) {
    forall x :: OfSession(window, x, session) ==> Visible(policy, window, x)
  }

  /** Adding a denied correlated event never adds output. */
  lemma DeniedNeverAdds(policy: Policy, window: iset<Event>, denied: Event, e: Event)
    requires Attributed(denied) && !Readable(policy, denied)
    requires Visible(policy, window + iset{denied}, e)
    ensures Visible(policy, window, e)
  {
    var wide := window + iset{denied};
    forall x | Authorized(policy, wide, x)
      ensures Authorized(policy, window, x) && x != denied
    {
      AuthorizedWithout(policy, window, denied, x);
    }
    if SessionEvent(e.kind) {
      var x :| InSession(wide, x, e.session);
      assert Authorized(policy, wide, x);
      assert InSession(window, x, e.session);
      forall y | InSession(window, y, e.session)
        ensures Authorized(policy, window, y)
      {
        assert InSession(wide, y, e.session);
      }
    }
  }

  lemma AuthorizedWithout(policy: Policy, window: iset<Event>, denied: Event, e: Event)
    requires Attributed(denied) && !Readable(policy, denied)
    requires Authorized(policy, window + iset{denied}, e)
    ensures Authorized(policy, window, e) && e != denied
  {
  }

  // ---- The three passes ----

  const MARGIN: int := 600_000_000_000

  // A time filter; None is an open bound.
  datatype Filter = Filter(from: Option<int>, to: Option<int>, types: set<string>, principals: set<string>)

  predicate InRange(from: Option<int>, to: Option<int>, e: Event) {
    (from.None? || e.time >= from.value) && (to.None? || e.time <= to.value)
  }

  function Widened(bound: Option<int>, shift: int): Option<int> {
    if bound.None? then None else Some(bound.value + shift)
  }

  predicate InWindow(f: Filter, e: Event) {
    InRange(Widened(f.from, -MARGIN), Widened(f.to, MARGIN), e)
  }

  ghost function Window(f: Filter, log: seq<Event>): iset<Event> {
    iset e | e in log && InWindow(f, e)
  }

  predicate Requested(f: Filter, e: Event) {
    InRange(f.from, f.to, e) && (f.types == {} || e.kind in f.types)
        && (f.principals == {} || e.principal in f.principals)
  }

  /** What a scan must emit, in log order. */
  ghost function Emitted(policy: Policy, f: Filter, window: iset<Event>, log: seq<Event>): seq<Event> {
    if log == [] then []
    else
      var front := Emitted(policy, f, window, log[..|log| - 1]);
      var e := log[|log| - 1];
      if Requested(f, e) && Visible(policy, window, e) then front + [e] else front
  }

  // m holds, per non-empty key, whether some counted event carries it and whether all do well.
  ghost predicate Tally(m: map<string, Access>, seen: iset<Event>, key: Event -> string, counts: Event -> bool,
                        ok: Event -> bool) {
    && (forall k :: k in m ==> k != "" && m[k].proved)
    && (forall x :: x in seen && counts(x) && key(x) != "" ==> key(x) in m && (!ok(x) ==> !m[key(x)].allowed))
    && (forall k :: k in m ==> Witnessed(m[k].allowed, k, seen, key, counts, ok))
  }

  ghost predicate Witnessed(allowed: bool, k: string, seen: iset<Event>, key: Event -> string, counts: Event -> bool,
                            ok: Event -> bool) {
    exists x :: x in seen && counts(x) && key(x) == k && (allowed || !ok(x))
  }

  function Look(m: map<string, Access>, k: string): Access {
    if k in m then m[k] else UNPROVED
  }

  lemma TallyMore(m: map<string, Access>, seen: iset<Event>, key: Event -> string, counts: Event -> bool,
                  ok: Event -> bool, e: Event)
    requires Tally(m, seen, key, counts, ok)
    ensures Tally(if counts(e) && key(e) != "" then m[key(e) := Add(Look(m, key(e)), ok(e))] else m,
                  seen + iset{e}, key, counts, ok)
  {
    var now := if counts(e) && key(e) != "" then m[key(e) := Add(Look(m, key(e)), ok(e))] else m;
    forall k | k in now
      ensures Witnessed(now[k].allowed, k, seen + iset{e}, key, counts, ok)
    {
      if k in m && (k != key(e) || !counts(e) || now[k].allowed == m[k].allowed) {
        var x :| x in seen && counts(x) && key(x) == k && (m[k].allowed || !ok(x));
        assert x in seen + iset{e};
      } else {
        assert e in seen + iset{e};
      }
    }
  }

  /** A complete tally answers "is there one" and "are all of them fine" for a key. */
  lemma TallyMeans(m: map<string, Access>, seen: iset<Event>, key: Event -> string, counts: Event -> bool,
                   ok: Event -> bool, k: string)
    requires Tally(m, seen, key, counts, ok) && k != ""
    ensures Look(m, k).proved <==> exists x :: x in seen && counts(x) && key(x) == k
    ensures Look(m, k).proved ==> (Look(m, k).allowed <==> forall x :: x in seen && counts(x) && key(x) == k ==> ok(x))
  {
  }

  function ParentOf(e: Event): string { e.parent }

  function InvocationOf(e: Event): string { e.invocation }

  function SessionOf(e: Event): string { e.session }

  predicate NotSession(e: Event) { !SessionEvent(e.kind) }

  ghost function ReadableTo(policy: Policy): Event -> bool { e => Readable(policy, e) }

  ghost function AuthorizedIn(policy: Policy, window: iset<Event>): Event -> bool { e => Authorized(policy, window, e) }

  lemma WindowNext(f: Filter, log: seq<Event>, i: nat)
    requires i < |log|
    ensures Window(f, log[..i + 1]) == if InWindow(f, log[i]) then Window(f, log[..i]) + iset{log[i]}
        else Window(f, log[..i])
  {
  }

  /** Pass one: what each parent and each invocation touched. */
  method Correlate(policy: Policy, f: Filter, log: seq<Event>)
    returns (byParent: map<string, Access>, byInvocation: map<string, Access>)
    ensures Tally(byParent, Window(f, log), ParentOf, Attributed, ReadableTo(policy))
    ensures Tally(byInvocation, Window(f, log), InvocationOf, Attributed, ReadableTo(policy))
  {
    byParent, byInvocation := map[], map[];
    for i := 0 to |log|
      invariant Tally(byParent, Window(f, log[..i]), ParentOf, Attributed, ReadableTo(policy))
      invariant Tally(byInvocation, Window(f, log[..i]), InvocationOf, Attributed, ReadableTo(policy))
    {
      var e := log[i];
      WindowNext(f, log, i);
      TallyMore(byParent, Window(f, log[..i]), ParentOf, Attributed, ReadableTo(policy), e);
      TallyMore(byInvocation, Window(f, log[..i]), InvocationOf, Attributed, ReadableTo(policy), e);
      hide Tally, Window;
      if InWindow(f, e) {
        var access := DirectAccess(policy, e);
        if access.proved {
          if e.parent != "" {
            byParent := byParent[e.parent := Add(Look(byParent, e.parent), access.allowed)];
          }
          if e.invocation != "" {
            byInvocation := byInvocation[e.invocation := Add(Look(byInvocation, e.invocation), access.allowed)];
          }
        }
      }
    }
    assert log[..|log|] == log;
  }

  ghost predicate Correlated(policy: Policy, window: iset<Event>, byParent: map<string, Access>,
                             byInvocation: map<string, Access>) {
    && Tally(byParent, window, ParentOf, Attributed, ReadableTo(policy))
    && Tally(byInvocation, window, InvocationOf, Attributed, ReadableTo(policy))
  }

  /** The access decision of one event, from its own fields or its command's correlations. */
  method EventAccess(policy: Policy, ghost window: iset<Event>, byParent: map<string, Access>,
                     byInvocation: map<string, Access>, e: Event)
    returns (access: Access)
    requires Correlated(policy, window, byParent, byInvocation)
    ensures access.proved <==> Proved(window, e)
    ensures access.proved ==> (access.allowed <==> Permitted(policy, window, e))
  {
    access := DirectAccess(policy, e);
    if !access.proved && CommandEvent(e.kind) {
      access := MergeAccess(Look(byParent, e.id), Look(byInvocation, e.invocation));
      MergedMeans(policy, window, byParent, byInvocation, e);
    }
  }

  lemma MergedMeans(policy: Policy, window: iset<Event>, byParent: map<string, Access>,
                    byInvocation: map<string, Access>, e: Event)
    requires Correlated(policy, window, byParent, byInvocation)
    ensures var access := MergeAccess(Look(byParent, e.id), Look(byInvocation, e.invocation));
            && (access.proved <==> exists x :: x in window && Attributed(x) && Under(x, e))
            && (access.proved ==>
                  (access.allowed <==> forall x :: x in window && Attributed(x) && Under(x, e) ==> Readable(policy, x)))
  {
  }

  lemma NoEmptyKey(m: map<string, Access>, seen: iset<Event>, key: Event -> string, counts: Event -> bool,
                   ok: Event -> bool)
    requires Tally(m, seen, key, counts, ok)
    ensures Look(m, "") == UNPROVED
  {
  }

  /** Pass two: whether all activity of each session is visible. An unproved event makes
      its session ambiguous. */
  method SessionScope(policy: Policy, f: Filter, log: seq<Event>, byParent: map<string, Access>,
                      byInvocation: map<string, Access>)
    returns (bySession: map<string, Access>)
    requires Correlated(policy, Window(f, log), byParent, byInvocation)
    ensures Tally(bySession, Window(f, log), SessionOf, NotSession, AuthorizedIn(policy, Window(f, log)))
  {
    bySession := map[];
    ghost var window := Window(f, log);
    for i := 0 to |log|
      invariant Tally(bySession, Window(f, log[..i]), SessionOf, NotSession, AuthorizedIn(policy, window))
    {
      var e := log[i];
      WindowNext(f, log, i);
      TallyMore(bySession, Window(f, log[..i]), SessionOf, NotSession, AuthorizedIn(policy, window), e);
      hide Tally, Window;
      if InWindow(f, e) && e.session != "" && !SessionEvent(e.kind) {
        var access := EventAccess(policy, window, byParent, byInvocation, e);
        bySession := bySession[e.session := Add(Look(bySession, e.session), access.proved && access.allowed)];
      }
    }
    assert log[..|log|] == log;
  }

  /** The whole scan over one snapshot of the log. The session pass is skipped when no
      session event is requested. */
  method Scan(policy: Policy, f: Filter, log: seq<Event>) returns (out: seq<Event>)
    ensures out == Emitted(policy, f, Window(f, log), log)
  {
    ghost var window := Window(f, log);
    var byParent, byInvocation := Correlate(policy, f, log);
    var sessions := f.types == {} || "session.start" in f.types || "session.end" in f.types || "auth.login" in f.types;
    var bySession: map<string, Access> := map[];
    if sessions {
      bySession := SessionScope(policy, f, log, byParent, byInvocation);
    }
    out := [];
    for i := 0 to |log|
      invariant out == Emitted(policy, f, window, log[..i])
    {
      var e := log[i];
      assert log[..i + 1][..i] == log[..i];
      if Requested(f, e) {
        var access;
        if SessionEvent(e.kind) {
          access := Look(bySession, e.session);
          SessionMeans(policy, window, bySession, e);
        } else {
          access := EventAccess(policy, window, byParent, byInvocation, e);
        }
        if access.proved && access.allowed {
          out := out + [e];
        }
      }
    }
    assert log[..|log|] == log;
  }

  lemma SessionMeans(policy: Policy, window: iset<Event>, bySession: map<string, Access>, e: Event)
    requires Tally(bySession, window, SessionOf, NotSession, AuthorizedIn(policy, window))
    requires SessionEvent(e.kind)
    ensures var access := Look(bySession, e.session); access.proved && access.allowed <==> Visible(policy, window, e)
  {
    if e.session == "" {
      NoEmptyKey(bySession, window, SessionOf, NotSession, AuthorizedIn(policy, window));
    } else {
      TallyMeans(bySession, window, SessionOf, NotSession, AuthorizedIn(policy, window), e.session);
      hide Tally, Authorized;
      forall x
        ensures InSession(window, x, e.session) <==> x in window && NotSession(x) && SessionOf(x) == e.session
      {
      }
    }
  }

  // ---- Order and window independence ----

  /** The decision depends on which events the window holds, not on the log's order. */
  lemma {:induction false} EmittedIffVisible(policy: Policy, f: Filter, window: iset<Event>, log: seq<Event>, e: Event)
    ensures e in Emitted(policy, f, window, log) <==> e in log && Requested(f, e) && Visible(policy, window, e)
  {
    if log != [] {
      EmittedIffVisible(policy, f, window, log[..|log| - 1], e);
      assert log == log[..|log| - 1] + [log[|log| - 1]];
    }
  }

  lemma OrderIndependent(policy: Policy, f: Filter, log: seq<Event>, other: seq<Event>, e: Event)
    requires forall x :: x in log <==> x in other
    ensures e in Emitted(policy, f, Window(f, log), log) <==> e in Emitted(policy, f, Window(f, other), other)
  {
    assert Window(f, log) == Window(f, other);
    EmittedIffVisible(policy, f, Window(f, log), log, e);
    EmittedIffVisible(policy, f, Window(f, other), other, e);
  }

  /** Correlated events lie within the margin of each other. */
  ghost predicate CorrelatedNearby(all: iset<Event>) {
    forall x, e :: x in all && e in all && Under(x, e) && Attributed(x) && !Attributed(e) ==>
        -MARGIN <= x.time - e.time <= MARGIN
  }

  ghost function Between(all: iset<Event>, from: int, to: int): iset<Event> {
    iset e | e in all && from - MARGIN <= e.time <= to + MARGIN
  }

  /** Then an event's visibility does not depend on the window it is scanned in. */
  lemma WindowIndependent(policy: Policy, all: iset<Event>, from: int, to: int, e: Event)
    requires CorrelatedNearby(all) && e in all && from <= e.time <= to && !SessionEvent(e.kind)
    ensures Visible(policy, Between(all, from, to), e) <==> Visible(policy, all, e)
  {
  }
}
