/** What a usage scan counts, in the events' own terms: internal/analytics/summary.go:102-153.
    Token estimates, totals, and the rows of the days, event by event. */
module UsageMeaning {
  import opened Wrappers
  import opened UsageSummary

  // ---- One estimate ----

  /** An estimate is refused when the characters are unknown or negative, or when the tokens
      do not fit int64; otherwise it is the characters divided by charsPerToken, rounded up. */
  lemma EstimateMeans(characters: Option<real>, charsPerToken: nat)
    requires charsPerToken > 0
    ensures var k, tokens := charsPerToken as real, Estimate(characters, charsPerToken);
            && (tokens.None? <==>
                  characters.None? || characters.value < 0.0 || k * MAX_INT64 as real < characters.value)
            && (tokens.Some? ==>
                  (tokens.value - 1) as real * k < characters.value <= tokens.value as real * k)
  {
    if characters.Some? && characters.value >= 0.0 {
      CeilOfQuotient(characters.value, charsPerToken as real, MAX_INT64);
      hide Ceil;
    }
  }

  /** Rounding up a quotient, and comparing it with a limit. */
  lemma CeilOfQuotient(c: real, k: real, limit: int)
    requires k > 0.0
    ensures var n := Ceil(c / k); (n - 1) as real * k < c <= n as real * k
    ensures Ceil(c / k) <= limit <==> c <= k * limit as real
  {
    var x := c / k;
    var n, max := Ceil(x), limit as real;
    assert x * k == c;
    assert max * k == k * max;
    CeilBounds(x, limit);
    hide Ceil;
    Scaled((n - 1) as real, x, k);
    ScaledAtMost(x, n as real, k);
    if n <= limit { ScaledAtMost(x, max, k); } else { Scaled(max, x, k); }
  }

  lemma CeilBounds(x: real, limit: int)
    ensures (Ceil(x) - 1) as real < x <= Ceil(x) as real
    ensures Ceil(x) <= limit <==> x <= limit as real
  {
  }

  lemma Scaled(a: real, b: real, k: real)
    requires a < b && k > 0.0
    ensures a * k < b * k
  {
  }

  lemma ScaledAtMost(a: real, b: real, k: real)
    requires a <= b && k > 0.0
    ensures a * k <= b * k
  {
  }

  // ---- Whole scans ----

  predicate IsReadUse(e: Event) { e.Use? && e.isRead }

  predicate IsHitUse(e: Event) { e.Use? && !e.isRead }

  predicate IsCommand(e: Event) { e.Command? }

  function UsedOn(day: int): Event -> bool { (e: Event) => e.Use? && e.day == day }

  /** Reads, hits and commands count for their actor on their day. */
  function ActedOn(day: int, writer: Writer): Event -> bool {
    (e: Event) => (e.Use? || e.Command?) && e.day == day && e.writer == writer
  }

  function Estimated(charsPerToken: nat): Event -> bool
    requires charsPerToken > 0
  {
    (e: Event) => e.Use? && Estimate(e.characters, charsPerToken).Some?
  }

  ghost function Where(events: seq<Event>, f: Event -> bool): set<int> {
    set i | 0 <= i < |events| && f(events[i])
  }

  /** The estimates of all reads and hits together. */
  function TokenTotal(events: seq<Event>, charsPerToken: nat): nat
    requires charsPerToken > 0
  {
    if events == [] then 0
    else TokenTotal(events[..|events| - 1], charsPerToken) + TokensOf(events[|events| - 1], charsPerToken)
  }

  function TokensOf(e: Event, charsPerToken: nat): nat
    requires charsPerToken > 0
  {
    if e.Use? && Estimate(e.characters, charsPerToken).Some? then Estimate(e.characters, charsPerToken).value else 0
  }

  lemma WhereMore(front: seq<Event>, e: Event, f: Event -> bool)
    ensures |Where(front + [e], f)| == |Where(front, f)| + if f(e) then 1 else 0
  {
    var before, now, events := Where(front, f), Where(front + [e], f), front + [e];
    assert forall i :: 0 <= i < |front| ==> events[i] == front[i];
    if f(e) {
      assert now == before + {|front|};
    } else {
      assert now == before;
    }
  }

  /** The counters are the numbers of reads, hits and commands. */
  lemma {:induction false} CountersMean(events: seq<Event>, charsPerToken: nat)
    requires charsPerToken > 0
    ensures var u := Scan(events, charsPerToken);
            && u.readCount == |Where(events, IsReadUse)|
            && u.hitCount == |Where(events, IsHitUse)|
            && u.commands == |Where(events, IsCommand)|
  {
    if events != [] {
      var front, e := events[..|events| - 1], events[|events| - 1];
      assert events == front + [e];
      CountersMean(front, charsPerToken);
      WhereMore(front, e, IsReadUse);
      WhereMore(front, e, IsHitUse);
      WhereMore(front, e, IsCommand);
      hide Where, Estimate, RowOn, Increment, AddWrite;
    }
  }

  /** A day's row counts the reads and hits of the day, and each actor's acts on it; the
      writes are added by the summary. */
  lemma {:induction false} RowsMean(events: seq<Event>, charsPerToken: nat, day: int)
    requires charsPerToken > 0
    ensures var row := RowOn(Scan(events, charsPerToken).activity, day);
            && row.uses == |Where(events, UsedOn(day))|
            && row.human == |Where(events, ActedOn(day, Human))|
            && row.agent == |Where(events, ActedOn(day, Agent))|
            && row.unknown == |Where(events, ActedOn(day, Unknown))|
            && row.writes == 0
  {
    if events != [] {
      var front, e := events[..|events| - 1], events[|events| - 1];
      assert events == front + [e];
      RowsMean(front, charsPerToken, day);
      WhereMore(front, e, UsedOn(day));
      WhereMore(front, e, ActedOn(day, Human));
      WhereMore(front, e, ActedOn(day, Agent));
      WhereMore(front, e, ActedOn(day, Unknown));
      hide Where, Estimate, AddWrite;
    }
  }

  /** A scan overflows exactly when the estimates together exceed int64, and otherwise its
      tokens are their sum and every estimate is counted. */
  lemma {:induction false} TokensMean(events: seq<Event>, charsPerToken: nat)
    requires charsPerToken > 0
    ensures var u := Scan(events, charsPerToken);
            && (u.overflow <==> TokenTotal(events, charsPerToken) > MAX_INT64)
            && (!u.overflow ==>
                  && u.tokens == TokenTotal(events, charsPerToken)
                  && u.estimated == |Where(events, Estimated(charsPerToken))|)
  {
    if events != [] {
      var front, e := events[..|events| - 1], events[|events| - 1];
      assert events == front + [e];
      TokensMean(front, charsPerToken);
      WhereMore(front, e, Estimated(charsPerToken));
      hide Where, RowOn, Increment, AddWrite;
    }
  }
}
