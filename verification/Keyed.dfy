/** Partials that keep one value per key: internal/analytics/types.go, Partial, as
    commands, unknown commands, scalar writes and line reads implement it. Merging adjacent
    windows must equal one window over both. */
module Keyed {
  import opened Wrappers

  // key: where an event counts, if at all; one: its own value; plus: an earlier and a later
  // value of one key together.
  datatype Shape<!E(!new), !K(!new), !V(!new)> = Shape(key: E -> Option<K>, one: E -> V, plus: (V, V) -> V)

  ghost predicate Associative<V(!new)>(plus: (V, V) -> V) {
    forall a, b, c :: plus(plus(a, b), c) == plus(a, plus(b, c))
  }

  function Put<K, V>(plus: (V, V) -> V, m: map<K, V>, k: K, v: V): map<K, V> {
    if k in m then m[k := plus(m[k], v)] else m[k := v]
  }

  function Add<E(!new), K(!new), V(!new)>(shape: Shape<E, K, V>, m: map<K, V>, e: E): map<K, V> {
    match shape.key(e)
    case None => m
    case Some(k) => Put(shape.plus, m, k, shape.one(e))
  }

  /** The partial of one window. */
  function Build<E(!new), K(!new), V(!new)>(shape: Shape<E, K, V>, events: seq<E>): map<K, V> {
    if events == [] then map[] else Add(shape, Build(shape, events[..|events| - 1]), events[|events| - 1])
  }

  function Merged<K, V>(plus: (V, V) -> V, a: map<K, V>, b: map<K, V>): map<K, V> {
    map k | k in a.Keys + b.Keys :: if k !in b then a[k] else if k !in a then b[k] else plus(a[k], b[k])
  }

  lemma MergedPut<K, V(!new)>(plus: (V, V) -> V, a: map<K, V>, b: map<K, V>, k: K, v: V)
    requires Associative(plus)
    ensures Merged(plus, a, Put(plus, b, k, v)) == Put(plus, Merged(plus, a, b), k, v)
  {
  }

  /** Merging the partials of adjacent windows is the partial of both. */
  lemma {:induction false} MergeIsConcatenation<E(!new), K(!new), V(!new)>(shape: Shape<E, K, V>, xs: seq<E>,
      ys: seq<E>)
    requires Associative(shape.plus)
    ensures Merged(shape.plus, Build(shape, xs), Build(shape, ys)) == Build(shape, xs + ys)
  {
    if ys == [] {
      assert xs + ys == xs;
      assert Merged(shape.plus, Build(shape, xs), map[]) == Build(shape, xs);
    } else {
      var front, e := ys[..|ys| - 1], ys[|ys| - 1];
      MergeIsConcatenation(shape, xs, front);
      assert (xs + ys)[..|xs + ys| - 1] == xs + front;
      if shape.key(e).Some? {
        MergedPut(shape.plus, Build(shape, xs), Build(shape, front), shape.key(e).value, shape.one(e));
      }
    }
  }

  /** The window's events that count at a key, in order. */
  ghost function Gather<E(!new), K(!new), V(!new)>(shape: Shape<E, K, V>, events: seq<E>, k: K): seq<E> {
    if events == [] then []
    else
      var e := events[|events| - 1];
      Gather(shape, events[..|events| - 1], k) + if shape.key(e) == Some(k) then [e] else []
  }

  function Fold<E(!new), K(!new), V(!new)>(shape: Shape<E, K, V>, events: seq<E>): V
    requires events != []
  {
    if |events| == 1 then shape.one(events[0])
    else shape.plus(Fold(shape, events[..|events| - 1]), shape.one(events[|events| - 1]))
  }

  /** What a key holds: its own events' values in order, and nothing else. */
  lemma {:induction false} EntriesAreFolds<E(!new), K(!new), V(!new)>(shape: Shape<E, K, V>, events: seq<E>, k: K)
    ensures k in Build(shape, events) <==> Gather(shape, events, k) != []
    ensures k in Build(shape, events) ==> Build(shape, events)[k] == Fold(shape, Gather(shape, events, k))
  {
    if events != [] {
      var front, e := events[..|events| - 1], events[|events| - 1];
      EntriesAreFolds(shape, front, k);
      var before := Gather(shape, front, k);
      if shape.key(e) == Some(k) {
        assert (before + [e])[..|before|] == before;
        assert Gather(shape, events, k) == before + [e];
      } else {
        assert Gather(shape, events, k) == before;
      }
    }
  }

  /** Merge of keyed entries: combine where both have the key, take over where only the
      later one does. */
  method MergeInto<K(!new), V(!new)>(plus: (V, V) -> V, current: map<K, V>, later: map<K, V>)
    returns (merged: map<K, V>)
    ensures merged == Merged(plus, current, later)
  {
    merged := current;
    var todo := later.Keys;
    while todo != {}
      invariant todo <= later.Keys && merged.Keys == current.Keys + (later.Keys - todo)
      invariant forall k :: k in merged ==> merged[k] == MergedSoFar(plus, current, later, todo, k)
      decreases todo
    {
      var k :| k in todo;
      if k in merged {
        merged := merged[k := plus(merged[k], later[k])];
      } else {
        merged := merged[k := later[k]];
      }
      todo := todo - {k};
    }
  }

  ghost function MergedSoFar<K(!new), V(!new)>(plus: (V, V) -> V, current: map<K, V>, later: map<K, V>, todo: set<K>,
                                               k: K): V
    requires todo <= later.Keys && k in current.Keys + (later.Keys - todo)
  {
    if k !in later || k in todo then current[k] else if k !in current then later[k] else plus(current[k], later[k])
  }
}
