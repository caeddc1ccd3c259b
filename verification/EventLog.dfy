/** The event log and its shipper: internal/analytics/storage.go (Append, Seal, retention)
    and internal/analytics/pipeline.go (ShipNow and its checkpoint), with a remote store
    configured. An action is one durable effect, so the process can stop between any two.
    A record is a line of a segment and the unit of its size. Times count from Go's zero
    time, which Truncate rounds from. */
module EventLog {
  import opened Wrappers

  // A segment's name without its suffix: the start of its period, and the id that sets
  // apart a segment opened for late events; 0 for none.
  datatype Base = Base(start: int, late: int)

  datatype Name = Raw(base: Base) | Zst(base: Base)

  // A Fragment is what a failed append left behind.
  datatype Record = Line(event: int) | Fragment

  // A remote object: records from..to of the named segment. Its key holds the name, the
  // range and a digest of the payload, so objects are never overwritten by others.
  datatype Object = Object(name: Name, from: int, to: int, records: seq<Record>)

  datatype Upload = Upload(name: Name, offset: int)

  // files, checkpoint and objects are durable. active, sealing, offsets, loaded and
  // shipping live in the process. appended, retired and ids record the history: events
  // whose append succeeded, segments removed by retention, ids given out.
  datatype Store = Store(
    files: map<Name, seq<Record>>,
    checkpoint: map<Name, int>,
    objects: set<Object>,
    active: Option<Base>,
    sealing: Option<Base>,
    offsets: map<Name, int>,
    loaded: bool,
    shipping: Option<Upload>,
    appended: set<int>,
    retired: map<Name, seq<Record>>,
    ids: set<int>)

  datatype Action =
    | Append(event: int, time: int, id: int)
    | AppendFails(failedTime: int, failedId: int, torn: bool)
    | CloseActive
    | Compress(compressed: Base)
    | RemoveRaw
    | Retain(expired: Name)
    | LoadCheckpoint
    | Put(segment: Name, size: int)
    | SaveCheckpoint
    | SaveFails
    | Crash

  function Get(offsets: map<Name, int>, n: Name): int { if n in offsets then offsets[n] else 0 }

  function PeriodStart(time: int, rotate: int): int
    requires rotate > 0
  {
    time - time % rotate
  }

  /** The segment an event belongs to, unless that name was sealed or shipped before. */
  function Target(s: Store, time: int, id: int, rotate: int): Base
    requires rotate > 0
  {
    var base := Base(PeriodStart(time, rotate), 0);
    var shipped := Raw(base) !in s.files && (Raw(base) in s.checkpoint || Zst(base) in s.checkpoint);
    if Zst(base) in s.files || shipped then Base(base.start, id) else base
  }

  /** Appending through the open descriptor, or through a new one. A descriptor whose file
      was removed writes into nothing. */
  function Written(s: Store, target: Base, records: seq<Record>): map<Name, seq<Record>> {
    if Raw(target) in s.files then s.files[Raw(target) := s.files[Raw(target)] + records]
    else if s.active == Some(target) then s.files
    else s.files[Raw(target) := records]
  }

  function Grow(s: Store, target: Base, id: int, records: seq<Record>, events: set<int>): Store {
    s.(files := Written(s, target, records), active := Some(target), appended := s.appended + events,
        ids := s.ids + {id})
  }

  ghost predicate Enabled(s: Store, a: Action, rotate: int)
    requires rotate > 0
  {
    match a
    case Append(_, _, id) => s.sealing.None? && id > 0 && id !in s.ids
    case AppendFails(_, id, _) => s.sealing.None? && id > 0 && id !in s.ids
    case CloseActive => s.sealing.None? && s.shipping.None?
    case Compress(b) => s.sealing.None? && s.shipping.None? && Raw(b) in s.files && s.active != Some(b)
    case RemoveRaw => s.sealing.Some?
    case Retain(n) =>
      // The compression pass of the same Seal has left no raw file beside a compressed one.
      && s.sealing.None? && s.shipping.None? && n in s.files && Get(s.checkpoint, n) == |s.files[n]|
      && (n.Zst? ==> Raw(n.base) !in s.files)
    case LoadCheckpoint => !s.loaded && s.sealing.None? && s.shipping.None?
    case Put(n, size) =>
      // size was read before, the file may have grown since.
      s.loaded && s.sealing.None? && s.shipping.None? && n in s.files && Get(s.offsets, n) < size <= |s.files[n]|
    case SaveCheckpoint => s.shipping.Some?
    case SaveFails => s.shipping.Some?
    case Crash => true
  }

  ghost function Apply(s: Store, a: Action, rotate: int): Store
    requires rotate > 0
  {
    match a
    case Append(e, time, id) => Grow(s, Target(s, time, id, rotate), id, [Line(e)], {e})
    case AppendFails(time, id, torn) => Grow(s, Target(s, time, id, rotate), id, if torn then [Fragment] else [], {})
    case CloseActive => s.(active := None)
    case Compress(b) =>
      if Raw(b) in s.files then s.(files := s.files[Zst(b) := s.files[Raw(b)]], sealing := Some(b)) else s
    case RemoveRaw => if s.sealing.Some? then s.(files := s.files - {Raw(s.sealing.value)}, sealing := None) else s
    case Retain(n) =>
      if n in s.files then
        s.(files := s.files - {n}, retired := s.retired[n := s.files[n]],
           active := if n.Raw? && s.active == Some(n.base) then None else s.active)
      else s
    case LoadCheckpoint => s.(offsets := s.offsets + s.checkpoint, loaded := true)
    case Put(n, size) =>
      var offset := Get(s.offsets, n);
      if n in s.files && 0 <= offset <= size <= |s.files[n]| then
        s.(objects := s.objects + {Object(n, offset, size, s.files[n][offset..size])}, offsets := s.offsets[n := size],
            shipping := Some(Upload(n, offset)))
      else s
    case SaveCheckpoint => s.(checkpoint := s.offsets, shipping := None)
    case SaveFails =>
      if s.shipping.Some? then
        s.(offsets := s.offsets[s.shipping.value.name := s.shipping.value.offset], shipping := None)
      else s
    case Crash => s.(active := None, sealing := None, offsets := map[], loaded := false, shipping := None)
  }

  // ---- What every run keeps ----

  /** A remote object holds record r of segment n at position i. */
  ghost predicate HasCopy(objects: set<Object>, n: Name, i: int, r: Record) {
    exists o :: o in objects && o.name == n && o.from <= i < o.to && |o.records| == o.to - o.from
        && o.records[i - o.from] == r
  }

  /** Remote objects hold the first k records of the segment, each at its position. */
  ghost predicate Copied(objects: set<Object>, n: Name, records: seq<Record>, k: int) {
    0 <= k <= |records| && forall i :: 0 <= i < k ==> HasCopy(objects, n, i, records[i])
  }

  ghost predicate UploadOk(s: Store, u: Upload) {
    u.name in s.files && Get(s.checkpoint, u.name) <= u.offset <= Get(s.offsets, u.name)
        && (u.offset != 0 ==> Get(s.checkpoint, u.name) != 0)
  }

  /** Offsets count shipped records, and a new one is remembered only after its upload. */
  ghost predicate OffsetsOk(s: Store) {
    && (forall n :: n in s.files ==> Copied(s.objects, n, s.files[n], Get(s.checkpoint, n)))
    && (forall n :: n in s.files ==> Copied(s.objects, n, s.files[n], Get(s.offsets, n)))
    && (forall n :: n in s.offsets && s.offsets[n] != 0 ==>
        Get(s.checkpoint, n) != 0 || (s.shipping.Some? && s.shipping.value.name == n))
    && (s.loaded ==> forall n :: n in s.checkpoint ==> n in s.offsets && s.checkpoint[n] <= s.offsets[n])
    && (s.shipping.Some? ==> s.loaded && s.sealing.None? && UploadOk(s, s.shipping.value))
  }

  /** A compressed segment replaces the raw one it was made from. */
  ghost predicate SealingOk(s: Store) {
    && (forall b :: Raw(b) in s.files && Zst(b) in s.files ==> s.files[Zst(b)] == s.files[Raw(b)])
    && (forall b :: Raw(b) in s.files && Get(s.checkpoint, Zst(b)) != 0 ==> Zst(b) in s.files)
    && (s.active.Some? ==> Raw(s.active.value) in s.files)
    && (s.sealing.Some? ==> Raw(s.sealing.value) in s.files && Zst(s.sealing.value) in s.files && s.active != s.sealing)
  }

  /** The ids of late segments were given out. */
  ghost predicate NamesOk(s: Store) {
    forall n :: n in s.files || n in s.checkpoint || n in s.offsets || n in s.retired ==>
        n.base.late == 0 || n.base.late in s.ids
  }

  /** What retention removed can be rebuilt from remote objects, and its name stays unused. */
  ghost predicate RetiredOk(s: Store) {
    && (forall n :: n in s.retired ==> Copied(s.objects, n, s.retired[n], |s.retired[n]|))
    && (forall n :: n in s.retired && s.retired[n] != [] ==> Get(s.checkpoint, n) > 0 && n !in s.files)
  }

  ghost predicate In(files: map<Name, seq<Record>>, e: int) {
    exists n :: n in files && Line(e) in files[n]
  }

  /** Every appended event is in a local segment or in one that retention removed. */
  ghost predicate KeptOk(s: Store) {
    forall e :: e in s.appended ==> In(s.files, e) || In(s.retired, e)
  }

  ghost predicate Invariant(s: Store) {
    OffsetsOk(s) && SealingOk(s) && NamesOk(s) && RetiredOk(s) && KeptOk(s)
  }

  lemma CopiedMore(few: set<Object>, many: set<Object>, n: Name, some: seq<Record>, all: seq<Record>, j: int, k: int)
    requires Copied(few, n, some, k) && few <= many && some <= all && 0 <= j <= k
    ensures Copied(many, n, all, j)
  {
  }

  /** No sealed segment has this name, and unless its raw file is there no shipped or
      retired one has either. */
  ghost predicate Unused(s: Store, t: Base) {
    && Zst(t) !in s.files && Get(s.checkpoint, Zst(t)) == 0
    && (Raw(t) !in s.files ==> Get(s.checkpoint, Raw(t)) == 0 && Get(s.offsets, Raw(t)) == 0)
    && (Raw(t) in s.retired ==> s.retired[Raw(t)] == []) && (Zst(t) in s.retired ==> s.retired[Zst(t)] == [])
  }

  /** A late event never goes to a name that was sealed or shipped before. */
  lemma TargetIsUnused(s: Store, time: int, id: int, rotate: int)
    requires rotate > 0 && Invariant(s) && id > 0 && id !in s.ids
    ensures var t := Target(s, time, id, rotate);
            Unused(s, t) && t.start == PeriodStart(time, rotate) && (t.late == 0 || t.late == id)
  {
  }

  lemma GrowKeepsOffsets(s: Store, t: Base, id: int, records: seq<Record>, events: set<int>)
    requires OffsetsOk(s) && s.sealing.None? && Unused(s, t)
    ensures OffsetsOk(Grow(s, t, id, records, events))
  {
    var now := Grow(s, t, id, records, events);
    forall n | n in now.files
      ensures Copied(now.objects, n, now.files[n], Get(now.checkpoint, n))
      ensures Copied(now.objects, n, now.files[n], Get(now.offsets, n))
    {
      if n in s.files {
        assert s.files[n] <= now.files[n];
        CopiedMore(s.objects, s.objects, n, s.files[n], now.files[n], Get(s.checkpoint, n), Get(s.checkpoint, n));
        CopiedMore(s.objects, s.objects, n, s.files[n], now.files[n], Get(s.offsets, n), Get(s.offsets, n));
      }
    }
  }

  lemma GrowKeepsNames(s: Store, t: Base, id: int, records: seq<Record>, events: set<int>)
    requires SealingOk(s) && NamesOk(s) && RetiredOk(s) && s.sealing.None? && Unused(s, t)
        && (t.late == 0 || t.late == id)
    ensures var now := Grow(s, t, id, records, events); SealingOk(now) && NamesOk(now) && RetiredOk(now)
  {
  }

  lemma GrowKeepsEvents(s: Store, t: Base, id: int, records: seq<Record>, events: set<int>)
    requires KeptOk(s) && (s.active.Some? ==> Raw(s.active.value) in s.files)
    requires forall e :: e in events ==> Line(e) in records
    ensures KeptOk(Grow(s, t, id, records, events))
  {
    var now := Grow(s, t, id, records, events);
    forall e | e in now.appended
      ensures In(now.files, e) || In(now.retired, e)
    {
      if e in events {
        assert Line(e) in now.files[Raw(t)];
      } else if In(s.files, e) {
        var n :| n in s.files && Line(e) in s.files[n];
        assert Line(e) in now.files[n];
      }
    }
  }

  lemma GrowKeeps(s: Store, time: int, id: int, rotate: int, records: seq<Record>, events: set<int>)
    requires rotate > 0 && Invariant(s) && s.sealing.None? && id > 0 && id !in s.ids
    requires forall e :: e in events ==> Line(e) in records
    ensures Invariant(Grow(s, Target(s, time, id, rotate), id, records, events))
  {
    var t := Target(s, time, id, rotate);
    TargetIsUnused(s, time, id, rotate);
    GrowKeepsEvents(s, t, id, records, events);
    hide Target, Grow, OffsetsOk, NamesOk, RetiredOk, KeptOk, Unused;
    GrowKeepsOffsets(s, t, id, records, events);
    GrowKeepsNames(s, t, id, records, events);
  }

  // Records that stay where they are or move whole to another segment or out of the log.
  ghost predicate Held(s: Store, records: seq<Record>) {
    (exists m :: m in s.files && s.files[m] == records) || (exists m :: m in s.retired && s.retired[m] == records)
  }

  lemma EventsStay(s: Store, now: Store)
    requires KeptOk(s) && now.appended == s.appended
    requires forall n :: n in s.files ==> Held(now, s.files[n])
    requires forall n :: n in s.retired && s.retired[n] != [] ==> n in now.retired && now.retired[n] == s.retired[n]
    ensures KeptOk(now)
  {
  }

  lemma CompressKeeps(s: Store, b: Base, rotate: int)
    requires rotate > 0 && Invariant(s) && Enabled(s, Compress(b), rotate)
    ensures Invariant(Apply(s, Compress(b), rotate))
  {
    var now := Apply(s, Compress(b), rotate);
    assert now == s.(files := s.files[Zst(b) := s.files[Raw(b)]], sealing := Some(b));
    hide Apply, OffsetsOk, NamesOk, RetiredOk, KeptOk;
    CompressKeepsOffsets(s, now, b);
    CompressKeepsNames(s, now, b);
    CompressKeepsEvents(s, now, b);
  }

  lemma CompressKeepsOffsets(s: Store, now: Store, b: Base)
    requires OffsetsOk(s) && SealingOk(s) && s.sealing.None? && s.shipping.None?
    requires Raw(b) in s.files && now == s.(files := s.files[Zst(b) := s.files[Raw(b)]], sealing := Some(b))
    ensures OffsetsOk(now)
  {
    hide Copied, HasCopy;
    NothingCopied(s.objects, Zst(b), now.files[Zst(b)]);
  }

  lemma CompressKeepsNames(s: Store, now: Store, b: Base)
    requires SealingOk(s) && NamesOk(s) && RetiredOk(s) && s.sealing.None? && s.active != Some(b)
    requires Raw(b) in s.files && now == s.(files := s.files[Zst(b) := s.files[Raw(b)]], sealing := Some(b))
    requires Get(s.checkpoint, Zst(b)) != 0 ==> Zst(b) in s.files
    ensures SealingOk(now) && NamesOk(now) && RetiredOk(now)
  {
  }

  lemma CompressKeepsEvents(s: Store, now: Store, b: Base)
    requires KeptOk(s) && Raw(b) in s.files
        && now == s.(files := s.files[Zst(b) := s.files[Raw(b)]], sealing := Some(b))
    requires Zst(b) in s.files ==> s.files[Zst(b)] == s.files[Raw(b)]
    ensures KeptOk(now)
  {
    hide KeptOk, In;
    forall n | n in s.files
      ensures Held(now, s.files[n])
    {
      CompressHolds(s, now, b, n);
    }
    hide Held;
    EventsStay(s, now);
  }

  lemma CompressHolds(s: Store, now: Store, b: Base, n: Name)
    requires n in s.files && Raw(b) in s.files && now.files == s.files[Zst(b) := s.files[Raw(b)]]
    requires Zst(b) in s.files ==> s.files[Zst(b)] == s.files[Raw(b)]
    ensures Held(now, s.files[n])
  {
    assert n in now.files;
  }

  lemma NothingCopied(objects: set<Object>, n: Name, records: seq<Record>)
    ensures Copied(objects, n, records, 0)
  {
  }

  lemma RemoveRawKeeps(s: Store, rotate: int)
    requires rotate > 0 && Invariant(s) && s.sealing.Some?
    ensures Invariant(Apply(s, RemoveRaw, rotate))
  {
    var b := s.sealing.value;
    var now := Apply(s, RemoveRaw, rotate);
    assert now == s.(files := s.files - {Raw(b)}, sealing := None);
    hide Apply, Enabled, Copied, HasCopy, In;
    assert OffsetsOk(now) by { hide NamesOk, RetiredOk, KeptOk, SealingOk; }
    assert NamesOk(now) by { hide OffsetsOk, SealingOk, RetiredOk, KeptOk; }
    assert SealingOk(now) by { hide OffsetsOk, NamesOk, RetiredOk, KeptOk; }
    assert RetiredOk(now) by { hide OffsetsOk, SealingOk, NamesOk, KeptOk; }
    assert Raw(b) in s.files && Zst(b) in s.files && s.files[Zst(b)] == s.files[Raw(b)];
    hide OffsetsOk, SealingOk, NamesOk, RetiredOk, KeptOk;
    RemoveRawKeepsEvents(s, now, b);
  }

  lemma RemoveRawKeepsEvents(s: Store, now: Store, b: Base)
    requires KeptOk(s) && now == s.(files := s.files - {Raw(b)}, sealing := None)
    requires Raw(b) in s.files && Zst(b) in s.files && s.files[Zst(b)] == s.files[Raw(b)]
    ensures KeptOk(now)
  {
    forall n | n in s.files
      ensures Held(now, s.files[n])
    {
      RemoveRawHolds(s, now, b, n);
    }
    hide KeptOk, Held;
    EventsStay(s, now);
  }

  lemma RemoveRawHolds(s: Store, now: Store, b: Base, n: Name)
    requires n in s.files && now.files == s.files - {Raw(b)}
    requires Raw(b) in s.files && Zst(b) in s.files && s.files[Zst(b)] == s.files[Raw(b)]
    ensures Held(now, s.files[n])
  {
    assert Zst(b) in now.files;
    assert n != Raw(b) ==> n in now.files;
  }

  lemma RetainKeeps(s: Store, n: Name, rotate: int)
    requires rotate > 0 && Invariant(s) && Enabled(s, Retain(n), rotate)
    ensures Invariant(Apply(s, Retain(n), rotate))
  {
    var now := Apply(s, Retain(n), rotate);
    var active := if n.Raw? && s.active == Some(n.base) then None else s.active;
    assert now == s.(files := s.files - {n}, retired := s.retired[n := s.files[n]], active := active);
    hide Apply, Copied, HasCopy;
    assert n in s.retired ==> s.retired[n] == [];
    hide KeptOk;
    RetainKeepsFiles(s, now, n, active);
    hide OffsetsOk, SealingOk, NamesOk, RetiredOk;
    RetainKeepsEvents(s, now, n);
  }

  lemma RetainKeepsFiles(s: Store, now: Store, n: Name, active: Option<Base>)
    requires OffsetsOk(s) && SealingOk(s) && NamesOk(s) && RetiredOk(s)
    requires s.sealing.None? && s.shipping.None? && n in s.files && Get(s.checkpoint, n) == |s.files[n]|
    requires n.Zst? ==> Raw(n.base) !in s.files
    requires active == if n.Raw? && s.active == Some(n.base) then None else s.active
    requires now == s.(files := s.files - {n}, retired := s.retired[n := s.files[n]], active := active)
    ensures OffsetsOk(now) && SealingOk(now) && NamesOk(now) && RetiredOk(now)
  {
    hide Copied;
    assert OffsetsOk(now) && RetiredOk(now) by { hide NamesOk, SealingOk; }
    assert NamesOk(now) by { hide OffsetsOk, SealingOk, RetiredOk; }
    assert SealingOk(now) by { hide OffsetsOk, NamesOk, RetiredOk; }
    hide OffsetsOk, SealingOk, NamesOk, RetiredOk;
  }

  lemma RetainKeepsEvents(s: Store, now: Store, n: Name)
    requires KeptOk(s) && n in s.files && (n in s.retired ==> s.retired[n] == [])
    requires now.files == s.files - {n} && now.retired == s.retired[n := s.files[n]] && now.appended == s.appended
    ensures KeptOk(now)
  {
    forall m | m in s.files
      ensures Held(now, s.files[m])
    {
      RetainHolds(s, now, n, m);
    }
    hide KeptOk, Held;
    EventsStay(s, now);
  }

  /** What the process and the remote hold does not matter to names and events. */
  lemma SameFilesKeep(s: Store, now: Store)
    requires SealingOk(s) && NamesOk(s) && KeptOk(s)
    requires now.files == s.files && now.retired == s.retired && now.appended == s.appended && now.ids == s.ids
    requires (now.active == s.active || now.active == None) && (now.sealing == s.sealing || now.sealing == None)
    requires now.checkpoint.Keys + now.offsets.Keys <= s.checkpoint.Keys + s.offsets.Keys + s.files.Keys
    requires forall b :: Raw(b) in s.files && Get(now.checkpoint, Zst(b)) != 0 ==> Zst(b) in s.files
    ensures SealingOk(now) && NamesOk(now) && KeptOk(now)
  {
    hide In;
  }

  lemma SameRetiredKeep(s: Store, now: Store)
    requires RetiredOk(s) && now.files == s.files && now.retired == s.retired && now.objects == s.objects
    requires forall n :: Get(s.checkpoint, n) > 0 ==> Get(now.checkpoint, n) > 0
    ensures RetiredOk(now)
  {
    hide Copied;
  }

  lemma RetainHolds(s: Store, now: Store, n: Name, m: Name)
    requires m in s.files && n in s.files && now.files == s.files - {n} && now.retired == s.retired[n := s.files[n]]
    ensures Held(now, s.files[m])
  {
    assert n in now.retired;
    assert m != n ==> m in now.files;
  }

  lemma PutKeeps(s: Store, n: Name, size: int, rotate: int)
    requires rotate > 0 && Invariant(s) && Enabled(s, Put(n, size), rotate)
    ensures Invariant(Apply(s, Put(n, size), rotate))
  {
    var now := Apply(s, Put(n, size), rotate);
    var offset := Get(s.offsets, n);
    assert Copied(s.objects, n, s.files[n], offset);
    var o := Object(n, offset, size, s.files[n][offset..size]);
    assert now == s.(objects := s.objects + {o}, offsets := s.offsets[n := size], shipping := Some(Upload(n, offset)));
    hide Apply, Copied;
    SameFilesKeep(s, now);
    hide SealingOk, NamesOk, KeptOk;
    PutOffsets(s, now, o);
    hide OffsetsOk, RetiredOk;
  }

  lemma PutOffsets(s: Store, now: Store, o: Object)
    requires OffsetsOk(s) && RetiredOk(s) && s.loaded && s.sealing.None? && s.shipping.None?
    requires o.name in s.files && 0 <= o.from < o.to <= |s.files[o.name]|
    requires o.from == Get(s.offsets, o.name) && o.records == s.files[o.name][o.from..o.to]
    requires now ==
      s.(objects := s.objects + {o}, offsets := s.offsets[o.name := o.to], shipping := Some(Upload(o.name, o.from)))
    ensures OffsetsOk(now) && RetiredOk(now)
  {
    assert Copied(s.objects, o.name, s.files[o.name], o.from);
    PutCopies(s.objects, o, s.files[o.name]);
    MoreObjects(s, now);
    hide Copied;
  }

  lemma PutCopies(objects: set<Object>, o: Object, records: seq<Record>)
    requires Copied(objects, o.name, records, o.from) && o.from <= o.to <= |records|
        && o.records == records[o.from..o.to]
    ensures Copied(objects + {o}, o.name, records, o.to)
  {
    forall i | 0 <= i < o.to
      ensures HasCopy(objects + {o}, o.name, i, records[i])
    {
      if i < o.from {
        assert HasCopy(objects, o.name, i, records[i]);
      } else {
        assert o.records[i - o.from] == records[i];
      }
    }
  }

  /** What the objects of s hold, those of now hold too. */
  lemma MoreObjects(s: Store, now: Store)
    requires OffsetsOk(s) && RetiredOk(s) && s.objects <= now.objects
    ensures forall m :: m in s.files ==> Copied(now.objects, m, s.files[m], Get(s.checkpoint, m))
    ensures forall m :: m in s.files ==> Copied(now.objects, m, s.files[m], Get(s.offsets, m))
    ensures forall m :: m in s.retired ==> Copied(now.objects, m, s.retired[m], |s.retired[m]|)
  {
    forall m | m in s.files
      ensures Copied(now.objects, m, s.files[m], Get(s.checkpoint, m))
          && Copied(now.objects, m, s.files[m], Get(s.offsets, m))
    {
      CopiedMore(s.objects, now.objects, m, s.files[m], s.files[m], Get(s.checkpoint, m), Get(s.checkpoint, m));
      CopiedMore(s.objects, now.objects, m, s.files[m], s.files[m], Get(s.offsets, m), Get(s.offsets, m));
    }
    forall m | m in s.retired
      ensures Copied(now.objects, m, s.retired[m], |s.retired[m]|)
    {
      CopiedMore(s.objects, now.objects, m, s.retired[m], s.retired[m], |s.retired[m]|, |s.retired[m]|);
    }
  }

  lemma SaveFailsKeeps(s: Store, rotate: int)
    requires rotate > 0 && Invariant(s) && s.shipping.Some?
    ensures Invariant(Apply(s, SaveFails, rotate))
  {
    var u, now := s.shipping.value, Apply(s, SaveFails, rotate);
    assert now == s.(offsets := s.offsets[u.name := u.offset], shipping := None) && u.name in s.files;
    hide Apply, Copied;
    SameFilesKeep(s, now);
    hide SealingOk, NamesOk, KeptOk;
    SameRetiredKeep(s, now);
    hide RetiredOk;
    SaveFailsOffsets(s, now, u);
    hide OffsetsOk;
  }

  lemma SaveFailsOffsets(s: Store, now: Store, u: Upload)
    requires OffsetsOk(s) && s.shipping == Some(u)
        && now == s.(offsets := s.offsets[u.name := u.offset], shipping := None)
    ensures OffsetsOk(now)
  {
    assert 0 <= Get(s.checkpoint, u.name) <= u.offset <= Get(s.offsets, u.name);
    CopiedMore(s.objects, s.objects, u.name, s.files[u.name], s.files[u.name], u.offset, Get(s.offsets, u.name));
    hide Copied;
  }

  lemma LoadKeeps(s: Store, rotate: int)
    requires rotate > 0 && Invariant(s) && Enabled(s, LoadCheckpoint, rotate)
    ensures Invariant(Apply(s, LoadCheckpoint, rotate))
  {
    var now := Apply(s, LoadCheckpoint, rotate);
    assert now == s.(offsets := s.offsets + s.checkpoint, loaded := true) && s.shipping.None?;
    hide Apply, Enabled, Copied;
    SameFilesKeep(s, now);
    hide SealingOk, NamesOk, KeptOk;
    SameRetiredKeep(s, now);
    hide RetiredOk;
    LoadOffsets(s, now);
    hide OffsetsOk;
  }

  lemma LoadOffsets(s: Store, now: Store)
    requires OffsetsOk(s) && s.shipping.None? && now == s.(offsets := s.offsets + s.checkpoint, loaded := true)
    ensures OffsetsOk(now)
  {
    hide Copied;
  }

  lemma SaveKeeps(s: Store, rotate: int)
    requires rotate > 0 && Invariant(s) && s.shipping.Some?
    ensures Invariant(Apply(s, SaveCheckpoint, rotate))
  {
    var now := Apply(s, SaveCheckpoint, rotate);
    assert now == s.(checkpoint := s.offsets, shipping := None);
    hide Apply, Copied;
    SameFilesKeep(s, now);
    hide SealingOk, NamesOk, KeptOk;
    SameRetiredKeep(s, now);
    hide RetiredOk;
    SaveOffsets(s, now);
    hide OffsetsOk;
  }

  lemma SaveOffsets(s: Store, now: Store)
    requires OffsetsOk(s) && s.shipping.Some? && now == s.(checkpoint := s.offsets, shipping := None)
    ensures OffsetsOk(now)
  {
    hide Copied;
  }

  lemma CloseKeeps(s: Store, rotate: int)
    requires rotate > 0 && Invariant(s)
    ensures Invariant(Apply(s, CloseActive, rotate))
  {
    var now := Apply(s, CloseActive, rotate);
    assert now == s.(active := None);
    hide Apply, Copied;
    SameFilesKeep(s, now);
    hide SealingOk, NamesOk, KeptOk;
    SameRetiredKeep(s, now);
    hide RetiredOk;
  }

  lemma CrashKeeps(s: Store, rotate: int)
    requires rotate > 0 && Invariant(s)
    ensures Invariant(Apply(s, Crash, rotate))
  {
    var now := Apply(s, Crash, rotate);
    assert now == s.(active := None, sealing := None, offsets := map[], loaded := false, shipping := None);
    forall n | n in s.files
      ensures Copied(s.objects, n, s.files[n], 0)
    {
      NothingCopied(s.objects, n, s.files[n]);
    }
    hide Apply, Copied;
    SameFilesKeep(s, now);
    hide SealingOk, NamesOk, KeptOk;
    SameRetiredKeep(s, now);
    hide RetiredOk;
  }

  lemma ApplyKeepsInvariant(s: Store, a: Action, rotate: int)
    requires rotate > 0 && Invariant(s) && Enabled(s, a, rotate)
    ensures Invariant(Apply(s, a, rotate))
  {
    hide Invariant, Grow, Target;
    match a
    case Append(e, time, id) => GrowKeeps(s, time, id, rotate, [Line(e)], {e});
    case AppendFails(time, id, torn) => GrowKeeps(s, time, id, rotate, if torn then [Fragment] else [], {});
    case Compress(b) => CompressKeeps(s, b, rotate);
    case RemoveRaw => RemoveRawKeeps(s, rotate);
    case Retain(n) => RetainKeeps(s, n, rotate);
    case Put(n, size) => PutKeeps(s, n, size, rotate);
    case SaveFails => SaveFailsKeeps(s, rotate);
    case LoadCheckpoint => LoadKeeps(s, rotate);
    case SaveCheckpoint => SaveKeeps(s, rotate);
    case CloseActive => CloseKeeps(s, rotate);
    case Crash => CrashKeeps(s, rotate);
  }

  ghost predicate Possible(s: Store, run: seq<Action>, rotate: int)
    requires rotate > 0
    decreases |run|
  {
    run == [] || (Enabled(s, run[0], rotate) && Possible(Apply(s, run[0], rotate), run[1..], rotate))
  }

  ghost function After(s: Store, run: seq<Action>, rotate: int): Store
    requires rotate > 0
    decreases |run|
  {
    if run == [] then s else After(Apply(s, run[0], rotate), run[1..], rotate)
  }

  const FRESH := Store(map[], map[], {}, None, None, map[], false, None, {}, map[], {})

  /** Appends, seals, uploads, checkpoint saves that work or fail, retention and crashes
      keep the invariant in every order. */
  lemma {:induction false} RunsKeepInvariant(s: Store, run: seq<Action>, rotate: int)
    requires rotate > 0 && Invariant(s) && Possible(s, run, rotate)
    ensures Invariant(After(s, run, rotate))
    decreases |run|
  {
    if run != [] {
      ApplyKeepsInvariant(s, run[0], rotate);
      hide Invariant, Apply, Enabled;
      RunsKeepInvariant(Apply(s, run[0], rotate), run[1..], rotate);
    }
  }

  /** Some remote object holds the event. */
  ghost predicate Shipped(objects: set<Object>, e: int) {
    exists o :: o in objects && Line(e) in o.records
  }

  lemma HeldSafely(s: Store, e: int)
    requires Invariant(s) && e in s.appended
    ensures In(s.files, e) || Shipped(s.objects, e)
  {
    if !In(s.files, e) {
      assert In(s.retired, e);
      var n :| n in s.retired && Line(e) in s.retired[n];
      var i :| 0 <= i < |s.retired[n]| && s.retired[n][i] == Line(e);
      assert Copied(s.objects, n, s.retired[n], |s.retired[n]|);
      assert HasCopy(s.objects, n, i, Line(e));
      var o :| o in s.objects && o.name == n && o.from <= i < o.to && |o.records| == o.to - o.from
          && o.records[i - o.from] == Line(e);
      assert Line(e) in o.records;
    }
  }

  /** No appended event is ever lost: after any run, with crashes anywhere, it is in a
      local segment or in a remote object. */
  lemma NoEventIsLost(run: seq<Action>, rotate: int, e: int)
    requires rotate > 0 && Possible(FRESH, run, rotate)
    requires e in After(FRESH, run, rotate).appended
    ensures var s := After(FRESH, run, rotate); In(s.files, e) || Shipped(s.objects, e)
  {
    assert Invariant(FRESH);
    RunsKeepInvariant(FRESH, run, rotate);
    HeldSafely(After(FRESH, run, rotate), e);
  }

  // ---- Where an event is ----

  /** The period that starts at b.start holds the time; periods are multiples of rotate. */
  predicate InPeriod(b: Base, time: int, rotate: int)
    requires rotate > 0
  {
    b.start <= time < b.start + rotate && b.start % rotate == 0
  }

  lemma TargetInPeriod(s: Store, time: int, id: int, rotate: int)
    requires rotate > 0
    ensures InPeriod(Target(s, time, id, rotate), time, rotate)
  {
    var start := PeriodStart(time, rotate);
    assert start == rotate * (time / rotate) + 0;
    assert start % rotate == 0 by { MultipleOf(time / rotate, rotate); }
  }

  lemma MultipleOf(k: int, rotate: int)
    requires rotate > 0
    ensures (rotate * k) % rotate == 0
  {
    var q, r := (rotate * k) / rotate, (rotate * k) % rotate;
    assert rotate * (k - q) == r;
    if k > q {
      AtLeastOnce(k - q, rotate);
    } else if k < q {
      AtLeastOnce(q - k, rotate);
    }
  }

  lemma AtLeastOnce(k: int, rotate: int)
    requires k >= 1 && rotate > 0
    ensures rotate * k >= rotate
  {
  }

  /** Every event lies in a segment of its own period. */
  ghost predicate Placed(s: Store, times: int -> int, rotate: int)
    requires rotate > 0
  {
    && (forall n, e :: n in s.files && Line(e) in s.files[n] ==> InPeriod(n.base, times(e), rotate))
    && (forall n, e :: n in s.retired && Line(e) in s.retired[n] ==> InPeriod(n.base, times(e), rotate))
  }

  predicate OnTime(a: Action, times: int -> int) { a.Append? ==> a.time == times(a.event) }

  lemma PlacedStep(s: Store, a: Action, times: int -> int, rotate: int)
    requires rotate > 0 && Placed(s, times, rotate) && Enabled(s, a, rotate) && OnTime(a, times)
    ensures Placed(Apply(s, a, rotate), times, rotate)
  {
    hide InPeriod;
    match a
    case Append(e, time, id) => TargetInPeriod(s, time, id, rotate);
    case _ =>
  }

  /** Rotation, over whole runs: after any run in which each event is appended with its own
      time, every segment, local or retired, holds events of its own period only. */
  lemma {:induction false} RunsKeepPeriods(s: Store, run: seq<Action>, times: int -> int, rotate: int)
    requires rotate > 0 && Placed(s, times, rotate) && Possible(s, run, rotate)
    requires forall a :: a in run ==> OnTime(a, times)
    ensures Placed(After(s, run, rotate), times, rotate)
    decreases |run|
  {
    if run != [] {
      PlacedStep(s, run[0], times, rotate);
      hide Placed, Apply, Enabled;
      RunsKeepPeriods(Apply(s, run[0], rotate), run[1..], times, rotate);
    }
  }

  /** Remote objects rebuild every segment retention removed, record for record. */
  lemma RetiredIsShipped(run: seq<Action>, rotate: int, n: Name)
    requires rotate > 0 && Possible(FRESH, run, rotate)
    requires n in After(FRESH, run, rotate).retired
    ensures var s := After(FRESH, run, rotate); Copied(s.objects, n, s.retired[n], |s.retired[n]|)
  {
    assert Invariant(FRESH);
    RunsKeepInvariant(FRESH, run, rotate);
  }
}
