/** The log and its shipper as one process runs them: Append, Segments, Seal and retention
    of internal/analytics/storage.go, ShipNow of internal/analytics/pipeline.go. Every
    method is a run of the state machine in EventLog, so an interruption after any of its
    steps is covered there. */
module EventLogProgram {
  import opened Wrappers
  import opened Sorting
  import opened EventLog

  datatype Segment = Segment(name: Name, size: int)

  // What the disk does with one appended line.
  datatype WriteOutcome = Complete | Nothing | Torn

  // What goes wrong with one segment of a shipping pass.
  datatype Fault = NoFault | PutRefused | SaveRefused

  function StartOf(segment: Segment): int { segment.name.base.start }

  function RemoveFile(files: map<Name, seq<Record>>, n: Name): map<Name, seq<Record>> {
    files - {n}
  }

  ghost predicate Steps(s: Store, run: seq<Action>, t: Store, rotate: int)
    requires rotate > 0
  {
    Possible(s, run, rotate) && After(s, run, rotate) == t
  }

  lemma NoSteps(s: Store, rotate: int)
    requires rotate > 0
    ensures Steps(s, [], s, rotate)
  {
  }

  /** One enabled action more. */
  lemma {:induction false} OneMoreStep(s: Store, run: seq<Action>, t: Store, a: Action, rotate: int)
    requires rotate > 0 && Steps(s, run, t, rotate) && Enabled(t, a, rotate)
    ensures Steps(s, run + [a], Apply(t, a, rotate), rotate)
    decreases |run|
  {
    hide Enabled, Apply;
    if run == [] {
      assert run + [a] == [a] && [a][1..] == [];
      NoSteps(Apply(t, a, rotate), rotate);
    } else {
      OneMoreStep(Apply(s, run[0], rotate), run[1..], t, a, rotate);
      assert (run + [a])[1..] == run[1..] + [a];
    }
  }

  /** A run and then another. */
  lemma {:induction false} StepsThenSteps(s: Store, run: seq<Action>, t: Store, more: seq<Action>, u: Store,
                                          rotate: int)
    requires rotate > 0 && Steps(s, run, t, rotate) && Steps(t, more, u, rotate)
    ensures Steps(s, run + more, u, rotate)
    decreases |more|
  {
    hide Enabled, Apply;
    if more == [] {
      assert run + more == run;
    } else {
      OneMoreStep(s, run, t, more[0], rotate);
      StepsThenSteps(s, run + [more[0]], Apply(t, more[0], rotate), more[1..], u, rotate);
      assert run + more == run + [more[0]] + more[1..];
    }
  }

  lemma StepsKeepInvariant(s: Store, run: seq<Action>, t: Store, rotate: int)
    requires rotate > 0 && Invariant(s) && Steps(s, run, t, rotate)
    ensures Invariant(t)
  {
    RunsKeepInvariant(s, run, rotate);
  }

  // The states of an event's life: appended, shipped, checkpointed, retired.
  function Stage(file: map<Name, seq<Record>>, sent: int, saved: int, retired: map<Name, seq<Record>>,
                 shipping: Option<Upload>): Store {
    var n := Raw(Base(0, 0));
    Store(file, if saved == 0 then map[] else map[n := saved], if sent == 0 then {} else {Object(n, 0, 1, [Line(7)])},
      if file == map[] then None else Some(Base(0, 0)), None, if sent == 0 then map[] else map[n := sent], true,
          shipping, {7}, retired, {1})
  }

  const FILE := map[Raw(Base(0, 0)) := [Line(7)]]

  lemma AppendedAndSent() returns (run: seq<Action>)
    ensures Steps(FRESH, run, Stage(FILE, 1, 0, map[], Some(Upload(Raw(Base(0, 0)), 0))), 1)
  {
    NoSteps(FRESH, 1);
    hide Steps;
    assert [Line(7)][0..1] == [Line(7)];
    run := TakeStep([], FRESH, EventLog.Append(7, 0, 1), Stage(FILE, 0, 0, map[], None).(loaded := false));
    run := TakeStep(run, Stage(FILE, 0, 0, map[], None).(loaded := false), LoadCheckpoint,
        Stage(FILE, 0, 0, map[], None));
    run := TakeStep(run, Stage(FILE, 0, 0, map[], None), Put(Raw(Base(0, 0)), 1),
        Stage(FILE, 1, 0, map[], Some(Upload(Raw(Base(0, 0)), 0))));
  }

  lemma SavedAndRetired() returns (run: seq<Action>)
    ensures Steps(FRESH, run, Stage(map[], 1, 1, FILE, None), 1)
  {
    run := AppendedAndSent();
    hide Steps;
    run := TakeStep(run, Stage(FILE, 1, 0, map[], Some(Upload(Raw(Base(0, 0)), 0))), SaveCheckpoint,
        Stage(FILE, 1, 1, map[], None));
    run := TakeStep(run, Stage(FILE, 1, 1, map[], None), Retain(Raw(Base(0, 0))), Stage(map[], 1, 1, FILE, None));
  }

  /** An event can be appended, shipped and retired, and a late event of the same period
      then goes to a segment of its own. */
  lemma LateEventAfterRetention() returns (run: seq<Action>)
    ensures Possible(FRESH, run, 1)
    ensures var s := After(FRESH, run, 1);
            s.appended == {7, 8} && s.files == map[Raw(Base(0, 2)) := [Line(8)]] && s.retired == FILE
  {
    run := SavedAndRetired();
    hide Possible, After;
    var late := Base(0, 2);
    run := TakeStep(run, Stage(map[], 1, 1, FILE, None), EventLog.Append(8, 0, 2),
      Stage(map[], 1, 1, FILE, None).(files := map[Raw(late) := [Line(8)]], active := Some(late), appended := {7, 8},
          ids := {1, 2}));
  }

  lemma TakeStep(run: seq<Action>, s: Store, a: Action, t: Store) returns (longer: seq<Action>)
    requires Steps(FRESH, run, s, 1) && Enabled(s, a, 1) && t == Apply(s, a, 1)
    ensures Steps(FRESH, longer, t, 1)
  {
    OneMoreStep(FRESH, run, s, a, 1);
    longer := run + [a];
  }

  /** A segment whose period ended by the given time. */
  predicate Ended(b: Base, before: int, rotate: int) { b.start + rotate <= before }

  /** Between calls the in-memory offsets are the durable ones, and only ended periods are
      compressed. */
  ghost predicate AtRest(s: Store, rotate: int, compress: bool, sealedBefore: int) {
    && Invariant(s) && s.sealing.None? && s.shipping.None?
    && (if s.loaded then forall n :: Get(s.offsets, n) == Get(s.checkpoint, n) else s.offsets == map[])
    && (forall b :: Zst(b) in s.files ==> compress && Ended(b, sealedBefore, rotate))
  }

  class Process {
    const rotate: int
    const compress: bool
    var files: map<Name, seq<Record>>
    var checkpoint: map<Name, int>
    var objects: set<Object>
    var active: Option<Base>
    var offsets: map<Name, int>
    var loaded: bool
    ghost var appended: set<int>
    ghost var retired: map<Name, seq<Record>>
    ghost var ids: set<int>
    ghost var sealedBefore: int

    ghost function State(): Store
      reads this
    {
      Store(files, checkpoint, objects, active, None, offsets, loaded, None, appended, retired, ids)
    }

    ghost predicate Valid()
      reads this
    {
      rotate > 0 && AtRest(State(), rotate, compress, sealedBefore)
    }

    constructor (rotate: int, compress: bool)
      requires rotate > 0
      ensures Valid() && State() == FRESH && this.rotate == rotate && this.compress == compress
    {
      this.rotate, this.compress := rotate, compress;
      files, checkpoint, objects, active, offsets, loaded := map[], map[], {}, None, map[], false;
      appended, retired, ids, sealedBefore := {}, map[], {}, 0;
    }

    /** One event; id is what NewID would return. */
    method Append(event: int, time: int, id: int, outcome: WriteOutcome) returns (ok: bool)
      requires Valid() && id > 0 && id !in ids
      modifies this`files, this`active, this`appended, this`ids
      ensures Valid()
      ensures ok <==> outcome == Complete
      ensures State() == Apply(old(State()), if ok then EventLog.Append(event, time, id)
          else AppendFails(time, id, outcome == Torn), rotate)
      ensures ok ==> event in appended
      ensures ok ==> exists b :: active == Some(b) && AppendedTo(b, old(files), files, event, time, rotate)
    {
      ghost var was := State();
      hide AtRest;
      var target := ChooseTarget(time, id);
      if outcome == Complete {
        AppendRests(was, EventLog.Append(event, time, id), rotate, compress, sealedBefore);
        TargetInPeriod(was, time, id, rotate);
        WrittenTo(was, target, event, time, id, rotate, compress, sealedBefore);
        hide *;
        Write(target, id, [Line(event)], {event});
        return true;
      } else {
        AppendRests(was, AppendFails(time, id, outcome == Torn), rotate, compress, sealedBefore);
        hide *;
        Write(target, id, if outcome == Torn then [Fragment] else [], {});
        return false;
      }
    }

    method ChooseTarget(time: int, id: int) returns (target: Base)
      requires rotate > 0
      ensures target == Target(State(), time, id, rotate)
    {
      target := Base(PeriodStart(time, rotate), 0);
      var sealed := Zst(target) in files;
      var shipped := false;
      if Raw(target) !in files {
        shipped := Raw(target) in checkpoint || Zst(target) in checkpoint;
      }
      if sealed || shipped {
        target := Base(target.start, id);
      }
    }

    /** Open the target unless it is the active file, then write to it. */
    method Write(target: Base, id: int, line: seq<Record>, ghost events: set<int>)
      requires active.Some? ==> Raw(active.value) in files
      modifies this`files, this`active, this`appended, this`ids
      ensures State() == Grow(old(State()), target, id, line, events)
    {
      ghost var was := State();
      if active != Some(target) {
        if Raw(target) !in files {
          files := files[Raw(target) := []];
        }
        active := Some(target);
      }
      OpenThenWrite(was, target, files, line);
      hide EventLog.Written;
      files := files[Raw(target) := files[Raw(target)] + line];
      appended := appended + events;
      ids := ids + {id};
    }

    /** The segments on disk, oldest period first. */
    method Segments() returns (out: seq<Segment>)
      ensures SortedBy(out, StartOf)
      ensures forall s :: s in out <==> s.name in files && s.size == |files[s.name]|
      ensures forall i, j :: 0 <= i < j < |out| ==> out[i].name != out[j].name
    {
      var all: seq<Segment> := [];
      var todo := files.Keys;
      while todo != {}
        invariant todo <= files.Keys
        invariant forall s :: s in all <==> s.name in files && s.name !in todo && s.size == |files[s.name]|
        invariant forall i, j :: 0 <= i < j < |all| ==> all[i].name != all[j].name
        decreases todo
      {
        var n :| n in todo;
        all := all + [Segment(n, |files[n]|)];
        todo := todo - {n};
      }
      out := SortBy(all, StartOf);
      SameMembers(out, all);
      PermutedDistinct(all, out);
    }

    /** Write the compressed copy under its final name, then remove the raw file. */
    method CompressOne(b: Base, ghost start: Store, ghost soFar: seq<Action>) returns (ghost run: seq<Action>)
      requires Valid() && compress && Ended(b, sealedBefore, rotate) && Raw(b) in files && active != Some(b)
      requires Steps(start, soFar, State(), rotate)
      modifies this`files
      ensures Valid() && Steps(start, run, State(), rotate)
      ensures files == RemoveFile(old(files)[Zst(b) := old(files)[Raw(b)]], Raw(b))
    {
      hide AtRest, Steps, RemoveFile;
      CompressSteps(State(), b, start, soFar, rotate, compress, sealedBefore);
      run := soFar + [Compress(b)] + [RemoveRaw];
      files := files[Zst(b) := files[Raw(b)]];
      files := RemoveFile(files, Raw(b));
    }

    /** Compress every raw segment whose period ended. */
    method CompressEnded(before: int, ghost start: Store, ghost soFar: seq<Action>) returns (ghost run: seq<Action>)
      requires Valid() && compress && sealedBefore <= before
      requires active.Some? ==> !Ended(active.value, before, rotate)
      requires Steps(start, soFar, State(), rotate)
      modifies this`files, this`sealedBefore
      ensures Valid() && sealedBefore == before
      ensures Steps(start, run, State(), rotate)
      ensures CompressedFrom(old(files), files, EndedRaw(old(files), before, rotate))
    {
      run := soFar;
      sealedBefore := before;
      var segments := Segments();
      ghost var was := files;
      ghost var done: set<Base> := {};
      hide Steps, AtRest, SortedBy, RemoveFile;
      for i := 0 to |segments|
        invariant Valid() && sealedBefore == before && Steps(start, run, State(), rotate)
        invariant done == EndedAmong(segments[..i], before, rotate)
        invariant CompressedFrom(was, files, done)
      {
        hide CompressedFrom;
        var n := segments[i].name;
        EndedNext(segments, i, before, rotate);
        if n.Raw? && Ended(n.base, before, rotate) {
          assert segments[i] in segments;
          CompressNext(was, files, done, n.base);
          run := CompressOne(n.base, start, run);
          done := done + {n.base};
        }
      }
      assert segments[..|segments|] == segments;
      AllEnded(was, segments, before, rotate);
    }

    /** Remove a segment the durable checkpoint records in full. */
    method RetainOne(n: Name, ghost start: Store, ghost soFar: seq<Action>) returns (ghost run: seq<Action>)
      requires Valid() && n in files && Get(checkpoint, n) == |files[n]|
      requires n.Zst? ==> Raw(n.base) !in files
      requires Steps(start, soFar, State(), rotate)
      modifies this`files, this`active, this`retired
      ensures Valid() && Steps(start, run, State(), rotate)
      ensures files == RemoveFile(old(files), n) && retired == old(retired)[n := old(files)[n]]
    {
      hide AtRest, Steps, RemoveFile;
      RetainSteps(State(), n, start, soFar, rotate, compress, sealedBefore);
      run := soFar + [Retain(n)];
      if n.Raw? && active == Some(n.base) {
        active := None;
      }
      retired := retired[n := files[n]];
      files := RemoveFile(files, n);
    }

    /** Remove every shipped segment whose period started before the cutoff. */
    method RetainExpired(cutoff: int, ghost start: Store, ghost soFar: seq<Action>) returns (ghost run: seq<Action>)
      requires Valid() && forall b :: Zst(b) in files ==> Raw(b) !in files
      requires Steps(start, soFar, State(), rotate)
      modifies this`files, this`active, this`retired
      ensures Valid() && Steps(start, run, State(), rotate)
      ensures forall n :: n in files <==>
                n in old(files) && !(n.base.start < cutoff && Get(checkpoint, n) == |old(files)[n]|)
      ensures forall n :: n in files ==> files[n] == old(files)[n]
      ensures forall n, time :: n in old(files) && InPeriod(n.base, time, rotate) && cutoff + rotate <= time ==>
                n in files
    {
      run := soFar;
      var segments := Segments();
      hide Steps, AtRest, SortedBy;
      ghost var was := files;
      for i := 0 to |segments|
        invariant Valid() && Steps(start, run, State(), rotate)
        invariant forall n :: n in files ==> n in was && files[n] == was[n]
        invariant forall k :: i <= k < |segments| ==> segments[k].name in files
        invariant forall k :: 0 <= k < i ==> (segments[k].name in files <==>
            !Expired(segments[k].name, was, checkpoint, cutoff))
      {
        var s := segments[i];
        assert s in segments;
        if s.name.base.start < cutoff && Get(checkpoint, s.name) == s.size {
          run := RetainOne(s.name, start, run);
        }
      }
      forall n | n in was
        ensures n in files <==> !Expired(n, was, checkpoint, cutoff)
      {
        assert Segment(n, |was[n]|) in segments;
      }
    }

    /** Seal: close an ended active segment, compress ended segments, remove shipped ones
        past retention (none when there is no retention). The clock does not go back. kept
        is what compression leaves, before anything is removed. */
    method Seal(before: int, cutoff: Option<int>) returns (ghost run: seq<Action>, ghost kept: map<Name, seq<Record>>)
      requires Valid() && sealedBefore <= before
      modifies this`files, this`active, this`retired, this`sealedBefore
      ensures Valid() && Steps(old(State()), run, State(), rotate)
      ensures sealedBefore == before
      ensures CompressedFrom(old(files), kept, if compress then EndedRaw(old(files), before, rotate) else {})
      ensures forall b :: Raw(b) in kept <==> Raw(b) in old(files) && !(compress && b.start + rotate <= before)
      ensures forall n :: n in files <==> n in kept && !(cutoff.Some? && Expired(n, kept, checkpoint, cutoff.value))
      ensures forall n :: n in files ==> files[n] == kept[n]
    {
      ghost var start := State();
      ghost var was := files;
      NoSteps(start, rotate);
      hide Steps, AtRest, Expired, CompressedFrom;
      run := CloseEnded(before, start, []);
      if compress {
        run := CompressEnded(before, start, run);
      } else {
        LaterSealed(State(), rotate, compress, sealedBefore, before);
        sealedBefore := before;
        NothingCompressed(was);
      }
      kept := files;
      if cutoff.Some? {
        NoRawTwin(State(), rotate, compress, before, was);
        run := RetainExpired(cutoff.value, start, run);
      }
    }

    method CloseEnded(before: int, ghost start: Store, ghost soFar: seq<Action>) returns (ghost run: seq<Action>)
      requires Valid() && Steps(start, soFar, State(), rotate)
      modifies this`active
      ensures Valid() && Steps(start, run, State(), rotate)
      ensures active.Some? ==> !Ended(active.value, before, rotate)
    {
      run := soFar;
      ghost var was := State();
      hide Invariant, Steps;
      if active.Some? && Ended(active.value, before, rotate) {
        ApplyKeepsInvariant(was, CloseActive, rotate);
        OneMoreStep(start, run, was, CloseActive, rotate);
        active := None;
        run := run + [CloseActive];
        assert State() == Apply(was, CloseActive, rotate);
      }
    }

    /** A new process over the same directory and remote store. */
    method Restart() returns (ghost run: seq<Action>)
      requires Valid()
      modifies this`active, this`offsets, this`loaded
      ensures Valid() && run == [Crash] && Steps(old(State()), run, State(), rotate)
    {
      ghost var was := State();
      ApplyKeepsInvariant(was, Crash, rotate);
      OneMoreStep(was, [], was, Crash, rotate);
      run := [] + [Crash];
      active, offsets, loaded := None, map[], false;
      assert State() == Apply(was, Crash, rotate);
    }

    method LoadOffsets(ghost start: Store, ghost soFar: seq<Action>) returns (ghost run: seq<Action>)
      requires Valid() && Steps(start, soFar, State(), rotate)
      modifies this`offsets, this`loaded
      ensures Valid() && loaded && Steps(start, run, State(), rotate)
    {
      run := soFar;
      if loaded { return; }
      ghost var was := State();
      assert Enabled(was, LoadCheckpoint, rotate);
      ApplyKeepsInvariant(was, LoadCheckpoint, rotate);
      hide Invariant, Steps;
      OneMoreStep(start, soFar, was, LoadCheckpoint, rotate);
      run := soFar + [LoadCheckpoint];
      offsets, loaded := offsets + checkpoint, true;
      assert State() == Apply(was, LoadCheckpoint, rotate);
    }

    /** Upload the records past the offset, then make the new offset durable; a failed save
        puts the old one back. */
    method ShipOne(s: Segment, fault: Fault, ghost start: Store, ghost soFar: seq<Action>)
      returns (ok: bool, ghost run: seq<Action>)
      requires Valid() && loaded && s.name in files && s.size == |files[s.name]|
      requires Steps(start, soFar, State(), rotate)
      modifies this`objects, this`offsets, this`checkpoint
      ensures Valid() && Steps(start, run, State(), rotate)
      ensures ok ==> Get(checkpoint, s.name) == s.size
      ensures forall n :: n != s.name ==> Get(checkpoint, n) == old(Get(checkpoint, n))
      ensures !ok ==> fault != NoFault && checkpoint == old(checkpoint)
    {
      OffsetIsSaved(State(), s.name, rotate, compress, sealedBefore);
      hide AtRest, Steps;
      var offset := Get(offsets, s.name);
      if offset > s.size {
        offset := 0;
      }
      if offset == s.size { return true, soFar; }
      if fault == PutRefused { return false, soFar; }
      run := Upload(s, offset, fault != SaveRefused, start, soFar);
      ok := fault != SaveRefused;
    }

    /** From offset to the end of the segment, then the checkpoint, unless saving it fails. */
    method Upload(s: Segment, offset: int, saved: bool, ghost start: Store, ghost soFar: seq<Action>)
      returns (ghost run: seq<Action>)
      requires Valid() && loaded && s.name in files && s.size == |files[s.name]|
      requires 0 <= offset == Get(offsets, s.name) < s.size && Steps(start, soFar, State(), rotate)
      modifies this`objects, this`offsets, this`checkpoint
      ensures Valid() && Steps(start, run, State(), rotate)
      ensures saved ==> Get(checkpoint, s.name) == s.size
      ensures forall n :: n != s.name ==> Get(checkpoint, n) == old(Get(checkpoint, n))
      ensures !saved ==> checkpoint == old(checkpoint)
    {
      hide AtRest, Steps, Get;
      ghost var was := State();
      ShipSteps(was, s.name, saved, start, soFar, rotate, compress, sealedBefore);
      run := soFar + [Put(s.name, s.size)] + [if saved then SaveCheckpoint else SaveFails];
      objects := objects + {Object(s.name, offset, s.size, files[s.name][offset..])};
      offsets := offsets[s.name := s.size];
      if saved {
        checkpoint := offsets;
      } else {
        offsets := offsets[s.name := offset];
      }
      assert State() == ShippedStore(was, s.name, saved);
    }

    /** One shipping pass. When it succeeds every local record is in the remote store, and
        retention may remove any segment. */
    method ShipNow(before: int, cutoff: Option<int>, faults: Name -> Fault) returns (ok: bool, ghost run: seq<Action>)
      requires Valid() && sealedBefore <= before
      modifies this`files, this`active, this`retired, this`sealedBefore, this`objects, this`offsets, this`checkpoint,
          this`loaded
      ensures Valid() && Steps(old(State()), run, State(), rotate)
      ensures ok ==> forall n :: n in files ==>
          Get(checkpoint, n) == |files[n]| && Copied(objects, n, files[n], |files[n]|)
      ensures (forall n :: faults(n) == NoFault) ==> ok
    {
      ghost var start := State();
      hide Steps, AtRest, SortedBy;
      ghost var kept;
      run, kept := Seal(before, cutoff);
      run := LoadOffsets(start, run);
      var segments := Segments();
      ok, run := ShipAll(segments, faults, start, run);
      if ok {
        forall n | n in files
          ensures Get(checkpoint, n) == |files[n]|
        {
          assert Segment(n, |files[n]|) in segments;
        }
        AllCopied(State(), rotate, compress, sealedBefore);
      }
    }

    method ShipAll(segments: seq<Segment>, faults: Name -> Fault, ghost start: Store, ghost soFar: seq<Action>)
      returns (ok: bool, ghost run: seq<Action>)
      requires Valid() && loaded && Steps(start, soFar, State(), rotate)
      requires forall s :: s in segments ==> s.name in files && s.size == |files[s.name]|
      requires forall i, j :: 0 <= i < j < |segments| ==> segments[i].name != segments[j].name
      modifies this`objects, this`offsets, this`checkpoint
      ensures Valid() && loaded && Steps(start, run, State(), rotate)
      ensures ok ==> forall s :: s in segments ==> Get(checkpoint, s.name) == s.size
      ensures (forall n :: faults(n) == NoFault) ==> ok
    {
      hide Steps, AtRest;
      run := soFar;
      ok := true;
      var i := 0;
      while ok && i < |segments|
        invariant 0 <= i <= |segments|
        invariant Valid() && loaded && Steps(start, run, State(), rotate)
        invariant ok ==> forall k :: 0 <= k < i ==> Get(checkpoint, segments[k].name) == segments[k].size
        invariant !ok ==> exists n :: faults(n) != NoFault
      {
        assert segments[i] in segments;
        var fault := faults(segments[i].name);
        ok, run := ShipOne(segments[i], fault, start, run);
        i := i + 1;
      }
    }
  }

  lemma LaterSealed(s: Store, rotate: int, compress: bool, sealedBefore: int, before: int)
    requires AtRest(s, rotate, compress, sealedBefore) && sealedBefore <= before
    ensures AtRest(s, rotate, compress, before)
  {
  }

  lemma NothingCompressed(was: map<Name, seq<Record>>)
    ensures CompressedFrom(was, was, {})
  {
  }

  /** Compression leaves no raw segment beside its compressed copy. */
  lemma NoRawTwin(s: Store, rotate: int, compress: bool, before: int, was: map<Name, seq<Record>>)
    requires AtRest(s, rotate, compress, before)
    requires CompressedFrom(was, s.files, if compress then EndedRaw(was, before, rotate) else {})
    ensures forall b :: Zst(b) in s.files ==> Raw(b) !in s.files
  {
  }

  lemma AppendRests(s: Store, a: Action, rotate: int, compress: bool, sealedBefore: int)
    requires rotate > 0 && AtRest(s, rotate, compress, sealedBefore)
    requires (a.Append? || a.AppendFails?) && Enabled(s, a, rotate)
    ensures AtRest(Apply(s, a, rotate), rotate, compress, sealedBefore)
    ensures s.active.Some? ==> Raw(s.active.value) in s.files
  {
    ApplyKeepsInvariant(s, a, rotate);
    var now := Apply(s, a, rotate);
    assert forall b :: Zst(b) in now.files ==> Zst(b) in s.files;
  }

  /** Opening the target for appending, then writing. */
  lemma OpenThenWrite(s: Store, target: Base, openFiles: map<Name, seq<Record>>, line: seq<Record>)
    requires s.active.Some? ==> Raw(s.active.value) in s.files
    requires openFiles == if Raw(target) in s.files then s.files else s.files[Raw(target) := []]
    ensures openFiles[Raw(target) := openFiles[Raw(target)] + line] == EventLog.Written(s, target, line)
  {
    assert [] + line == line;
  }

  lemma OffsetIsSaved(s: Store, n: Name, rotate: int, compress: bool, sealedBefore: int)
    requires AtRest(s, rotate, compress, sealedBefore) && s.loaded && n in s.files
    ensures 0 <= Get(s.offsets, n) == Get(s.checkpoint, n) <= |s.files[n]|
  {
    assert Copied(s.objects, n, s.files[n], Get(s.offsets, n));
  }

  /** The event is the last line of b's raw segment, which its time lies in; b has no
      compressed segment and no other file changes. */
  ghost predicate AppendedTo(b: Base, was: map<Name, seq<Record>>, now: map<Name, seq<Record>>, event: int, time: int,
                             rotate: int)
    requires rotate > 0
  {
    && InPeriod(b, time, rotate) && Zst(b) !in was
    && now == was[Raw(b) := (if Raw(b) in was then was[Raw(b)] else []) + [Line(event)]]
  }

  lemma WrittenTo(s: Store, b: Base, event: int, time: int, id: int, rotate: int, compress: bool, sealedBefore: int)
    requires rotate > 0 && AtRest(s, rotate, compress, sealedBefore) && id > 0 && id !in s.ids
    requires b == Target(s, time, id, rotate)
    ensures AppendedTo(b, s.files, Written(s, b, [Line(event)]), event, time, rotate)
  {
    TargetInPeriod(s, time, id, rotate);
    TargetIsUnused(s, time, id, rotate);
    assert s.active.Some? ==> Raw(s.active.value) in s.files;
    assert [] + [Line(event)] == [Line(event)];
    hide Invariant, InPeriod, Target;
  }

  /** Shipped in full and started before the cutoff. */
  predicate Expired(n: Name, files: map<Name, seq<Record>>, checkpoint: map<Name, int>, cutoff: int) {
    n in files && n.base.start < cutoff && Get(checkpoint, n) == |files[n]|
  }

  ghost function EndedRaw(files: map<Name, seq<Record>>, before: int, rotate: int): set<Base> {
    set n | n in files && n.Raw? && Ended(n.base, before, rotate) :: n.base
  }

  /** The raw segments of the done bases have become compressed ones with their records. */
  ghost predicate CompressedFrom(was: map<Name, seq<Record>>, now: map<Name, seq<Record>>, done: set<Base>) {
    && (forall b :: Raw(b) in now <==> Raw(b) in was && b !in done)
    && (forall b :: Zst(b) in now <==> Zst(b) in was || b in done)
    && (forall b :: b in done ==> Raw(b) in was && now[Zst(b)] == was[Raw(b)])
    && (forall n :: n in now && n.base !in done ==> now[n] == was[n])
  }

  lemma CompressNext(was: map<Name, seq<Record>>, now: map<Name, seq<Record>>, done: set<Base>, b: Base)
    requires CompressedFrom(was, now, done) && b !in done && Raw(b) in was
    ensures Raw(b) in now && CompressedFrom(was, RemoveFile(now[Zst(b) := now[Raw(b)]], Raw(b)), done + {b})
  {
  }

  ghost function EndedAmong(segments: seq<Segment>, before: int, rotate: int): set<Base> {
    set s | s in segments && s.name.Raw? && Ended(s.name.base, before, rotate) :: s.name.base
  }

  lemma EndedNext(segments: seq<Segment>, i: nat, before: int, rotate: int)
    requires i < |segments| && forall j, k :: 0 <= j < k < |segments| ==> segments[j].name != segments[k].name
    ensures var n := segments[i].name; var done := EndedAmong(segments[..i], before, rotate);
            EndedAmong(segments[..i + 1], before, rotate)
                == (if n.Raw? && Ended(n.base, before, rotate) then done + {n.base} else done)
            && (n.Raw? ==> n.base !in done)
  {
  }

  lemma AllEnded(was: map<Name, seq<Record>>, segments: seq<Segment>, before: int, rotate: int)
    requires forall s :: s in segments <==> s.name in was && s.size == |was[s.name]|
    ensures EndedRaw(was, before, rotate) == EndedAmong(segments, before, rotate)
  {
    forall n | n in was
      ensures exists s :: s in segments && s.name == n
    {
      assert Segment(n, |was[n]|) in segments;
    }
  }

  /** Compressing one ended segment is two steps of the machine. */
  lemma CompressSteps(s: Store, b: Base, start: Store, soFar: seq<Action>, rotate: int, compress: bool,
                      sealedBefore: int)
    requires rotate > 0 && AtRest(s, rotate, compress, sealedBefore) && Steps(start, soFar, s, rotate)
    requires compress && Ended(b, sealedBefore, rotate) && Raw(b) in s.files && s.active != Some(b)
    ensures var now := s.(files := RemoveFile(s.files[Zst(b) := s.files[Raw(b)]], Raw(b)));
            AtRest(now, rotate, compress, sealedBefore)
                && Steps(start, soFar + [Compress(b)] + [RemoveRaw], now, rotate)
  {
    hide Steps, Invariant;
    var middle := Apply(s, Compress(b), rotate);
    ApplyKeepsInvariant(s, Compress(b), rotate);
    ApplyKeepsInvariant(middle, RemoveRaw, rotate);
    OneMoreStep(start, soFar, s, Compress(b), rotate);
    OneMoreStep(start, soFar + [Compress(b)], middle, RemoveRaw, rotate);
  }

  /** One segment uploaded to its end, and the checkpoint saved or not. */
  ghost function ShippedStore(s: Store, n: Name, saved: bool): Store
    requires n in s.files && 0 <= Get(s.offsets, n) <= |s.files[n]|
  {
    var offset, size := Get(s.offsets, n), |s.files[n]|;
    var offsets := s.offsets[n := size];
    s.(objects := s.objects + {Object(n, offset, size, s.files[n][offset..])},
       offsets := if saved then offsets else offsets[n := offset],
       checkpoint := if saved then offsets else s.checkpoint)
  }

  lemma ShipSteps(s: Store, n: Name, saved: bool, start: Store, soFar: seq<Action>, rotate: int, compress: bool,
                  sealedBefore: int)
    requires rotate > 0 && AtRest(s, rotate, compress, sealedBefore) && Steps(start, soFar, s, rotate)
    requires s.loaded && n in s.files && 0 <= Get(s.offsets, n) < |s.files[n]|
    ensures var end := if saved then SaveCheckpoint else SaveFails;
            && AtRest(ShippedStore(s, n, saved), rotate, compress, sealedBefore)
            && Steps(start, soFar + [Put(n, |s.files[n]|)] + [end], ShippedStore(s, n, saved), rotate)
    ensures saved ==> Get(ShippedStore(s, n, saved).checkpoint, n) == |s.files[n]|
    ensures forall m :: m != n ==> Get(ShippedStore(s, n, saved).checkpoint, m) == Get(s.checkpoint, m)
  {
    hide Steps, Invariant;
    var size, end := |s.files[n]|, if saved then SaveCheckpoint else SaveFails;
    var put := Apply(s, Put(n, size), rotate);
    assert s.files[n][Get(s.offsets, n)..size] == s.files[n][Get(s.offsets, n)..];
    ApplyKeepsInvariant(s, Put(n, size), rotate);
    ApplyKeepsInvariant(put, end, rotate);
    OneMoreStep(start, soFar, s, Put(n, size), rotate);
    OneMoreStep(start, soFar + [Put(n, size)], put, end, rotate);
  }

  lemma RetainSteps(s: Store, n: Name, start: Store, soFar: seq<Action>, rotate: int, compress: bool, sealedBefore: int)
    requires rotate > 0 && AtRest(s, rotate, compress, sealedBefore) && Steps(start, soFar, s, rotate)
    requires n in s.files && Get(s.checkpoint, n) == |s.files[n]| && (n.Zst? ==> Raw(n.base) !in s.files)
    ensures var now := s.(files := RemoveFile(s.files, n), retired := s.retired[n := s.files[n]],
                          active := if n.Raw? && s.active == Some(n.base) then None else s.active);
            AtRest(now, rotate, compress, sealedBefore) && Steps(start, soFar + [Retain(n)], now, rotate)
  {
    hide Steps, Invariant;
    ApplyKeepsInvariant(s, Retain(n), rotate);
    OneMoreStep(start, soFar, s, Retain(n), rotate);
  }

  lemma AllCopied(s: Store, rotate: int, compress: bool, sealedBefore: int)
    requires AtRest(s, rotate, compress, sealedBefore)
    requires forall n :: n in s.files ==> Get(s.checkpoint, n) == |s.files[n]|
    ensures forall n :: n in s.files ==> Copied(s.objects, n, s.files[n], |s.files[n]|)
  {
  }
}
