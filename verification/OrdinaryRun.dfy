/**
 An ordinary run of the system of savers, ingesters and erasers: what its safety is about does happen. An
 upload is saved, parsed and recorded, and its owner's erasure then gets all the way to its answer.
 */
module OrdinaryRuns {
  import opened Common
  import opened StagingDisk
  import opened UploadStorage
  import opened ErasureSystem
  import opened StartupRecovery

  const ROW: nat := 4
  const FILE := Entry(At(ROOM), FileName(9), 3)

  /** Instance 5 is up, nothing is durable but what a later fsync makes so. */
  function Up(vol: set<Entry>, next: nat, rows: map<nat, Owner>, tasks: map<TaskId, Task>): System {
    System(Disk(vol, {}, next), {}, rows, tasks, {OLD}, {OLD}, {}, {}, {}, {})
  }

  function Saving(pc: SavePc): map<TaskId, Task> {
    map[2 := Saver(OLD, SOMEONE, pc)]
  }

  function Ingesting(pc: IngestPc): map<TaskId, Task> {
    map[3 := Ingester(OLD, SOMEONE, pc)]
  }

  function Erasing(pc: ErasePc): map<TaskId, Task> {
    map[4 := Eraser(OLD, SOMEONE, pc)]
  }

  lemma SaverMayWrite() returns (run: seq<Event>, s: System)
    ensures s == StateAfter(run) == Up({MARK}, 1, map[], Saving(SaveWriting))
  {
    run, s := OldInstanceStarts();
    run, s := Play(run, s, Arrive(2, Saver(OLD, SOMEONE, SaveCalled)));
    assert s == Up({MARK}, 1, map[], Saving(SaveCalled));
    run, s := Play(run, s, Admit(2));
    assert s == Up({MARK}, 1, map[], Saving(SaveWaiting));
    assert !Blocked(s, OwnerLock(SOMEONE), Shared);
    run, s := Play(run, s, Acquire(2));
    assert s == Up({MARK}, 1, map[], Saving(SaveLocked));
    run, s := Play(run, s, Admit(2));
  }

  lemma SaverWrites() returns (run: seq<Event>, s: System)
    ensures s == StateAfter(run) == Up({MARK, HOME, ROOM, FILE}, 4, map[], Saving(SaveWriting))
  {
    run, s := SaverMayWrite();
    run, s := Play(run, s, DiskStep(2, Make(Owners, OwnerName(SOMEONE))));
    assert s.disk.vol == {MARK, HOME};
    assert s == Up({MARK, HOME}, 2, map[], Saving(SaveWriting));
    run, s := Play(run, s, DiskStep(2, Make(At(HOME), InstanceName(OLD))));
    assert s.disk.vol == {MARK, HOME, ROOM};
    assert s == Up({MARK, HOME, ROOM}, 3, map[], Saving(SaveWriting));
    run, s := Play(run, s, DiskStep(2, Make(At(ROOM), FileName(9))));
    assert s.disk.vol == {MARK, HOME, ROOM, FILE};
  }

  /** The upload is saved, and its document recorded. */
  lemma UploadIsSaved() returns (run: seq<Event>, s: System)
    ensures s == StateAfter(run) == Up({MARK, HOME, ROOM, FILE}, 4, map[ROW := SOMEONE], map[])
  {
    run, s := SaverWrites();
    run, s := Play(run, s, Proceed(2));
    assert s == Up({MARK, HOME, ROOM, FILE}, 4, map[], Saving(SaveWritten));
    run, s := Play(run, s, Admit(2));
    assert s.tasks == map[];
    run, s := Play(run, s, InsertRow(ROW, SOMEONE));
  }

  lemma JobHoldsLock() returns (run: seq<Event>, s: System)
    ensures s == StateAfter(run) == Up({MARK, HOME, ROOM, FILE}, 4, map[ROW := SOMEONE], Ingesting(IngestLocked))
  {
    run, s := UploadIsSaved();
    run, s := Play(run, s, Arrive(3, Ingester(OLD, SOMEONE, IngestWaiting)));
    assert s.tasks == Ingesting(IngestWaiting);
    assert !Blocked(s, OwnerLock(SOMEONE), Shared);
    run, s := Play(run, s, Acquire(3));
    assert s.tasks == Ingesting(IngestLocked);
  }

  /** Its job holds the owner's lock, was admitted twice, and has the plaintext for its parser. */
  lemma UploadIsParsed() returns (run: seq<Event>, s: System)
    ensures s == StateAfter(run) == Up({MARK, HOME, ROOM, FILE}, 4, map[ROW := SOMEONE], Ingesting(IngestPlain))
  {
    run, s := JobHoldsLock();
    run, s := Play(run, s, Admit(3));
    assert s.tasks == Ingesting(IngestAdmitted);
    run, s := Play(run, s, Admit(3));
    assert s.tasks == Ingesting(IngestPlain);
  }

  /** At this point there is all that an erasure has to take away. */
  lemma SomethingOfTheOwner() returns (run: seq<Event>)
    ensures var s := StateAfter(run);
      && HasOriginals(s.disk.vol, SOMEONE) && ROW in s.rows && s.rows[ROW] == SOMEONE
      && 3 in s.tasks && s.tasks[3] == Ingester(OLD, SOMEONE, IngestPlain)
      && !NothingOf(s, SOMEONE)
  {
    var s;
    run, s := UploadIsParsed();
    assert OriginalEntry(FILE, SOMEONE, OLD) && Reachable(s.disk.vol, FILE);
  }

  /** The owner is fenced, and drained as soon as the eraser has the owner's lock. */
  function Fenced(vol: set<Entry>, drained: set<Owner>, tasks: map<TaskId, Task>): System {
    System(Disk(vol, {}, 4), {SOMEONE}, map[ROW := SOMEONE], tasks, {OLD}, {OLD}, drained, {}, {}, {})
  }

  lemma EraserDrains() returns (run: seq<Event>, s: System)
    ensures s == StateAfter(run) == Fenced({MARK, HOME, ROOM, FILE}, {}, Erasing(EraseWaitOwner))
  {
    run, s := UploadIsParsed();
    run, s := Play(run, s, Fails(3));
    assert s.tasks == map[];
    run, s := Play(run, s, Arrive(4, Eraser(OLD, SOMEONE, EraseCalled)));
    assert s.tasks == Erasing(EraseCalled);
    run, s := Play(run, s, Proceed(4));
    assert s == Fenced({MARK, HOME, ROOM, FILE}, {}, Erasing(EraseFenced));
    run, s := Play(run, s, Proceed(4));
    assert s == Fenced({MARK, HOME, ROOM, FILE}, {}, Erasing(EraseDraining));
    assert !StillDraining(s, s.tasks[4]);
    run, s := Play(run, s, Proceed(4));
  }

  lemma EraserMayRemove() returns (run: seq<Event>, s: System)
    ensures s == StateAfter(run) == Fenced({MARK, HOME, ROOM, FILE}, {SOMEONE}, Erasing(EraseRemoving))
  {
    run, s := EraserDrains();
    assert !Blocked(s, OwnerLock(SOMEONE), Exclusive);
    run, s := Play(run, s, Acquire(4));
    assert s == Fenced({MARK, HOME, ROOM, FILE}, {SOMEONE}, Erasing(EraseWaitStartup));
    assert !Blocked(s, StartupLock, Exclusive);
    run, s := Play(run, s, Acquire(4));
  }

  lemma EraserRemoves() returns (run: seq<Event>, s: System)
    ensures s == StateAfter(run) == Fenced({MARK}, {SOMEONE}, Erasing(EraseGone))
  {
    run, s := EraserMayRemove();
    run, s := Play(run, s, DiskStep(4, Remove(FILE)));
    assert s.disk.vol == {MARK, HOME, ROOM};
    assert s == Fenced({MARK, HOME, ROOM}, {SOMEONE}, Erasing(EraseRemoving));
    run, s := Play(run, s, DiskStep(4, Remove(ROOM)));
    assert s.disk.vol == {MARK, HOME};
    assert s == Fenced({MARK, HOME}, {SOMEONE}, Erasing(EraseRemoving));
    run, s := Play(run, s, DiskStep(4, Remove(HOME)));
    assert s.disk.vol == {MARK};
  }

  /** The barrier is passed: no directory of the owner, now or after a crash. */
  function Barred(
    rows: map<nat, Owner>, erased: set<Owner>, acknowledged: set<Owner>, tasks: map<TaskId, Task>): System
  {
    System(Disk({MARK}, {}, 4), {SOMEONE}, rows, tasks, {OLD}, {OLD}, {SOMEONE}, {SOMEONE}, erased, acknowledged)
  }

  lemma EraserIsBarred() returns (run: seq<Event>, s: System)
    ensures s == StateAfter(run) == Barred(map[ROW := SOMEONE], {}, {}, Erasing(EraseBarred))
  {
    run, s := EraserRemoves();
    run, s := Play(run, s, DiskStep(4, Sync(Owners)));
    assert s.disk.dur == {};
  }

  lemma EraserDeletesRows() returns (run: seq<Event>, s: System)
    ensures s == StateAfter(run) == Barred(map[], {SOMEONE}, {}, Erasing(EraseRowsGone))
  {
    run, s := EraserIsBarred();
    run, s := Play(run, s, Proceed(4));
    assert s == Barred(map[ROW := SOMEONE], {}, {}, Erasing(EraseReleased));
    run, s := Play(run, s, Proceed(4));
    assert s.rows == map[];
  }

  /** The erasure ends with nothing left of its owner, and is acknowledged. */
  lemma ErasureGoesThrough() returns (run: seq<Event>)
    ensures StateAfter(run) == Barred(map[], {SOMEONE}, {SOMEONE}, map[])
    ensures NothingOf(StateAfter(run), SOMEONE)
  {
    var s;
    run, s := EraserDeletesRows();
    run, s := Play(run, s, Proceed(4));
    assert s.tasks == map[];
    NoDirectoryNoOriginals(s.disk.vol, SOMEONE);
    NoDirectoryNoOriginals(s.disk.dur, SOMEONE);
  }

  // ---- a startup after a kill -------------------------------------------------------------------

  const NEXT_MARK := Entry(Instances, InstanceName(NEW), 4)

  function Starting(start: StartPc): map<TaskId, Task> {
    map[5 := Starter(NEW, start)]
  }

  function Killed(vol: set<Entry>, dur: set<Entry>, start: StartPc): System {
    System(Disk(vol, dur, 4), {}, map[ROW := SOMEONE], Starting(start), {}, {OLD, NEW}, {}, {}, {}, {})
  }

  function Seen(unread: set<Owner>, marked: bool, todo: set<Instance>): Scan {
    Scan({SOMEONE}, unread, marked, todo, {})
  }

  lemma NewInstanceHasLock() returns (run: seq<Event>, s: System)
    ensures s == StateAfter(run) == Killed({MARK, HOME, ROOM, FILE}, {}, StartLocked)
  {
    run, s := UploadIsSaved();
    run, s := Play(run, s, Kill(OLD));
    assert s.tasks == map[] && s.live == {};
    run, s := Play(run, s, Arrive(5, Starter(NEW, StartWaiting)));
    assert s == Killed({MARK, HOME, ROOM, FILE}, {}, StartWaiting);
    assert !Blocked(s, StartupLock, Exclusive);
    run, s := Play(run, s, Acquire(5));
  }

  lemma NewInstanceLists() returns (run: seq<Event>, s: System)
    ensures s == StateAfter(run) == Killed({MARK, HOME, ROOM, FILE}, {}, StartScanning(Seen({SOMEONE}, false, {})))
  {
    run, s := NewInstanceHasLock();
    assert OwnersIn(s.disk.vol) == {SOMEONE} by {
      assert HOME in s.disk.vol;
    }
    run, s := Play(run, s, ListOwners(5));
  }

  lemma NewInstanceReads() returns (run: seq<Event>, s: System)
    ensures s == StateAfter(run) == Killed({MARK, HOME, ROOM, FILE}, {}, StartScanning(Seen({SOMEONE}, true, {OLD})))
  {
    run, s := NewInstanceLists();
    assert MarkersIn(s.disk.vol) == {OLD} by {
      assert MARK in s.disk.vol;
    }
    assert Seen({SOMEONE}, false, {}).(marked := true, todo := {} + MarkersIn(s.disk.vol))
      == Seen({SOMEONE}, true, {OLD});
    run, s := Play(run, s, ReadMarkers(5));
    assert s.tasks == Starting(StartScanning(Seen({SOMEONE}, true, {OLD})));
  }

  lemma NewInstanceFinds() returns (run: seq<Event>, s: System)
    ensures s == StateAfter(run) == Killed({MARK, HOME, ROOM, FILE}, {}, StartScanning(Seen({}, true, {OLD})))
  {
    run, s := NewInstanceReads();
    assert {OLD} + InstancesIn(s.disk.vol, SOMEONE) == {OLD} && {SOMEONE} - {SOMEONE} == {};
    run, s := Play(run, s, ReadOwner(5, SOMEONE));
    assert s.tasks == Starting(StartScanning(Seen({}, true, {OLD})));
  }

  const FOUND := Scan({SOMEONE}, {}, true, {OLD}, {})

  lemma NewInstanceTries() returns (run: seq<Event>, s: System)
    ensures s == StateAfter(run) == Killed({MARK, HOME, ROOM, FILE}, {}, StartAtInstance(FOUND, OLD, {}))
  {
    run, s := NewInstanceFinds();
    assert !Blocked(s, MarkerLock(OLD), Exclusive);
    assert Present(s.disk, Instances, InstanceName(OLD)) by {
      assert MARK in s.disk.vol;
    }
    run, s := Play(run, s, TryMarker(5, OLD));
    assert s.tasks == Starting(StartAtInstance(FOUND, OLD, {}));
  }

  lemma NewInstanceVisits() returns (run: seq<Event>, s: System)
    ensures s == StateAfter(run)
      == Killed({MARK, HOME, ROOM, FILE}, {}, StartAtOwner(FOUND, OLD, {}, SOMEONE, false))
  {
    run, s := NewInstanceTries();
    assert !Blocked(s, OwnerLock(SOMEONE), Exclusive);
    run, s := Play(run, s, TryOwner(5, SOMEONE));
    assert s.tasks == Starting(StartAtOwner(FOUND, OLD, {}, SOMEONE, false));
  }

  lemma NewInstanceUnlinks() returns (run: seq<Event>, s: System)
    ensures s == StateAfter(run) == Killed({MARK, HOME, ROOM}, {}, StartAtOwner(FOUND, OLD, {}, SOMEONE, false))
  {
    run, s := NewInstanceVisits();
    run, s := Play(run, s, DiskStep(5, Remove(FILE)));
    assert s.disk.vol == {MARK, HOME, ROOM};
    assert s.tasks == Starting(StartAtOwner(FOUND, OLD, {}, SOMEONE, false));
  }

  lemma NewInstanceRemoves() returns (run: seq<Event>, s: System)
    ensures s == StateAfter(run) == Killed({MARK, HOME}, {}, StartAtOwner(FOUND, OLD, {}, SOMEONE, true))
  {
    run, s := NewInstanceUnlinks();
    run, s := Play(run, s, DiskStep(5, Remove(ROOM)));
    assert s.disk.vol == {MARK, HOME};
    assert s.tasks == Starting(StartAtOwner(FOUND, OLD, {}, SOMEONE, true));
  }

  lemma NewInstanceClears() returns (run: seq<Event>, s: System)
    ensures s == StateAfter(run) == Killed({MARK, HOME}, {}, StartAtInstance(FOUND, OLD, {SOMEONE}))
  {
    run, s := NewInstanceRemoves();
    run, s := Play(run, s, DiskStep(5, Sync(At(HOME))));
    assert s.disk.dur == {} && {} + {SOMEONE} == {SOMEONE};
    assert s.tasks == Starting(StartAtInstance(FOUND, OLD, {SOMEONE}));
  }

  lemma NewInstanceUnlinksMarker() returns (run: seq<Event>, s: System)
    ensures s == StateAfter(run) == Killed({HOME}, {}, StartUnlinked(FOUND, OLD))
  {
    run, s := NewInstanceClears();
    run, s := Play(run, s, DiskStep(5, Remove(MARK)));
    assert s.disk.vol == {HOME};
    assert s.tasks == Starting(StartUnlinked(FOUND, OLD));
  }

  lemma NewInstanceIsThrough() returns (run: seq<Event>, s: System)
    ensures s == StateAfter(run) == Killed({HOME}, {}, StartWaitMarker(Seen({}, true, {})))
  {
    run, s := NewInstanceUnlinksMarker();
    run, s := Play(run, s, DiskStep(5, Sync(Instances)));
    assert s.disk.dur == {} && {OLD} - {OLD} == {};
    assert s.tasks == Starting(StartScanning(Seen({}, true, {})));
    run, s := Play(run, s, Proceed(5));
    assert s.tasks == Starting(StartWaitMarker(Seen({}, true, {})));
  }

  /** The startup goes all the way: the dead instance's files are gone, and the new one is live. */
  lemma StartupGoesThrough() returns (run: seq<Event>)
    ensures var s := StateAfter(run);
      && s.live == {NEW} && s.tasks == map[] && s.disk.vol == {HOME, NEXT_MARK}
      && !HasOriginals(s.disk.vol, SOMEONE) && ROW in s.rows
  {
    var s;
    run, s := NewInstanceIsThrough();
    run, s := Play(run, s, DiskStep(5, Make(Instances, InstanceName(NEW))));
    assert s.disk.vol == {HOME, NEXT_MARK} && s.tasks == Starting(StartWaitMarker(Seen({}, true, {})));
    assert !Blocked(s, MarkerLock(NEW), Exclusive);
    run, s := Play(run, s, Acquire(5));
    assert s.tasks == map[];
  }
}
