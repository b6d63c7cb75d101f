/**
 Removal and recovery of staged originals: `erase_owner`, `_remove_upload_directory` and
 `_cleanup_abandoned_instances`.

 Any fsync may fail, at any point; the method then raises. Each method leaves a ghost record of
 the file-system operations it performed, so that what holds between any two of them (where a
 crash, or another process, may come in) can be stated too.
 */
module UploadStorage {
  import opened Common
  import opened StagingDisk

  /** Who removes things, and what the locks it holds or fails to get allow it to remove. */
  datatype Actor =
    | Erasing(owner: Owner)
    | Recovering(live: set<Instance>, busy: set<(Instance, Owner)>)

  datatype Path = Path(states: seq<Disk>, ops: seq<DiskOp>)

  datatype Outcome = Done | Raised

  predicate Marker(e: Entry, i: Instance) {
    e.dir == Instances && e.name == InstanceName(i)
  }

  /** No owner's directory that is there holds one of instance `i`. */
  ghost predicate NoDirectoryOf(vol: set<Entry>, i: Instance) {
    forall e, u :: e in vol && InstanceEntry(e, u, i) ==> e.dir.entry !in vol
  }

  predicate Recoverable(actor: Actor, u: Owner, i: Instance) {
    match actor
    case Erasing(owner) => u == owner
    case Recovering(live, busy) => i !in live && (i, u) !in busy
  }

  ghost predicate May(actor: Actor, d: Disk, op: DiskOp) {
    match op
    case Sync(_) => true
    case Make(dir, name) => actor.Recovering? && dir == Instances && name.InstanceName?
    case Remove(e) =>
      match actor
      case Erasing(u) => InOwnerTree(e, u)
      case Recovering(live, _) =>
        || (exists u, i :: Recoverable(actor, u, i) && InInstanceTree(e, u, i))
        || (exists i :: Marker(e, i) && i !in live && NoDirectoryOf(d.vol, i))
  }

  /** A run of the actor's operations, each possible and allowed where it happens. */
  ghost predicate Legal(p: Path, actor: Actor) {
    && |p.states| == |p.ops| + 1
    && forall k :: 0 <= k < |p.ops| ==>
         && Possible(p.states[k], p.ops[k]) && May(actor, p.states[k], p.ops[k])
         && p.states[k + 1] == Apply(p.states[k], p.ops[k])
  }

  /** Under the owner's directory there are only instances' directories, and in those only files. */
  ghost predicate Regular(vol: set<Entry>, u: Owner) {
    forall e :: e in vol && e.dir.At? ==>
      && (OwnerEntry(e.dir.entry, u) ==> e.name.InstanceName?)
      && (e.dir.entry.dir.At? && OwnerEntry(e.dir.entry.dir.entry, u) ==> e.name.FileName?)
      && !(e.dir.entry.dir.At? && e.dir.entry.dir.entry.dir.At?
           && OwnerEntry(e.dir.entry.dir.entry.dir.entry, u))
  }

  ghost predicate HoldsBelowMarkers(vol: set<Entry>) {
    exists e :: e in vol && e.dir.At? && e.dir.entry.dir == Instances
  }

  /** Nothing is where the code does not expect it: only owners, instances, files, and markers. */
  ghost predicate AllRegular(vol: set<Entry>) {
    && (forall e :: e in vol && e.dir == Owners ==> e.name.OwnerName?)
    && (forall e :: e in vol && e.dir == Instances ==> e.name.InstanceName?)
    && !HoldsBelowMarkers(vol)
    && (forall u :: Regular(vol, u))
  }

  lemma RegularShrinks(vol: set<Entry>, less: set<Entry>, u: Owner)
    requires less <= vol && Regular(vol, u)
    ensures Regular(less, u)
  {
  }

  lemma AllRegularShrinks(vol: set<Entry>, less: set<Entry>)
    requires less <= vol && AllRegular(vol)
    ensures AllRegular(less)
  {
    forall u ensures Regular(less, u) {
      RegularShrinks(vol, less, u);
    }
  }

  lemma MarkersAreRegular(vol: set<Entry>, marker: Entry)
    requires AllRegular(vol) && marker.dir == Instances && marker.name.InstanceName?
    ensures AllRegular(vol + {marker})
  {
    forall u ensures Regular(vol + {marker}, u) {
      assert Regular(vol, u);
    }
  }

  lemma RegularListing(vol: set<Entry>, e: Entry)
    requires AllRegular(vol) && e in vol
    requires e.dir == Instances || (e.dir.At? && e.dir.entry in vol && e.dir.entry.dir == Owners)
    ensures e.name.InstanceName?
  {
    if e.dir.At? {
      assert Regular(vol, e.dir.entry.name.owner);
    }
  }

  class LocalUploadStorage {
    var disk: Disk
    ghost var path: Path
    /** How many fsyncs have failed. */
    ghost var failures: nat

    ghost predicate Valid(actor: Actor)
      reads this
    {
      Legal(path, actor) && path.states[|path.ops|] == disk
    }

    method Perform(op: DiskOp, ghost actor: Actor)
      requires Valid(actor) && Possible(disk, op) && May(actor, disk, op)
      modifies this`disk, this`path
      ensures Valid(actor) && disk == Apply(old(disk), op)
      ensures path == Path(old(path).states + [disk], old(path).ops + [op])
    {
      disk := Apply(disk, op);
      path := Path(path.states + [disk], path.ops + [op]);
    }

    /** `_sync_directory`: the directory becomes durable, or the call raises, as it does if it is gone. */
    method SyncDirectory(dir: Dir, ghost actor: Actor) returns (r: Outcome)
      requires Valid(actor)
      modifies this
      ensures Valid(actor) && old(path).states <= path.states
      ensures r == Done ==> disk == Apply(old(disk), Sync(dir)) && path.ops == old(path).ops + [Sync(dir)]
      ensures r == Raised ==> disk == old(disk) && path == old(path)
      ensures r == Done ==> failures == old(failures)
      ensures r == Raised ==> failures > old(failures) || !Linked(old(disk), dir)
    {
      if !Linked(disk, dir) {
        return Raised;
      }
      var succeeds: bool := *;
      if !succeeds {
        failures := failures + 1;
        return Raised;
      }
      Perform(Sync(dir), actor);
      return Done;
    }

    /** Unlinks every file in an instance's directory; anything else in there is an error. */
    method UnlinkFiles(directory: Entry, u: Owner, i: Instance, ghost actor: Actor) returns (r: Outcome)
      requires Valid(actor) && Recoverable(actor, u, i) && InstanceEntry(directory, u, i)
      requires directory in disk.vol
      modifies this
      ensures Valid(actor) && old(path).states <= path.states
      ensures disk.next == old(disk).next && disk.dur == old(disk).dur && disk.vol <= old(disk).vol
      ensures forall e :: e in old(disk).vol && e.dir != At(directory) ==> e in disk.vol
      ensures r == Done ==> IsEmpty(disk, At(directory))
      ensures failures == old(failures)
      ensures r == Raised ==> !Regular(old(disk).vol, u)
    {
      var todo := set e | e in disk.vol && e.dir == At(directory);
      while todo != {}
        invariant Valid(actor) && old(path).states <= path.states
        invariant disk.next == old(disk).next && disk.dur == old(disk).dur && disk.vol <= old(disk).vol
        invariant forall e :: e in old(disk).vol && e.dir != At(directory) ==> e in disk.vol
        invariant directory in disk.vol && failures == old(failures)
        invariant forall e :: e in todo <==> e in disk.vol && e.dir == At(directory)
      {
        var file :| file in todo;
        if !file.name.FileName? || !IsEmpty(disk, At(file)) {
          return Raised;
        }
        assert InInstanceTree(file, u, i) && InOwnerTree(file, u);
        Perform(Remove(file), actor);
        todo := todo - {file};
      }
      assert IsEmpty(disk, At(directory));
      r := Done;
    }

    /** `_remove_upload_directory` of an instance's directory below an owner's. */
    method RemoveUploadDirectory(parent: Entry, u: Owner, i: Instance, ghost actor: Actor)
      returns (r: Outcome)
      requires Valid(actor) && Recoverable(actor, u, i)
      requires parent in disk.vol && OwnerEntry(parent, u) && Functional(disk.vol)
      modifies this
      ensures Valid(actor) && old(path).states <= path.states
      ensures disk.vol <= old(disk).vol && disk.dur <= old(disk).dur + old(disk).vol
      ensures disk.next == old(disk).next
      ensures forall e :: e in old(disk).vol && !e.dir.At? ==> e in disk.vol
      ensures forall e :: e in old(disk).vol && e.dir == At(parent) && e.name != InstanceName(i) ==> e in disk.vol
      ensures r == Done ==> Removed(disk, At(parent), InstanceName(i))
      ensures r == Done ==> failures == old(failures)
      ensures r == Raised ==> failures > old(failures) || !Regular(old(disk).vol, u)
    {
      if !Present(disk, At(parent), InstanceName(i)) {
        r := SyncDirectory(At(parent), actor);
        return;
      }
      var directory :| directory in disk.vol && directory.dir == At(parent) && directory.name == InstanceName(i);
      assert InstanceEntry(directory, u, i);
      r := UnlinkFiles(directory, u, i, actor);
      if r == Raised {
        return;
      }
      r := SyncDirectory(At(directory), actor);
      if r == Raised {
        return;
      }
      r := DropDirectory(directory, parent, u, i, actor);
    }

    /** Removes the emptied directory of an instance and makes that durable. */
    method DropDirectory(directory: Entry, parent: Entry, u: Owner, i: Instance, ghost actor: Actor)
      returns (r: Outcome)
      requires Valid(actor) && Recoverable(actor, u, i) && Functional(disk.vol)
      requires parent in disk.vol && OwnerEntry(parent, u) && IsEmpty(disk, At(directory))
      requires directory in disk.vol && directory.dir == At(parent) && directory.name == InstanceName(i)
      modifies this
      ensures Valid(actor) && old(path).states <= path.states
      ensures disk.vol == old(disk).vol - {directory} && disk.next == old(disk).next
      ensures disk.dur <= old(disk).dur + disk.vol
      ensures r == Done ==> Removed(disk, At(parent), InstanceName(i))
      ensures if r == Done then failures == old(failures) else failures > old(failures)
    {
      assert InInstanceTree(directory, u, i) && InOwnerTree(directory, u);
      Perform(Remove(directory), actor);
      r := SyncDirectory(At(parent), actor);
    }

    /** The owner's part of `erase_owner` when its directory still exists. */
    method RemoveOwnerDirectory(parent: Entry, u: Owner) returns (r: Outcome)
      requires Valid(Erasing(u)) && parent in disk.vol && OwnerEntry(parent, u)
      requires Functional(disk.vol)
      modifies this
      ensures Valid(Erasing(u)) && old(path).states <= path.states
      ensures r == Done ==> NoOwnerDirectory(disk.vol, u) && EndsRemoving(path, parent)
      ensures r == Done ==> failures == old(failures)
      ensures r == Raised ==> failures > old(failures) || !Regular(old(disk).vol, u)
    {
      var todo := set e | e in disk.vol && e.dir == At(parent);
      while todo != {}
        invariant Valid(Erasing(u)) && old(path).states <= path.states
        invariant parent in disk.vol && Functional(disk.vol)
        invariant failures == old(failures) && disk.vol <= old(disk).vol
        invariant todo <= set e | e in old(disk).vol && e.dir == At(parent)
        invariant forall e :: e in disk.vol && e.dir == At(parent) ==> e in todo
      {
        var instance :| instance in todo;
        if !instance.name.InstanceName? {
          return Raised;
        }
        r := RemoveUploadDirectory(parent, u, instance.name.instance, Erasing(u));
        if r == Raised {
          return;
        }
        todo := todo - {instance};
      }
      r := SyncDirectory(At(parent), Erasing(u));
      if r == Raised {
        return;
      }
      Perform(Remove(parent), Erasing(u));
    }

    /**
     `erase_owner` under the owner's exclusive lock and the startup lock. It returns normally only
     after the barrier on the `owners` directory, which is raised even when the owner's directory
     is already gone; then neither the running system nor a crashed one has that directory. What it
     does last, after all else, is to remove the owner's entry, unless it was absent, and to sync.
     */
    method EraseOwner(u: Owner) returns (r: Outcome)
      requires Functional(disk.vol)
      modifies this
      ensures Valid(Erasing(u)) && path.states[0] == old(disk)
      ensures r == Done ==>
        && NoOwnerDirectory(disk.vol, u) && NoOwnerDirectory(disk.dur, u)
        && EraseShape(path, u)
      ensures r == Done ==> failures == old(failures)
      ensures r == Raised ==> failures > old(failures) || !Regular(old(disk).vol, u)
    {
      path := Path([disk], []);
      if Present(disk, Owners, OwnerName(u)) {
        var parent :| parent in disk.vol && parent.dir == Owners && parent.name == OwnerName(u);
        r := RemoveOwnerDirectory(parent, u);
        if r == Raised {
          return;
        }
        OwnerIsRemovedLast(path, u, parent, |path.ops| - 1);
      }
      r := SyncDirectory(Owners, Erasing(u));
    }

    /** Removes instance `i`'s directory from every owner whose lock is free. */
    method RecoverFromOwners(i: Instance, owners: set<Entry>, live: set<Instance>, busy: set<(Instance, Owner)>)
      returns (r: Outcome, complete: bool)
      requires Valid(Recovering(live, busy)) && i !in live && Functional(disk.vol)
      requires forall p :: p in owners ==> p in disk.vol && p.dir == Owners && p.name.OwnerName?
      modifies this
      ensures Valid(Recovering(live, busy)) && old(path).states <= path.states
      ensures Shrinks(old(disk), disk, i) && disk.vol <= old(disk).vol
      ensures forall e :: e in old(disk).vol && !e.dir.At? ==> e in disk.vol
      ensures r == Done ==> failures == old(failures)
      ensures r == Raised ==> failures > old(failures) || exists u :: !Regular(old(disk).vol, u)
      ensures r == Done ==> FreeOwnersCleared(disk, owners, i, busy)
      ensures r == Done ==> (complete <==> AllFree(owners, i, busy))
    {
      var todo := owners;
      complete := true;
      while todo != {}
        invariant Valid(Recovering(live, busy)) && old(path).states <= path.states
        invariant Shrinks(old(disk), disk, i) && disk.vol <= old(disk).vol && todo <= owners
        invariant forall e :: e in old(disk).vol && !e.dir.At? ==> e in disk.vol
        invariant failures == old(failures)
        invariant FreeOwnersCleared(disk, owners - todo, i, busy)
        invariant complete <==> AllFree(owners - todo, i, busy)
      {
        var parent :| parent in todo;
        var u := parent.name.owner;
        if (i, u) in busy {
          complete := false;
        } else {
          if Regular(old(disk).vol, u) {
            RegularShrinks(old(disk).vol, disk.vol, u);
          }
          label before:
          r := RemoveUploadDirectory(parent, u, i, Recovering(live, busy));
          if r == Raised {
            return;
          }
          ClearedStays(old@before(disk), disk, owners - todo, i, i, busy);
        }
        todo := todo - {parent};
      }
      assert owners - todo == owners;
      r := Done;
    }

    /** Opening a marker to lock it makes it if it is not there. */
    method OpenMarker(i: Instance, live: set<Instance>, busy: set<(Instance, Owner)>)
      requires Valid(Recovering(live, busy)) && Functional(disk.vol)
      modifies this`disk, this`path
      ensures Valid(Recovering(live, busy)) && old(path).states <= path.states
      ensures Functional(disk.vol) && Present(disk, Instances, InstanceName(i)) && disk.dur == old(disk).dur
      ensures disk.vol == old(disk).vol
        || disk.vol == old(disk).vol + {Entry(Instances, InstanceName(i), old(disk).next)}
      ensures AllRegular(old(disk).vol) ==> AllRegular(disk.vol)
    {
      if !Present(disk, Instances, InstanceName(i)) {
        OpsKeepWellFormedVol(disk, Make(Instances, InstanceName(i)));
        if AllRegular(disk.vol) {
          MarkersAreRegular(disk.vol, Entry(Instances, InstanceName(i), disk.next));
        }
        Perform(Make(Instances, InstanceName(i)), Recovering(live, busy));
        assert Entry(Instances, InstanceName(i), old(disk).next) in disk.vol;
      }
    }

    /** One turn of the recovery loop: instance `i`, whose marker lock may be held. */
    method RecoverInstance(i: Instance, owners: set<Entry>, live: set<Instance>, busy: set<(Instance, Owner)>)
      returns (r: Outcome)
      requires Valid(Recovering(live, busy)) && Functional(disk.vol)
      requires owners == TopLevel(disk) && forall p :: p in owners ==> p.name.OwnerName?
      modifies this
      ensures Valid(Recovering(live, busy)) && old(path).states <= path.states
      ensures TopLevel(disk) == owners
      ensures Functional(disk.vol) && Shrinks(old(disk), disk, i) && KeepsTop(old(disk), disk, i)
      ensures r == Done ==> failures == old(failures)
      ensures r == Raised ==> failures > old(failures) || !AllRegular(old(disk).vol)
      ensures AllRegular(old(disk).vol) ==> AllRegular(disk.vol)
      ensures r == Done && i !in live ==> FreeOwnersCleared(disk, owners, i, busy)
      ensures r == Done ==> MarkerSettled(disk, owners, i, live, busy)
    {
      OpenMarker(i, live, busy);
      if i in live {
        return Done;
      }
      ghost var made := disk.vol;
      var complete;
      r, complete := RecoverFromOwners(i, owners, live, busy);
      if r == Done {
        r := SettleMarker(i, owners, live, busy, complete);
      }
      if AllRegular(made) {
        AllRegularShrinks(made, disk.vol);
      }
    }

    /** Unlinks the marker when every owner was free, keeps it otherwise, and makes that durable. */
    method SettleMarker(i: Instance, owners: set<Entry>, live: set<Instance>, busy: set<(Instance, Owner)>,
                        complete: bool)
      returns (r: Outcome)
      requires Valid(Recovering(live, busy)) && Functional(disk.vol) && i !in live
      requires forall p :: p in owners ==> p.dir == Owners && p.name.OwnerName?
      requires forall p :: p in disk.vol && p.dir == Owners ==> p in owners
      requires FreeOwnersCleared(disk, owners, i, busy) && (complete <==> AllFree(owners, i, busy))
      requires Present(disk, Instances, InstanceName(i))
      modifies this
      ensures Valid(Recovering(live, busy)) && old(path).states <= path.states
      ensures Functional(disk.vol) && Shrinks(old(disk), disk, i) && KeepsTop(old(disk), disk, i)
      ensures FreeOwnersCleared(disk, owners, i, busy)
      ensures disk.vol <= old(disk).vol
      ensures r == Done ==> failures == old(failures)
      ensures r == Raised ==> failures > old(failures) || HoldsBelowMarkers(old(disk).vol)
      ensures r == Done ==> MarkerSettled(disk, owners, i, live, busy)
    {
      if complete {
        var marker :| marker in disk.vol && marker.dir == Instances && marker.name == InstanceName(i);
        NothingLeft(disk, owners, i, busy);
        if !IsEmpty(disk, At(marker)) {
          return Raised;
        }
        Perform(Remove(marker), Recovering(live, busy));
      } else {
        var synced: bool := *;
        if !synced {
          failures := failures + 1;
          return Raised;
        }
      }
      r := SyncDirectory(Instances, Recovering(live, busy));
    }

    /**
     `_cleanup_abandoned_instances`, for the marker locks (`live`) and owner locks (`busy`) it
     fails to get. When it returns normally, every known dead instance has lost its directory
     under every free owner, for good, and its marker is gone exactly when every owner was free.
     */
    method CleanupAbandonedInstances(live: set<Instance>, busy: set<(Instance, Owner)>) returns (r: Outcome)
      requires Functional(disk.vol)
      modifies this
      ensures Valid(Recovering(live, busy)) && path.states[0] == old(disk)
      ensures r == Done ==> forall i :: Known(old(disk).vol, i) ==>
        Settled(disk, TopLevel(old(disk)), i, live, busy)
      ensures MarkersGoLast(path, live)
      ensures r == Done ==> failures == old(failures)
      ensures r == Raised ==> failures > old(failures) || !AllRegular(old(disk).vol)
    {
      path := Path([disk], []);
      var owners := TopLevel(disk);
      if exists p :: p in owners && !p.name.OwnerName? {
        RecoveryUnlinksMarkersLast(path, live, busy);
        return Raised;
      }
      var listed := set e | e in disk.vol && (e.dir == Instances || (e.dir.At? && e.dir.entry in owners));
      if exists e :: e in listed && !e.name.InstanceName? {
        ghost var odd :| odd in listed && !odd.name.InstanceName?;
        if AllRegular(disk.vol) {
          RegularListing(disk.vol, odd);
        }
        RecoveryUnlinksMarkersLast(path, live, busy);
        return Raised;
      }
      var known := set e | e in listed :: e.name.instance;
      r := RecoverAll(known, owners, live, busy);
      RecoveryUnlinksMarkersLast(path, live, busy);
      if r == Raised {
        return;
      }
      label looped:
      r := SyncDirectory(Instances, Recovering(live, busy));
      RecoveryUnlinksMarkersLast(path, live, busy);
      forall i | Known(old(disk).vol, i) && r == Done ensures Settled(disk, owners, i, live, busy) {
        KnownIsListed(old(disk).vol, owners, listed, i);
        SyncKeepsSettled(old@looped(disk), owners, i, live, busy);
      }
    }

    method RecoverAll(known: set<Instance>, owners: set<Entry>, live: set<Instance>, busy: set<(Instance, Owner)>)
      returns (r: Outcome)
      requires Valid(Recovering(live, busy)) && Functional(disk.vol)
      requires owners == TopLevel(disk) && forall p :: p in owners ==> p.name.OwnerName?
      modifies this
      ensures Valid(Recovering(live, busy)) && old(path).states <= path.states
      ensures r == Done ==> failures == old(failures)
      ensures r == Raised ==> failures > old(failures) || !AllRegular(old(disk).vol)
      ensures r == Done ==> AllSettled(disk, owners, known, live, busy)
    {
      var todo := known;
      while todo != {}
        invariant Valid(Recovering(live, busy)) && old(path).states <= path.states
        invariant failures == old(failures) && (AllRegular(old(disk).vol) ==> AllRegular(disk.vol))
        invariant Functional(disk.vol) && owners == TopLevel(disk) && todo <= known
        invariant AllSettled(disk, owners, known - todo, live, busy)
      {
        var i :| i in todo;
        label turn:
        r := RecoverInstance(i, owners, live, busy);
        if r == Raised {
          return;
        }
        AllSettledStay(old@turn(disk), disk, owners, known - todo, i, live, busy);
        todo := todo - {i};
        assert known - todo == (known - (todo + {i})) + {i};
      }
      assert known - todo == known;
      r := Done;
    }
  }

  // ---- the order of an erasure ------------------------------------------------------------------

  predicate RemovesOwner(op: DiskOp, u: Owner) {
    op.Remove? && OwnerEntry(op.entry, u)
  }

  /** The last operation removes this entry, which was there until then. */
  ghost predicate EndsRemoving(p: Path, parent: Entry) {
    && p.ops != [] && |p.states| == |p.ops| + 1
    && p.ops[|p.ops| - 1] == Remove(parent) && parent in p.states[|p.ops| - 1].vol
  }

  /** The owner's entry is removed only right before the last operation, the sync of `owners`. */
  ghost predicate EraseShape(p: Path, u: Owner) {
    && p.ops != [] && |p.states| == |p.ops| + 1
    && p.ops[|p.ops| - 1] == Sync(Owners) && NoOwnerDirectory(p.states[|p.ops| - 1].vol, u)
    && forall k :: 0 <= k < |p.ops| - 2 ==> !RemovesOwner(p.ops[k], u)
  }

  /** An erasure makes nothing, so what is there at some point was there from the beginning. */
  lemma {:induction false} ErasureOnlyRemoves(p: Path, u: Owner, k: nat, n: nat, e: Entry)
    requires Legal(p, Erasing(u)) && k <= n <= |p.ops| && e in p.states[n].vol
    ensures e in p.states[k].vol
  {
    if k < n {
      assert May(Erasing(u), p.states[n - 1], p.ops[n - 1]);
      ErasureOnlyRemoves(p, u, k, n - 1, e);
    }
  }

  lemma OwnerIsRemovedLast(p: Path, u: Owner, parent: Entry, n: nat)
    requires Legal(p, Erasing(u)) && n <= |p.ops| && Functional(p.states[0].vol)
    requires OwnerEntry(parent, u) && parent in p.states[n].vol
    ensures forall k :: 0 <= k < n ==> !RemovesOwner(p.ops[k], u)
  {
    forall k | 0 <= k < n ensures !RemovesOwner(p.ops[k], u) {
      ErasureOnlyRemoves(p, u, k + 1, n, parent);
      ErasureOnlyRemoves(p, u, 0, n, parent);
      if RemovesOwner(p.ops[k], u) {
        ErasureOnlyRemoves(p, u, 0, k, p.ops[k].entry);
      }
    }
  }

  /** The owners' directories. */
  function TopLevel(d: Disk): set<Entry> {
    set p | p in d.vol && p.dir == Owners
  }

  /** The name is gone from the directory, before and after a crash. */
  ghost predicate Removed(d: Disk, dir: Dir, name: Name) {
    forall e :: e in d.vol || e in d.dur ==> !(e.dir == dir && e.name == name)
  }

  /** But for the marker of `i`, nothing appears that was not there, durably or not. */
  ghost predicate Shrinks(d: Disk, d': Disk, i: Instance) {
    forall e :: !Marker(e, i) ==>
      (e in d'.vol ==> e in d.vol) && (e in d'.dur ==> e in d.dur || e in d.vol)
  }

  /** The entries directly in `owners` and `instances` are still there, but for the marker of `i`. */
  ghost predicate KeepsTop(d: Disk, d': Disk, i: Instance) {
    forall e :: e in d.vol && !e.dir.At? && !Marker(e, i) ==> e in d'.vol
  }

  /** Instance `i` has no directory left, durably or not, under any of these owners that is free. */
  ghost predicate FreeOwnersCleared(d: Disk, owners: set<Entry>, i: Instance, busy: set<(Instance, Owner)>) {
    forall p :: p in owners && p.name.OwnerName? && (i, p.name.owner) !in busy ==>
      Removed(d, At(p), InstanceName(i))
  }

  predicate AllFree(owners: set<Entry>, i: Instance, busy: set<(Instance, Owner)>) {
    forall p :: p in owners && p.name.OwnerName? ==> (i, p.name.owner) !in busy
  }

  /** The marker is gone for good when the instance is dead and every owner free, else it is there. */
  ghost predicate MarkerSettled(d: Disk, owners: set<Entry>, i: Instance, live: set<Instance>,
                                busy: set<(Instance, Owner)>) {
    if i !in live && AllFree(owners, i, busy) then Removed(d, Instances, InstanceName(i))
    else Present(d, Instances, InstanceName(i))
  }

  ghost predicate Settled(d: Disk, owners: set<Entry>, i: Instance, live: set<Instance>,
                          busy: set<(Instance, Owner)>) {
    (i !in live ==> FreeOwnersCleared(d, owners, i, busy)) && MarkerSettled(d, owners, i, live, busy)
  }

  /** An instance that startup can find: by its marker, or by a directory under some owner. */
  ghost predicate Known(vol: set<Entry>, i: Instance) {
    || (exists e :: e in vol && Marker(e, i))
    || (exists e, u :: e in vol && InstanceEntry(e, u, i) && e.dir.entry in vol)
  }

  lemma KnownIsListed(vol: set<Entry>, owners: set<Entry>, listed: set<Entry>, i: Instance)
    requires Known(vol, i)
    requires owners == set p | p in vol && p.dir == Owners
    requires listed == set e | e in vol && (e.dir == Instances || (e.dir.At? && e.dir.entry in owners))
    ensures exists e :: e in listed && e.name == InstanceName(i)
  {
    if e :| e in vol && Marker(e, i) {
      assert e in listed;
    } else {
      var e, u :| e in vol && InstanceEntry(e, u, i) && e.dir.entry in vol;
      assert e in listed;
    }
  }

  lemma ClearedStays(d: Disk, d': Disk, owners: set<Entry>, i: Instance, j: Instance, busy: set<(Instance, Owner)>)
    requires Shrinks(d, d', j) && FreeOwnersCleared(d, owners, i, busy)
    ensures FreeOwnersCleared(d', owners, i, busy)
  {
  }

  lemma NothingLeft(d: Disk, owners: set<Entry>, i: Instance, busy: set<(Instance, Owner)>)
    requires FreeOwnersCleared(d, owners, i, busy) && AllFree(owners, i, busy)
    requires forall p :: p in d.vol && p.dir == Owners ==> p in owners
    ensures NoDirectoryOf(d.vol, i)
  {
    forall e, u | e in d.vol && InstanceEntry(e, u, i) ensures e.dir.entry !in d.vol {
      var p := e.dir.entry;
      assert p in owners ==> Removed(d, At(p), InstanceName(i));
    }
  }

  lemma SettledStays(d: Disk, d': Disk, owners: set<Entry>, j: Instance, i: Instance, live: set<Instance>,
                     busy: set<(Instance, Owner)>)
    requires Settled(d, owners, j, live, busy) && j != i && Shrinks(d, d', i) && KeepsTop(d, d', i)
    ensures Settled(d', owners, j, live, busy)
  {
    if j !in live {
      ClearedStays(d, d', owners, j, i, busy);
    }
    if Present(d, Instances, InstanceName(j)) {
      var e :| e in d.vol && e.dir == Instances && e.name == InstanceName(j);
      assert !Marker(e, i);
    }
  }

  ghost predicate AllSettled(d: Disk, owners: set<Entry>, ids: set<Instance>, live: set<Instance>,
                             busy: set<(Instance, Owner)>) {
    forall i :: i in ids ==> Settled(d, owners, i, live, busy)
  }

  lemma AllSettledStay(d: Disk, d': Disk, owners: set<Entry>, ids: set<Instance>, i: Instance,
                       live: set<Instance>, busy: set<(Instance, Owner)>)
    requires AllSettled(d, owners, ids, live, busy) && Shrinks(d, d', i) && KeepsTop(d, d', i)
    requires Settled(d', owners, i, live, busy)
    ensures AllSettled(d', owners, ids + {i}, live, busy)
  {
    forall j | j in ids && j != i ensures Settled(d', owners, j, live, busy) {
      SettledStays(d, d', owners, j, i, live, busy);
    }
  }

  lemma SyncKeepsSettled(d: Disk, owners: set<Entry>, i: Instance, live: set<Instance>, busy: set<(Instance, Owner)>)
    requires Settled(d, owners, i, live, busy)
    ensures Settled(Apply(d, Sync(Instances)), owners, i, live, busy)
  {
  }

  lemma OpsKeepWellFormedVol(d: Disk, op: DiskOp)
    requires Functional(d.vol) && Possible(d, op)
    ensures Functional(Apply(d, op).vol)
  {
  }

  // ---- what holds between any two operations --------------------------------------------------

  /** What the actor must leave alone. */
  ghost predicate Spared(actor: Actor, e: Entry) {
    match actor
    case Erasing(u) => !InOwnerTree(e, u)
    case Recovering(live, busy) =>
      || (exists u :: OwnerEntry(e, u))
      || (exists u, i :: InInstanceTree(e, u, i) && !Recoverable(actor, u, i))
      || (exists i :: Marker(e, i) && i in live)
  }

  lemma StepSpares(actor: Actor, d: Disk, op: DiskOp, e: Entry)
    requires Possible(d, op) && May(actor, d, op) && Spared(actor, e) && e in d.vol
    ensures e in Apply(d, op).vol
    ensures e in d.dur ==> e in Apply(d, op).dur
  {
    if op == Remove(e) && actor.Recovering? {
      if u, i :| Recoverable(actor, u, i) && InInstanceTree(e, u, i) {
        RecoverableIsNotSpared(actor, e, u, i);
      }
    }
  }

  lemma RecoverableIsNotSpared(actor: Actor, e: Entry, u: Owner, i: Instance)
    requires actor.Recovering? && Recoverable(actor, u, i) && InInstanceTree(e, u, i)
    ensures !Spared(actor, e)
  {
    InstanceTreeIsDeep(e, u, i);
    forall v, j | InInstanceTree(e, v, j) ensures Recoverable(actor, v, j) {
      TreesAreDisjoint(e, u, i, v, j);
    }
  }

  lemma InstanceTreeIsDeep(e: Entry, u: Owner, i: Instance)
    requires InInstanceTree(e, u, i)
    ensures e.dir.At?
  {
  }

  /**
   Whatever the actor must leave alone stays, at every point of its work and wherever it stops:
   for an erasure every other owner's files, for a starting process the files of live instances,
   of owners whose lock is held, and the markers of live instances. What was durable stays so.
   */
  lemma {:induction false} OthersAreSpared(p: Path, actor: Actor, k: nat, e: Entry)
    requires Legal(p, actor) && k <= |p.ops|
    requires Spared(actor, e) && e in p.states[0].vol
    ensures e in p.states[k].vol
    ensures e in p.states[0].dur ==> e in p.states[k].dur
  {
    if k > 0 {
      OthersAreSpared(p, actor, k - 1, e);
      StepSpares(actor, p.states[k - 1], p.ops[k - 1], e);
    }
  }

  /** A marker is only unlinked once no directory of its instance is left, and the instance is dead. */
  ghost predicate MarkersGoLast(p: Path, live: set<Instance>) {
    && |p.states| == |p.ops| + 1
    && forall k, e, i :: (0 <= k < |p.ops| && p.ops[k] == Remove(e) && Marker(e, i)) ==>
         i !in live && NoDirectoryOf(p.states[k].vol, i)
  }

  lemma RecoveryUnlinksMarkersLast(p: Path, live: set<Instance>, busy: set<(Instance, Owner)>)
    requires Legal(p, Recovering(live, busy))
    ensures MarkersGoLast(p, live)
  {
    forall k, e, i | 0 <= k < |p.ops| && p.ops[k] == Remove(e) && Marker(e, i)
      ensures i !in live && NoDirectoryOf(p.states[k].vol, i)
    {
      assert May(Recovering(live, busy), p.states[k], Remove(e));
      forall u, j | InInstanceTree(e, u, j) ensures false {
        InstanceTreeIsDeep(e, u, j);
      }
    }
  }

  /**
   A machine crash at any point of an erasure that has come past its final barrier, and at any
   point after it, brings nothing of the owner back.
   */
  lemma CrashAfterBarrierRestoresNothing(d: Disk, u: Owner)
    requires NoOwnerDirectory(d.vol, u) && NoOwnerDirectory(d.dur, u)
    ensures !HasOriginals(d.vol, u) && !HasOriginals(Crash(d).vol, u)
  {
    NoDirectoryNoOriginals(d.vol, u);
    NoDirectoryNoOriginals(d.dur, u);
  }
}
