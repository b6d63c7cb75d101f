/**
 Startup recovery among everything else: what a starting process may rely on while savers, ingesters
 and erasers of other instances go on, and what it has achieved when it takes its own marker.
 */
module StartupRecovery {
  import opened Common
  import opened StagingDisk
  import opened UploadStorage
  import opened ErasureSystem
  import opened ErasureLocks

  // ---- tasks belong to live instances -----------------------------------------------------------

  /** Only starting processes run for an instance that is not live, and every instance id was taken. */
  ghost predicate Homes(s: System) {
    && s.live <= s.used
    && forall t :: t in s.tasks ==> s.tasks[t].inst in s.used && (s.tasks[t].Starter? || s.tasks[t].inst in s.live)
  }

  lemma AdvanceKeepsHomes(s: System, t: TaskId)
    requires Homes(s) && t in s.tasks
    ensures Homes(Advance(s, t))
  {
    AdvanceGainsNothing(s, t);
    SameKind(s, t);
  }

  lemma SameKind(s: System, t: TaskId)
    requires t in s.tasks
    ensures var s' := Advance(s, t);
      && s'.used == s.used
      && (t in s'.tasks ==> s'.tasks[t].inst == s.tasks[t].inst && (s'.tasks[t].Starter? <==> s.tasks[t].Starter?))
  {
  }

  predicate Scans(ev: Event) {
    ev.ListOwners? || ev.ReadMarkers? || ev.ReadOwner? || ev.TryMarker? || ev.TryOwner?
  }

  lemma ScanningKeepsHomes(s: System, t: TaskId, ev: Event)
    requires Homes(s) && t in s.tasks
    ensures Homes(SetTask(s, t, Scanned(s, t, ev)))
  {
    ScanningStaysStarter(s, t, ev);
  }

  lemma NextKeepsHomes(s: System, ev: Event)
    requires Homes(s)
    ensures Homes(Next(s, ev))
  {
    if Scans(ev) {
      if ev.task in s.tasks {
        ScanningKeepsHomes(s, ev.task, ev);
      }
    } else if ev.Proceed? {
      if ev.task in s.tasks {
        AdvanceKeepsHomes(s, ev.task);
      }
    } else {
      OtherwiseKeepsHomes(s, ev);
    }
  }

  lemma OtherwiseKeepsHomes(s: System, ev: Event)
    requires Homes(s) && !Scans(ev) && !ev.Proceed?
    ensures Homes(Next(s, ev))
  {
  }

  lemma {:induction false} HomesHold(events: seq<Event>)
    ensures Homes(StateAfter(events))
  {
    if events != [] {
      HomesHold(events[..|events| - 1]);
      NextKeepsHomes(StateAfter(events[..|events| - 1]), events[|events| - 1]);
    }
  }

  /** What every state of every run satisfies. */
  ghost predicate Proper(s: System) {
    DiskSound(s) && Homes(s) && Exclusion(s)
  }

  lemma ProperHolds(events: seq<Event>)
    ensures Proper(StateAfter(events))
  {
    DiskStaysSound(events);
    HomesHold(events);
    ExclusionHolds(events);
  }

  lemma NextKeepsProper(s: System, ev: Event)
    requires Proper(s)
    ensures Proper(Next(s, ev))
  {
    NextKeepsDiskSound(s, ev);
    NextKeepsHomes(s, ev);
    NextKeepsExclusion(s, ev);
  }

  // ---- a dead instance gains nothing ------------------------------------------------------------

  /** The instance is over: its id is taken, and no task runs for it. */
  ghost predicate Over(s: System, i: Instance) {
    i in s.used && i !in s.live && forall t :: t in s.tasks ==> s.tasks[t].inst != i
  }

  /** A directory or an original of the owner, made by the instance. */
  predicate IsOf(e: Entry, u: Owner, i: Instance) {
    InstanceEntry(e, u, i) || OriginalEntry(e, u, i)
  }

  lemma StepMakesNothing(s: System, t: TaskId, op: DiskOp, e: Entry, u: Owner, i: Instance)
    requires Homes(s) && i !in s.live && IsOf(e, u, i)
    requires t in s.tasks && Performs(s.tasks[t], op) && e in Apply(s.disk, op).vol
    ensures e in s.disk.vol
  {
  }

  /** While an instance is not live, nothing of it appears, but for what a machine crash restores. */
  lemma NextMakesNothing(s: System, ev: Event, e: Entry, u: Owner, i: Instance)
    requires Homes(s) && i !in s.live && IsOf(e, u, i)
    ensures e in Next(s, ev).disk.vol && ev != MachineCrash ==> e in s.disk.vol
    ensures e in Next(s, ev).disk.vol || e in Next(s, ev).disk.dur ==> e in s.disk.vol || e in s.disk.dur
  {
    match ev
    case DiskStep(t, op) =>
      if Next(s, ev) != s && e in Apply(s.disk, op).vol {
        StepMakesNothing(s, t, op, e, u, i);
      }
    case Proceed(t) => if t in s.tasks { AdvanceKeepsDisk(s, t); }
    case _ =>
  }

  lemma NextKeepsOver(s: System, ev: Event, i: Instance)
    requires Homes(s) && Over(s, i)
    ensures Over(Next(s, ev), i)
  {
    if Scans(ev) {
      if ev.task in s.tasks {
        ScanningStaysStarter(s, ev.task, ev);
      }
    } else if ev.Proceed? {
      if ev.task in s.tasks {
        AdvanceGainsNothing(s, ev.task);
        SameKind(s, ev.task);
      }
    } else {
      OtherwiseKeepsOver(s, ev, i);
    }
  }

  lemma OtherwiseKeepsOver(s: System, ev: Event, i: Instance)
    requires Homes(s) && Over(s, i) && !Scans(ev) && !ev.Proceed?
    ensures Over(Next(s, ev), i)
  {
  }

  /**
   A dead instance gains no directory and no original, whatever follows: what there is of it later,
   present or durable, was there when it was over.
   */
  lemma {:induction false} DeadInstanceGainsNothing(
    events: seq<Event>, later: seq<Event>, e: Entry, u: Owner, i: Instance)
    requires Over(StateAfter(events), i) && IsOf(e, u, i)
    ensures Over(StateAfter(events + later), i)
    ensures var now, then' := StateAfter(events + later).disk, StateAfter(events).disk;
      e in now.vol || e in now.dur ==> e in then'.vol || e in then'.dur
  {
    if later == [] {
      assert events + later == events;
    } else {
      var front, ev := later[..|later| - 1], later[|later| - 1];
      DeadInstanceGainsNothing(events, front, e, u, i);
      HomesHold(events + front);
      OneMore(events + front, ev);
      assert events + later == events + front + [ev];
      NextKeepsOver(StateAfter(events + front), ev, i);
      NextMakesNothing(StateAfter(events + front), ev, e, u, i);
    }
  }

  // ---- what was visited stays cleared -----------------------------------------------------------

  /** No directory of the instance under the owner's present one, now or, for it, after a crash. */
  predicate Clean(d: Disk, u: Owner, i: Instance) {
    && (forall e :: e in d.vol && InstanceEntry(e, u, i) ==> e.dir.entry !in d.vol)
    && (forall e :: e in d.dur && InstanceEntry(e, u, i) ==> e.dir.entry !in d.vol)
  }

  /** A new directory has no entries yet, and only live instances make their own. */
  lemma StepKeepsClean(s: System, t: TaskId, op: DiskOp, u: Owner, i: Instance)
    requires Proper(s) && i !in s.live
    requires t in s.tasks && Performs(s.tasks[t], op) && Possible(s.disk, op)
    ensures NoDirectoryAt(s.disk.vol, u, i) ==> NoDirectoryAt(Apply(s.disk, op).vol, u, i)
    ensures Clean(s.disk, u, i) ==> Clean(Apply(s.disk, op), u, i)
  {
    var d, d' := s.disk, Apply(s.disk, op);
    forall e | InstanceEntry(e, u, i) && (e in d'.vol || e in d'.dur) && e.dir.entry in d'.vol
      ensures (e in d'.vol ==> e in d.vol) && (e in d.vol || e in d.dur) && e.dir.entry in d.vol
    {
      if e in d'.vol {
        StepMakesNothing(s, t, op, e, u, i);
      }
      if op.Make? {
        NewDirectoryIsEmpty(d, e, op.dir, op.name);
      }
    }
  }

  /** Where a starting process stands, its visits so far have had their effect. */
  predicate OnTrack(s: System, task: Task) {
    task.Starter? ==>
      match task.start
      case StartAtInstance(scan, i, cleared) => i !in s.live && forall u :: u in cleared ==> Clean(s.disk, u, i)
      case StartAtOwner(scan, i, cleared, u, gone) =>
        && i !in s.live && u in scan.listed && (gone ==> NoDirectoryAt(s.disk.vol, u, i))
        && forall v :: v in cleared ==> Clean(s.disk, v, i)
      case StartUnlinked(scan, i) => i !in s.live && forall u :: u in scan.listed ==> Clean(s.disk, u, i)
      case _ => true
  }

  lemma SameDirectory(d: Disk, e: Entry, f: Entry, u: Owner, i: Instance)
    requires WellFormed(d) && DirectoryAt(d.vol, e, u, i) && DirectoryAt(d.vol, f, u, i)
    ensures e == f
  {
    assert e.dir.entry == f.dir.entry;
  }

  /** With its entry removed, no directory of the instance is left under that owner. */
  lemma RemovedDirectoryIsGone(d: Disk, e: Entry, u: Owner, i: Instance)
    requires WellFormed(d) && Possible(d, Remove(e)) && InstanceEntry(e, u, i)
    ensures NoDirectoryAt(Apply(d, Remove(e)).vol, u, i)
  {
    forall f | f in d.vol && f != e ensures !DirectoryAt(d.vol - {e}, f, u, i) {
      if DirectoryAt(d.vol, f, u, i) {
        SameDirectory(d, e, f, u, i);
      }
    }
  }

  /** The fsync of the owner's directory then makes that durable. */
  lemma SyncedDirectoryIsClean(d: Disk, p: Entry, u: Owner, i: Instance)
    requires WellFormed(d) && p in d.vol && OwnerEntry(p, u) && NoDirectoryAt(d.vol, u, i)
    ensures Clean(Apply(d, Sync(At(p))), u, i)
  {
    var d' := Apply(d, Sync(At(p)));
    forall e | e in d'.dur && InstanceEntry(e, u, i) ensures e.dir.entry !in d'.vol {
      assert e in d.vol && e.dir.entry in d.vol ==> DirectoryAt(d.vol, e, u, i);
    }
    forall e | e in d'.vol && InstanceEntry(e, u, i) ensures e.dir.entry !in d'.vol {
      assert !DirectoryAt(d.vol, e, u, i);
    }
  }

  lemma OwnStepStaysOnTrack(s: System, t: TaskId, op: DiskOp)
    requires Proper(s) && t in s.tasks && OnTrack(s, s.tasks[t])
    requires Performs(s.tasks[t], op) && Possible(s.disk, op)
    ensures OnTrack(Next(s, DiskStep(t, op)), AfterDisk(s.tasks[t], op))
  {
    var task := s.tasks[t];
    if task.Starter? && (task.start.StartAtInstance? || task.start.StartAtOwner? || task.start.StartUnlinked?) {
      var i := task.start.instance;
      forall u ensures Clean(s.disk, u, i) ==> Clean(Apply(s.disk, op), u, i)
        ensures NoDirectoryAt(s.disk.vol, u, i) ==> NoDirectoryAt(Apply(s.disk, op).vol, u, i)
      {
        StepKeepsClean(s, t, op, u, i);
      }
      if task.start.StartAtOwner? {
        if task.start.gone {
          SyncedDirectoryIsClean(s.disk, op.dir.entry, task.start.owner, i);
        } else if op.Remove? && InstanceEntry(op.entry, task.start.owner, i) {
          RemovedDirectoryIsGone(s.disk, op.entry, task.start.owner, i);
        }
      }
    }
  }

  lemma OthersStepStaysOnTrack(s: System, t: TaskId, op: DiskOp, task: Task)
    requires Proper(s) && OnTrack(s, task)
    requires t in s.tasks && Performs(s.tasks[t], op) && Possible(s.disk, op)
    ensures OnTrack(Next(s, DiskStep(t, op)), task)
  {
    if task.Starter? && (task.start.StartAtInstance? || task.start.StartAtOwner? || task.start.StartUnlinked?) {
      forall u ensures Clean(s.disk, u, task.start.instance) ==> Clean(Apply(s.disk, op), u, task.start.instance)
        ensures NoDirectoryAt(s.disk.vol, u, task.start.instance)
          ==> NoDirectoryAt(Apply(s.disk, op).vol, u, task.start.instance)
      {
        StepKeepsClean(s, t, op, u, task.start.instance);
      }
    }
  }

  ghost predicate AllOnTrack(s: System) {
    forall t :: t in s.tasks ==> OnTrack(s, s.tasks[t])
  }

  lemma DiskStepKeepsTrack(s: System, t: TaskId, op: DiskOp)
    requires Proper(s) && AllOnTrack(s)
    ensures AllOnTrack(Next(s, DiskStep(t, op)))
  {
    var s' := Next(s, DiskStep(t, op));
    if s' != s {
      forall o | o in s'.tasks ensures OnTrack(s', s'.tasks[o]) {
        if o == t {
          OwnStepStaysOnTrack(s, t, op);
        } else {
          OthersStepStaysOnTrack(s, t, op, s.tasks[o]);
        }
      }
    }
  }

  lemma ScanningKeepsTrack(s: System, t: TaskId, ev: Event)
    requires AllOnTrack(s) && t in s.tasks
    ensures AllOnTrack(SetTask(s, t, Scanned(s, t, ev)))
  {
    assert OnTrack(s, s.tasks[t]);
  }

  /** A lock on a marker keeps its instance from coming to life. */
  lemma LockedMarkersStayDead(s: System, t: TaskId, o: TaskId, i: Instance)
    requires o in s.tasks && o != t && (MarkerLock(i), Exclusive) in Holds(o, s.tasks[o]) && i !in s.live
    ensures i !in Next(s, Acquire(t)).live
  {
  }

  lemma GrantKeepsOthersTrack(s: System, t: TaskId, o: TaskId)
    requires o in s.tasks && o != t && OnTrack(s, s.tasks[o])
    ensures OnTrack(Next(s, Acquire(t)), s.tasks[o])
  {
    var task := s.tasks[o];
    if task.Starter? && (task.start.StartAtInstance? || task.start.StartAtOwner? || task.start.StartUnlinked?) {
      LockedMarkersStayDead(s, t, o, task.start.instance);
      assert Next(s, Acquire(t)).disk == s.disk;
    }
  }

  lemma GrantKeepsTrack(s: System, t: TaskId)
    requires AllOnTrack(s)
    ensures AllOnTrack(Next(s, Acquire(t)))
  {
    var s' := Next(s, Acquire(t));
    forall o | o in s'.tasks && s' != s ensures OnTrack(s', s'.tasks[o]) {
      if o != t {
        GrantKeepsOthersTrack(s, t, o);
      }
    }
  }

  lemma AdvanceKeepsTrack(s: System, t: TaskId)
    requires AllOnTrack(s) && t in s.tasks
    ensures AllOnTrack(Advance(s, t))
  {
    AdvanceKeepsDisk(s, t);
    AdvanceGainsNothing(s, t);
    forall o | o in Advance(s, t).tasks ensures OnTrack(Advance(s, t), Advance(s, t).tasks[o]) {
      assert o in s.tasks && OnTrack(s, s.tasks[o]);
    }
  }

  lemma NextKeepsTrack(s: System, ev: Event)
    requires Proper(s) && AllOnTrack(s)
    ensures AllOnTrack(Next(s, ev))
  {
    match ev
    case DiskStep(t, op) => DiskStepKeepsTrack(s, t, op);
    case Acquire(t) => GrantKeepsTrack(s, t);
    case Proceed(t) => if t in s.tasks { AdvanceKeepsTrack(s, t); }
    case Observe(t) => ObservingKeepsTrack(s, t);
    case ListOwners(_) => ReadingKeepsTrack(s, ev);
    case ReadMarkers(_) => ReadingKeepsTrack(s, ev);
    case ReadOwner(_, _) => ReadingKeepsTrack(s, ev);
    case TryMarker(_, _) => ReadingKeepsTrack(s, ev);
    case TryOwner(_, _) => ReadingKeepsTrack(s, ev);
    case _ => OtherwiseKeepsTrack(s, ev);
  }

  lemma ReadingKeepsTrack(s: System, ev: Event)
    requires AllOnTrack(s) && Scans(ev)
    ensures AllOnTrack(Next(s, ev))
  {
    if ev.task in s.tasks {
      ScanningKeepsTrack(s, ev.task, ev);
    }
  }

  lemma ObservingKeepsTrack(s: System, t: TaskId)
    requires AllOnTrack(s)
    ensures AllOnTrack(Next(s, Observe(t)))
  {
    if t in s.tasks {
      assert OnTrack(s, s.tasks[t]);
    }
  }

  lemma OtherwiseKeepsTrack(s: System, ev: Event)
    requires AllOnTrack(s)
    requires ev.Arrive? || ev.Fails? || ev.Admit? || ev.Parse? || ev.InsertRow? || ev.DeleteRow? || ev.WritesBack?
      || ev.Kill? || ev.MachineCrash?
    ensures AllOnTrack(Next(s, ev))
  {
  }

  lemma {:induction false} TrackHolds(events: seq<Event>)
    ensures AllOnTrack(StateAfter(events))
  {
    if events != [] {
      TrackHolds(events[..|events| - 1]);
      ProperHolds(events[..|events| - 1]);
      NextKeepsTrack(StateAfter(events[..|events| - 1]), events[|events| - 1]);
    }
  }

  // ---- unlinking a marker -----------------------------------------------------------------------

  /** The starting process holds the lock of this instance's marker, and listed these owners. */
  predicate AtMarker(s: System, t: TaskId, i: Instance, listed: set<Owner>) {
    && t in s.tasks && s.tasks[t].Starter?
    && (s.tasks[t].start.StartAtInstance? || s.tasks[t].start.StartAtOwner?)
    && s.tasks[t].start.instance == i && s.tasks[t].start.scan.listed == listed
  }

  /** The process has the startup lock. */
  predicate InTenure(s: System, t: TaskId) {
    t in s.tasks && s.tasks[t].Starter? && s.tasks[t].start != StartWaiting
  }

  lemma RemoverHoldsStartup(t: TaskId, task: Task, e: Entry)
    requires Performs(task, Remove(e)) && !e.name.FileName?
    ensures (StartupLock, Exclusive) in Holds(t, task)
  {
  }

  /** Directories and markers are removed by nobody else while a process is starting. */
  lemma OnlyTheStarterRemoves(s: System, t: TaskId, o: TaskId, e: Entry)
    requires Proper(s) && InTenure(s, t) && o in s.tasks && Performs(s.tasks[o], Remove(e)) && !e.name.FileName?
    ensures o == t
  {
    RemoverHoldsStartup(o, s.tasks[o], e);
    assert (StartupLock, Exclusive) in Holds(t, s.tasks[t]);
  }

  /** A visit of a listed owner removes no directory of another, and no owner's directory. */
  lemma VisitRemovesItsOwn(s: System, t: TaskId, e: Entry, f: Entry, u: Owner, i: Instance)
    requires AllOnTrack(s) && InTenure(s, t) && Performs(s.tasks[t], Remove(e)) && s.tasks[t].start.StartAtOwner?
    requires u !in s.tasks[t].start.scan.listed && InstanceEntry(f, u, i)
    ensures e != f && e != f.dir.entry
  {
    var start := s.tasks[t].start;
    assert OnTrack(s, s.tasks[t]);
    InstanceTreeIsDeep(e, start.owner, start.instance);
    if e == f {
      TreesAreDisjoint(e, start.owner, start.instance, u, i);
    }
  }

  lemma RemovalLeavesUnlisted(
    s: System, o: TaskId, x: Entry, t: TaskId, i: Instance, listed: set<Owner>, e: Entry, u: Owner)
    requires Proper(s) && AllOnTrack(s) && u !in listed && DirectoryAt(s.disk.vol, e, u, i)
    requires AtMarker(s, t, i, listed) && o in s.tasks && Performs(s.tasks[o], Remove(x))
    requires o == t ==> s.tasks[t].start.StartAtOwner?
    ensures x != e && x != e.dir.entry
  {
    if x == e || x == e.dir.entry {
      OnlyTheStarterRemoves(s, t, o, x);
      VisitRemovesItsOwn(s, t, x, e, u, i);
    }
  }

  /** The directories of an instance that are reachable under a new owner's are what they were. */
  lemma DirectoryStays(s: System, ev: Event, t: TaskId, i: Instance, listed: set<Owner>, e: Entry, u: Owner)
    requires Proper(s) && AllOnTrack(s) && u !in listed && DirectoryAt(s.disk.vol, e, u, i)
    requires AtMarker(s, t, i, listed) && AtMarker(Next(s, ev), t, i, listed)
    ensures DirectoryAt(Next(s, ev).disk.vol, e, u, i)
  {
    if ev.DiskStep? && Next(s, ev) != s && ev.op.Remove? {
      RemovalLeavesUnlisted(s, ev.task, ev.op.entry, t, i, listed, e, u);
    }
    if ev.Proceed? && ev.task in s.tasks {
      AdvanceKeepsDisk(s, ev.task);
    }
  }

  /** No directory of an instance that is not live becomes reachable. */
  lemma NoDirectoryAppears(s: System, ev: Event, e: Entry, u: Owner, i: Instance)
    requires Proper(s) && i !in s.live && ev != MachineCrash
    ensures DirectoryAt(Next(s, ev).disk.vol, e, u, i) ==> DirectoryAt(s.disk.vol, e, u, i)
  {
    if DirectoryAt(Next(s, ev).disk.vol, e, u, i) {
      NextMakesNothing(s, ev, e, u, i);
      if ev.DiskStep? && Next(s, ev) != s && ev.op.Make? {
        NewDirectoryIsEmpty(s.disk, e, ev.op.dir, ev.op.name);
      }
      if ev.Proceed? && ev.task in s.tasks {
        AdvanceKeepsDisk(s, ev.task);
      }
    }
  }

  /** Some owner whose directory appeared after the listing holds a directory of the instance. */
  ghost predicate UnlistedHolds(vol: set<Entry>, listed: set<Owner>, i: Instance) {
    exists e, u :: u !in listed && DirectoryAt(vol, e, u, i)
  }

  lemma UnlistedStays(s: System, ev: Event, t: TaskId, i: Instance, listed: set<Owner>)
    requires Proper(s) && AllOnTrack(s)
    requires AtMarker(s, t, i, listed) && AtMarker(Next(s, ev), t, i, listed)
    ensures UnlistedHolds(s.disk.vol, listed, i) <==> UnlistedHolds(Next(s, ev).disk.vol, listed, i)
  {
    assert OnTrack(s, s.tasks[t]) && ev != MachineCrash;
    forall e, u | u !in listed
      ensures DirectoryAt(s.disk.vol, e, u, i) <==> DirectoryAt(Next(s, ev).disk.vol, e, u, i)
    {
      if DirectoryAt(s.disk.vol, e, u, i) {
        DirectoryStays(s, ev, t, i, listed, e, u);
      }
      NoDirectoryAppears(s, ev, e, u, i);
    }
  }

  lemma {:induction false} UnlistedStaysOverRuns(
    events: seq<Event>, later: seq<Event>, t: TaskId, i: Instance, listed: set<Owner>)
    requires forall k :: 0 <= k <= |later| ==> AtMarker(StateAfter(events + later[..k]), t, i, listed)
    ensures UnlistedHolds(StateAfter(events).disk.vol, listed, i)
      <==> UnlistedHolds(StateAfter(events + later).disk.vol, listed, i)
  {
    if later == [] {
      assert events + later == events;
    } else {
      var front, ev := later[..|later| - 1], later[|later| - 1];
      forall k | 0 <= k <= |front| ensures AtMarker(StateAfter(events + front[..k]), t, i, listed) {
        assert front[..k] == later[..k];
      }
      UnlistedStaysOverRuns(events, front, t, i, listed);
      assert front[..|front|] == front && later[..|later|] == later;
      ProperHolds(events + front);
      TrackHolds(events + front);
      OneMore(events + front, ev);
      assert events + later == events + front + [ev];
      UnlistedStays(StateAfter(events + front), ev, t, i, listed);
    }
  }

  /** The step that unlinks the marker of `i`. */
  predicate Unlinks(s: System, t: TaskId, m: Entry, i: Instance) {
    && t in s.tasks && s.tasks[t].Starter? && Marker(m, i)
    && Performs(s.tasks[t], Remove(m)) && Possible(s.disk, Remove(m))
  }

  /**
   When a marker is unlinked its instance is dead, and whatever directory of it is still there stands
   under an owner whose directory was made after the owners were listed.
   */
  lemma UnlinkedMarkersLeaveOnlyUnlisted(events: seq<Event>, t: TaskId, m: Entry, i: Instance)
    requires Unlinks(StateAfter(events), t, m, i)
    ensures var s := StateAfter(events);
      && s.tasks[t].start.StartAtInstance? && s.tasks[t].start.instance == i && i !in s.live
      && (NoDirectoryOf(s.disk.vol, i) <==> !UnlistedHolds(s.disk.vol, s.tasks[t].start.scan.listed, i))
  {
    var s := StateAfter(events);
    TrackHolds(events);
    assert OnTrack(s, s.tasks[t]);
    if s.tasks[t].start.StartAtOwner? {
      InstanceTreeIsDeep(m, s.tasks[t].start.owner, s.tasks[t].start.instance);
    }
    var listed := s.tasks[t].start.scan.listed;
    forall e, u ensures DirectoryAt(s.disk.vol, e, u, i) ==> u !in listed {
      if u in listed {
        assert Clean(s.disk, u, i);
      }
    }
    NoDirectoryMeans(s.disk.vol, i);
  }

  lemma NoDirectoryMeans(vol: set<Entry>, i: Instance)
    ensures NoDirectoryOf(vol, i) <==> forall e, u :: !DirectoryAt(vol, e, u, i)
  {
    if forall e, u :: !DirectoryAt(vol, e, u, i) {
      forall e, u | e in vol && InstanceEntry(e, u, i) ensures e.dir.entry !in vol {
        assert !DirectoryAt(vol, e, u, i);
      }
    }
  }

  /**
   Exactly when the marker's removal leaves no directory of the instance: if, at the moment the marker
   was locked, every owner with a directory of the instance was among those listed before.
   */
  lemma MarkerIsUnlinkedLastIff(
    events: seq<Event>, later: seq<Event>, t: TaskId, i: Instance, listed: set<Owner>, m: Entry)
    requires forall k :: 0 <= k <= |later| ==> AtMarker(StateAfter(events + later[..k]), t, i, listed)
    requires Unlinks(StateAfter(events + later), t, m, i)
    ensures NoDirectoryOf(StateAfter(events + later).disk.vol, i)
      <==> forall e, u :: DirectoryAt(StateAfter(events).disk.vol, e, u, i) ==> u in listed
  {
    UnlistedStaysOverRuns(events, later, t, i, listed);
    UnlinkedMarkersLeaveOnlyUnlisted(events + later, t, m, i);
    assert later[..|later|] == later;
  }

  /** Whatever was visited is gone for good: no path leads to it now, nor would after a crash. */
  lemma VisitedOwnersAreCleared(events: seq<Event>, t: TaskId, u: Owner, e: Entry)
    requires var s := StateAfter(events);
      && t in s.tasks && s.tasks[t].Starter?
      && ((s.tasks[t].start.StartAtInstance? && u in s.tasks[t].start.cleared)
          || (s.tasks[t].start.StartUnlinked? && u in s.tasks[t].start.scan.listed))
    requires InstanceEntry(e, u, StateAfter(events).tasks[t].start.instance)
    ensures var s := StateAfter(events);
      s.tasks[t].start.instance !in s.live && !(e.dir.entry in s.disk.vol && (e in s.disk.vol || e in s.disk.dur))
  {
    TrackHolds(events);
    var s := StateAfter(events);
    assert OnTrack(s, s.tasks[t]);
    assert Clean(s.disk, u, s.tasks[t].start.instance);
  }

  // ---- what a whole startup achieves ------------------------------------------------------------

  /** Since `s0` the process kept the startup lock: nobody came to life, and the dead made no directory. */
  ghost predicate Kept(s0: System, s: System, t: TaskId) {
    && InTenure(s, t) && s.live <= s0.live
    && (forall e, u, i :: i !in s0.live && DirectoryAt(s.disk.vol, e, u, i) ==> DirectoryAt(s0.disk.vol, e, u, i))
  }

  function ScanOf(start: StartPc): Option<Scan> {
    match start
    case StartWaiting => None
    case StartLocked => None
    case _ => Some(start.scan)
  }

  predicate Covers(scan: Scan, u: Owner, i: Instance) {
    u in scan.listed && (u in scan.unread || i in scan.todo || (i, u) in scan.skipped)
  }

  /** Each directory that a dead instance still has is yet to be found, yet to be tried, or was skipped. */
  ghost predicate Found(s0: System, s: System, t: TaskId)
    requires InTenure(s, t)
  {
    var start := s.tasks[t].start;
    && (ScanOf(start).Some? ==> forall e, u, i ::
          i !in s0.live && DirectoryAt(s.disk.vol, e, u, i) ==> Covers(ScanOf(start).value, u, i))
    && (start.StartWaitMarker? ==> start.scan.unread == {} && start.scan.todo == {})
  }

  lemma NobodyElseComesToLife(s: System, ev: Event, t: TaskId)
    requires Proper(s) && InTenure(s, t) && InTenure(Next(s, ev), t)
    ensures Next(s, ev).live <= s.live && ev != MachineCrash
  {
    if ev.Acquire? && Next(s, ev) != s {
      assert (StartupLock, Exclusive) in Holds(t, s.tasks[t]);
    }
    if ev.Proceed? && ev.task in s.tasks {
      AdvanceGainsNothing(s, ev.task);
    }
  }

  lemma NextStaysKept(s0: System, s: System, ev: Event, t: TaskId)
    requires Proper(s) && Kept(s0, s, t) && InTenure(Next(s, ev), t)
    ensures Kept(s0, Next(s, ev), t)
  {
    NobodyElseComesToLife(s, ev, t);
    forall e, u, i | i !in s0.live && DirectoryAt(Next(s, ev).disk.vol, e, u, i)
      ensures DirectoryAt(s0.disk.vol, e, u, i)
    {
      NoDirectoryAppears(s, ev, e, u, i);
    }
  }

  lemma MarkerHolderIsStarting(o: TaskId, task: Task, i: Instance)
    requires HoldsAny(o, task, MarkerLock(i))
    ensures (StartupLock, Exclusive) in Holds(o, task)
    ensures task.Starter? && !task.start.StartScanning?
  {
  }

  /** Only the starting process itself holds markers of the dead. */
  lemma MarkerIsFree(s: System, t: TaskId, i: Instance)
    requires Proper(s) && InTenure(s, t) && s.tasks[t].start.StartScanning?
    ensures !Blocked(s, MarkerLock(i), Exclusive)
  {
    forall o | o in s.tasks ensures !HoldsAny(o, s.tasks[o], MarkerLock(i)) {
      if HoldsAny(o, s.tasks[o], MarkerLock(i)) {
        MarkerHolderIsStarting(o, s.tasks[o], i);
      }
    }
  }

  /** The process's own listings and attempts. */
  lemma ScanningCovers(s0: System, s: System, ev: Event, t: TaskId, e: Entry, u: Owner, i: Instance)
    requires Proper(s) && Kept(s0, s, t) && Found(s0, s, t) && Scans(ev)
    requires i !in s0.live && DirectoryAt(s.disk.vol, e, u, i)
    ensures Scanned(s, t, ev).Starter?
    ensures var scan := ScanOf(Scanned(s, t, ev).start); scan.Some? ==> Covers(scan.value, u, i)
  {
    var start := s.tasks[t].start;
    if start.StartLocked? {
      assert e.dir.entry in s.disk.vol && OwnerEntry(e.dir.entry, u);
      assert u in OwnersIn(s.disk.vol);
    } else if start.StartScanning? && ev.ReadOwner? && ev.owner == u {
      assert i in InstancesIn(s.disk.vol, u);
    } else if start.StartScanning? && ev.TryMarker? {
      MarkerIsFree(s, t, ev.instance);
    }
  }

  lemma CleanHasNoDirectory(d: Disk, e: Entry, u: Owner, i: Instance)
    requires DirectoryAt(d.vol, e, u, i)
    ensures !Clean(d, u, i)
  {
  }

  /** Leaving an instance: every listed owner of it was cleared or skipped. */
  lemma LeavingCovers(s0: System, s: System, op: DiskOp, t: TaskId, e: Entry, u: Owner, i: Instance)
    requires AllOnTrack(s) && Kept(s0, s, t) && Found(s0, s, t)
    requires i !in s0.live && DirectoryAt(s.disk.vol, e, u, i)
    ensures AfterDisk(s.tasks[t], op).Starter?
    ensures var scan := ScanOf(AfterDisk(s.tasks[t], op).start); scan.Some? ==> Covers(scan.value, u, i)
  {
    var start := s.tasks[t].start;
    assert OnTrack(s, s.tasks[t]);
    assert ScanOf(start).Some? ==> Covers(ScanOf(start).value, u, i);
    CleanHasNoDirectory(s.disk, e, u, i);
  }

  lemma NextStaysFound(s0: System, s: System, ev: Event, t: TaskId)
    requires Proper(s) && AllOnTrack(s) && Kept(s0, s, t) && Found(s0, s, t) && InTenure(Next(s, ev), t)
    ensures Found(s0, Next(s, ev), t)
  {
    var s' := Next(s, ev);
    var start' := s'.tasks[t].start;
    NobodyElseComesToLife(s, ev, t);
    OwnMoves(s, ev, t);
    forall e, u, i | i !in s0.live && DirectoryAt(s'.disk.vol, e, u, i) && ScanOf(start').Some?
      ensures Covers(ScanOf(start').value, u, i)
    {
      NoDirectoryAppears(s, ev, e, u, i);
      if s'.tasks[t] != s.tasks[t] {
        if Scans(ev) {
          ScanningCovers(s0, s, ev, t, e, u, i);
        } else if ev.DiskStep? {
          LeavingCovers(s0, s, ev.op, t, e, u, i);
        }
      }
    }
  }

  /** How the place of a starting process can change. */
  lemma OwnMoves(s: System, ev: Event, t: TaskId)
    requires InTenure(s, t) && InTenure(Next(s, ev), t)
    ensures var now, then' := Next(s, ev).tasks[t], s.tasks[t];
      || now == then'
      || (Scans(ev) && now == Scanned(s, t, ev) && !now.start.StartWaitMarker?)
      || (ev.DiskStep? && now == AfterDisk(then', ev.op) && !now.start.StartWaitMarker?)
      || (!Scans(ev) && !ev.DiskStep? && ScanOf(now.start) == ScanOf(then'.start)
          && (now.start.StartWaitMarker? ==>
                then'.start.StartWaitMarker? || (now.start.scan.unread == {} && now.start.scan.todo == {})))
  {
  }

  lemma {:induction false} TenureHolds(events: seq<Event>, later: seq<Event>, t: TaskId)
    requires forall k :: 0 <= k <= |later| ==> InTenure(StateAfter(events + later[..k]), t)
    requires InTenure(StateAfter(events), t) && StateAfter(events).tasks[t].start == StartLocked
    ensures InTenure(StateAfter(events + later), t)
    ensures Kept(StateAfter(events), StateAfter(events + later), t)
    ensures Found(StateAfter(events), StateAfter(events + later), t)
  {
    if later == [] {
      assert events + later == events;
    } else {
      var front, ev := later[..|later| - 1], later[|later| - 1];
      forall k | 0 <= k <= |front| ensures InTenure(StateAfter(events + front[..k]), t) {
        assert front[..k] == later[..k];
      }
      TenureHolds(events, front, t);
      assert later[..|later|] == later;
      ProperHolds(events + front);
      TrackHolds(events + front);
      OneMore(events + front, ev);
      assert events + later == events + front + [ev];
      NextStaysKept(StateAfter(events), StateAfter(events + front), ev, t);
      NextStaysFound(StateAfter(events), StateAfter(events + front), ev, t);
    }
  }

  /**
   A process that got through its startup has removed all present entries of every instance that was dead
   when it took the startup lock, savers and ingesters of live ones going on all the time: an original
   of such an instance can only be left under an owner whose lock was busy when it was tried.
   */
  lemma StartupClearsTheDead(
    events: seq<Event>, later: seq<Event>, t: TaskId, e: Entry, f: Entry, u: Owner, i: Instance)
    requires forall k :: 0 <= k <= |later| ==> InTenure(StateAfter(events + later[..k]), t)
    requires InTenure(StateAfter(events), t) && StateAfter(events).tasks[t].start == StartLocked
    requires t in StateAfter(events + later).tasks && StateAfter(events + later).tasks[t].Starter?
    requires StateAfter(events + later).tasks[t].start.StartWaitMarker? && i !in StateAfter(events).live
    ensures var s := StateAfter(events + later);
      && (DirectoryAt(s.disk.vol, e, u, i) ==> (i, u) in s.tasks[t].start.scan.skipped)
      && (OriginalEntry(f, u, i) && Reachable(s.disk.vol, f) ==> (i, u) in s.tasks[t].start.scan.skipped)
  {
    TenureHolds(events, later, t);
    var s := StateAfter(events + later);
    if OriginalEntry(f, u, i) && Reachable(s.disk.vol, f) {
      var directory := f.dir.entry;
      assert Reachable(s.disk.vol, directory) && Reachable(s.disk.vol, directory.dir.entry);
      assert DirectoryAt(s.disk.vol, directory, u, i);
    }
  }

  // ---- and what it achieves durably -------------------------------------------------------------

  /** Every listed owner was skipped or has no directory of the instance, present or durable. */
  predicate SettledFor(s: System, scan: Scan, i: Instance) {
    forall u :: u in scan.listed ==> (i, u) in scan.skipped || Clean(s.disk, u, i)
  }

  /** The instance, once found, is yet to be tried or settled. */
  predicate Dealt(s: System, t: TaskId, i: Instance) {
    && InTenure(s, t) && ScanOf(s.tasks[t].start).Some?
    && var scan := ScanOf(s.tasks[t].start).value; i in scan.todo || SettledFor(s, scan, i)
  }

  /** The listings have found the instance, and it is yet to be tried. */
  predicate HasFound(s: System, t: TaskId, i: Instance) {
    InTenure(s, t) && ScanOf(s.tasks[t].start).Some? && i in ScanOf(s.tasks[t].start).value.todo
  }

  lemma NextKeepsClean(s: System, ev: Event, u: Owner, i: Instance)
    requires Proper(s) && i !in s.live && ev != MachineCrash && Clean(s.disk, u, i)
    ensures Clean(Next(s, ev).disk, u, i)
  {
    match ev
    case DiskStep(t, op) => if Next(s, ev) != s { StepKeepsClean(s, t, op, u, i); }
    case Proceed(t) => if t in s.tasks { AdvanceKeepsDisk(s, t); }
    case _ =>
  }

  lemma NextKeepsSettled(s: System, ev: Event, scan: Scan, scan': Scan, i: Instance)
    requires Proper(s) && i !in s.live && ev != MachineCrash && SettledFor(s, scan, i)
    requires scan'.listed == scan.listed && scan.skipped <= scan'.skipped
    ensures SettledFor(Next(s, ev), scan', i)
  {
    forall u | u in scan.listed && (i, u) !in scan.skipped ensures Clean(Next(s, ev).disk, u, i) {
      NextKeepsClean(s, ev, u, i);
    }
  }

  /** Leaving an instance that it tried, the process has settled it. */
  lemma LeavingSettles(s: System, t: TaskId, op: DiskOp, i: Instance)
    requires AllOnTrack(s) && InTenure(s, t) && ScanOf(s.tasks[t].start).Some?
    requires i in ScanOf(s.tasks[t].start).value.todo
    ensures var now := AfterDisk(s.tasks[t], op);
      && now.Starter? && ScanOf(now.start).Some?
      && var scan, scan' := ScanOf(s.tasks[t].start).value, ScanOf(now.start).value;
         && scan'.listed == scan.listed && scan'.skipped == scan.skipped
         && (i in scan'.todo || SettledFor(s, scan, i))
  {
    assert OnTrack(s, s.tasks[t]);
  }

  lemma ScanningKeepsFound(s: System, t: TaskId, ev: Event, i: Instance)
    requires Proper(s) && InTenure(s, t) && ScanOf(s.tasks[t].start).Some? && i !in s.live
    ensures var now := Scanned(s, t, ev);
      && now.Starter? && ScanOf(now.start).Some?
      && var scan, scan' := ScanOf(s.tasks[t].start).value, ScanOf(now.start).value;
         && scan'.listed == scan.listed && scan.skipped <= scan'.skipped
         && (i in scan.todo ==> i in scan'.todo)
  {
    if s.tasks[t].start.StartScanning? && ev.TryMarker? {
      MarkerIsFree(s, t, ev.instance);
    }
  }

  lemma AfterDiskKeepsLists(s: System, t: TaskId, op: DiskOp)
    requires InTenure(s, t) && ScanOf(s.tasks[t].start).Some?
    ensures var now := AfterDisk(s.tasks[t], op);
      && now.Starter? && ScanOf(now.start).Some?
      && ScanOf(now.start).value.listed == ScanOf(s.tasks[t].start).value.listed
      && ScanOf(now.start).value.skipped == ScanOf(s.tasks[t].start).value.skipped
  {
  }

  lemma NextStaysDealt(s0: System, s: System, ev: Event, t: TaskId, i: Instance)
    requires Proper(s) && AllOnTrack(s) && Kept(s0, s, t) && i !in s0.live
    requires Dealt(s, t, i) && InTenure(Next(s, ev), t)
    ensures Dealt(Next(s, ev), t, i)
  {
    NobodyElseComesToLife(s, ev, t);
    OwnMoves(s, ev, t);
    var scan := ScanOf(s.tasks[t].start).value;
    ScanningKeepsFound(s, t, ev, i);
    if ev.DiskStep? {
      AfterDiskKeepsLists(s, t, ev.op);
      if i in scan.todo {
        LeavingSettles(s, t, ev.op, i);
      }
    }
    if SettledFor(s, scan, i) && ScanOf(Next(s, ev).tasks[t].start).Some? {
      var scan' := ScanOf(Next(s, ev).tasks[t].start).value;
      NextKeepsSettled(s, ev, scan, scan', i);
    }
  }

  lemma OneMoreDealt(events: seq<Event>, front: seq<Event>, ev: Event, t: TaskId, i: Instance)
    requires forall n :: 0 <= n <= |front| ==> InTenure(StateAfter(events + front[..n]), t)
    requires InTenure(StateAfter(events), t) && StateAfter(events).tasks[t].start == StartLocked
    requires i !in StateAfter(events).live && Dealt(StateAfter(events + front), t, i)
    requires InTenure(StateAfter(events + front + [ev]), t)
    ensures Dealt(StateAfter(events + front + [ev]), t, i)
  {
    TenureHolds(events, front, t);
    ProperHolds(events + front);
    TrackHolds(events + front);
    OneMore(events + front, ev);
    NextStaysDealt(StateAfter(events), StateAfter(events + front), ev, t, i);
  }

  lemma TenureOfFront(events: seq<Event>, later: seq<Event>, t: TaskId)
    requires later != [] && forall n :: 0 <= n <= |later| ==> InTenure(StateAfter(events + later[..n]), t)
    ensures var front := later[..|later| - 1];
      && (forall n :: 0 <= n <= |front| ==> InTenure(StateAfter(events + front[..n]), t))
      && events + front + [later[|later| - 1]] == events + later && InTenure(StateAfter(events + later), t)
  {
    var front := later[..|later| - 1];
    forall n | 0 <= n <= |front| ensures InTenure(StateAfter(events + front[..n]), t) {
      assert front[..n] == later[..n];
    }
    assert later[..|later|] == later;
  }

  lemma {:induction false} DealtHolds(events: seq<Event>, later: seq<Event>, t: TaskId, k: nat, i: Instance)
    requires forall n :: 0 <= n <= |later| ==> InTenure(StateAfter(events + later[..n]), t)
    requires InTenure(StateAfter(events), t) && StateAfter(events).tasks[t].start == StartLocked
    requires k <= |later| && i !in StateAfter(events).live && Dealt(StateAfter(events + later[..k]), t, i)
    ensures Dealt(StateAfter(events + later), t, i)
    decreases |later|
  {
    if k == |later| {
      assert later[..k] == later;
    } else {
      var front, ev := later[..|later| - 1], later[|later| - 1];
      TenureOfFront(events, later, t);
      assert front[..k] == later[..k];
      DealtHolds(events, front, t, k, i);
      OneMoreDealt(events, front, ev, t, i);
    }
  }

  /**
   Of an instance dead from the start that the listings found, by its marker or by a directory under a
   listed owner, a completed startup leaves nothing under a listed owner that it did not skip, as long
   as that owner's directory is there: no entry that is present, nor one that a crash would restore.
   */
  lemma StartupClearsDurably(
    events: seq<Event>, later: seq<Event>, t: TaskId, k: nat, u: Owner, i: Instance)
    requires forall n :: 0 <= n <= |later| ==> InTenure(StateAfter(events + later[..n]), t)
    requires InTenure(StateAfter(events), t) && StateAfter(events).tasks[t].start == StartLocked
    requires i !in StateAfter(events).live && k <= |later|
    requires HasFound(StateAfter(events + later[..k]), t, i)
    requires t in StateAfter(events + later).tasks && StateAfter(events + later).tasks[t].Starter?
    requires StateAfter(events + later).tasks[t].start.StartWaitMarker?
    ensures var s := StateAfter(events + later);
            var scan := s.tasks[t].start.scan;
      u in scan.listed && (i, u) !in scan.skipped ==> Clean(s.disk, u, i)
  {
    DealtHolds(events, later, t, k, i);
    TenureHolds(events, later, t);
  }

  // ---- markers and busy owners ------------------------------------------------------------------

  /** Until its own marker, a starting process unlinks no marker of an instance dead from the start early. */
  lemma DeadFromTheStartIsUnlinkedLast(events: seq<Event>, later: seq<Event>, t: TaskId, m: Entry, i: Instance)
    requires forall k :: 0 <= k <= |later| ==> InTenure(StateAfter(events + later[..k]), t)
    requires InTenure(StateAfter(events), t) && StateAfter(events).tasks[t].start == StartLocked
    requires i !in StateAfter(events).live && Unlinks(StateAfter(events + later), t, m, i)
    ensures NoDirectoryOf(StateAfter(events + later).disk.vol, i)
  {
    TenureHolds(events, later, t);
    UnlinkedMarkersLeaveOnlyUnlisted(events + later, t, m, i);
  }

  /** The process is at the instance and has found that owner's lock busy. */
  predicate HasSkipped(s: System, t: TaskId, i: Instance, u: Owner) {
    InTenure(s, t) && ScanOf(s.tasks[t].start).Some? && (i, u) in ScanOf(s.tasks[t].start).value.skipped
  }

  predicate FindsBusy(s: System, ev: Event, t: TaskId, i: Instance, u: Owner) {
    && ev == TryOwner(t, u) && t in s.tasks && s.tasks[t].Starter? && s.tasks[t].start.StartAtInstance?
    && s.tasks[t].start.instance == i && Blocked(s, OwnerLock(u), Exclusive)
  }

  lemma StepSkipsOnlyBusy(s: System, ev: Event, t: TaskId, i: Instance, u: Owner)
    requires HasSkipped(Next(s, ev), t, i, u)
    ensures HasSkipped(s, t, i, u) || FindsBusy(s, ev, t, i, u)
  {
  }

  /** An owner was skipped only because somebody held its lock at the moment it was tried. */
  lemma {:induction false} SkippedWasBusy(events: seq<Event>, t: TaskId, i: Instance, u: Owner)
    requires HasSkipped(StateAfter(events), t, i, u)
    ensures exists k :: 0 <= k < |events| && FindsBusy(StateAfter(events[..k]), events[k], t, i, u)
  {
    if events != [] {
      var front, ev := events[..|events| - 1], events[|events| - 1];
      StepSkipsOnlyBusy(StateAfter(front), ev, t, i, u);
      if HasSkipped(StateAfter(front), t, i, u) {
        SkippedWasBusy(front, t, i, u);
        var k :| 0 <= k < |front| && FindsBusy(StateAfter(front[..k]), front[k], t, i, u);
        assert front[..k] == events[..k];
      }
    }
  }

  // ---- the case in which a marker goes early ----------------------------------------------------

  lemma Play(run: seq<Event>, s: System, ev: Event) returns (run': seq<Event>, s': System)
    requires s == StateAfter(run)
    ensures run' == run + [ev] && s' == Next(s, ev) && s' == StateAfter(run')
  {
    OneMore(run, ev);
    run', s' := run + [ev], Next(s, ev);
  }

  const OLD: Instance := 5
  const NEW: Instance := 6
  const SOMEONE: Owner := 7

  const MARK := Entry(Instances, InstanceName(OLD), 0)
  const HOME := Entry(Owners, OwnerName(SOMEONE), 1)
  const ROOM := Entry(At(HOME), InstanceName(OLD), 2)

  /** Nobody is fenced, and nothing else has happened. */
  function Sys(vol: set<Entry>, next: nat, tasks: map<TaskId, Task>, live: set<Instance>, used: set<Instance>): System {
    System(Disk(vol, {}, next), {}, map[], tasks, live, used, {}, {}, {}, {})
  }

  function Empty(marked: bool): Scan {
    Scan({}, {}, marked, {}, {})
  }

  /** Instance 5 starts on an empty disk. */
  lemma OldInstanceLists() returns (run: seq<Event>, s: System)
    ensures s == StateAfter(run) == Sys({}, 0, map[0 := Starter(OLD, StartScanning(Empty(false)))], {}, {OLD})
  {
    run, s := Play([], START, Arrive(0, Starter(OLD, StartWaiting)));
    assert s == Sys({}, 0, map[0 := Starter(OLD, StartWaiting)], {}, {OLD});
    run, s := Play(run, s, Acquire(0));
    assert s == Sys({}, 0, map[0 := Starter(OLD, StartLocked)], {}, {OLD});
    assert OwnersIn({}) == {};
    run, s := Play(run, s, ListOwners(0));
  }

  lemma OldInstanceReads() returns (run: seq<Event>, s: System)
    ensures s == StateAfter(run) == Sys({}, 0, map[0 := Starter(OLD, StartWaitMarker(Empty(true)))], {}, {OLD})
  {
    run, s := OldInstanceLists();
    assert MarkersIn(s.disk.vol) == {};
    assert Empty(false).(marked := true, todo := {} + MarkersIn(s.disk.vol)) == Empty(true);
    run, s := Play(run, s, ReadMarkers(0));
    assert s == Sys({}, 0, map[0 := Starter(OLD, StartScanning(Empty(true)))], {}, {OLD});
    run, s := Play(run, s, Proceed(0));
  }

  lemma OldInstanceStarts() returns (run: seq<Event>, s: System)
    ensures s == StateAfter(run) == Sys({MARK}, 1, map[], {OLD}, {OLD})
  {
    run, s := OldInstanceReads();
    run, s := Play(run, s, DiskStep(0, Make(Instances, InstanceName(OLD))));
    assert s == Sys({MARK}, 1, map[0 := Starter(OLD, StartWaitMarker(Empty(true)))], {}, {OLD});
    assert !Blocked(s, MarkerLock(OLD), Exclusive);
    run, s := Play(run, s, Acquire(0));
    assert s.tasks == map[];
  }

  function NewOne(scan: Scan): Task {
    Starter(NEW, StartScanning(scan))
  }

  /** Instance 6 begins to start and lists the owners, of whom there is none yet. */
  lemma NewInstanceLists() returns (run: seq<Event>, s: System)
    ensures s == StateAfter(run) == Sys({MARK}, 1, map[1 := NewOne(Empty(false))], {OLD}, {OLD, NEW})
  {
    run, s := OldInstanceStarts();
    run, s := Play(run, s, Arrive(1, Starter(NEW, StartWaiting)));
    assert s == Sys({MARK}, 1, map[1 := Starter(NEW, StartWaiting)], {OLD}, {OLD, NEW});
    run, s := Play(run, s, Acquire(1));
    assert s == Sys({MARK}, 1, map[1 := Starter(NEW, StartLocked)], {OLD}, {OLD, NEW});
    assert OwnersIn(s.disk.vol) == {};
    run, s := Play(run, s, ListOwners(1));
  }

  function Both(pc: SavePc): map<TaskId, Task> {
    map[1 := NewOne(Empty(false)), 2 := Saver(OLD, SOMEONE, pc)]
  }

  /** Meanwhile instance 5 saves for a new owner. */
  lemma OldInstanceSaves() returns (run: seq<Event>, s: System)
    ensures s == StateAfter(run) == Sys({MARK}, 1, Both(SaveWaiting), {OLD}, {OLD, NEW})
  {
    run, s := NewInstanceLists();
    run, s := Play(run, s, Arrive(2, Saver(OLD, SOMEONE, SaveCalled)));
    assert s == Sys({MARK}, 1, Both(SaveCalled), {OLD}, {OLD, NEW});
    run, s := Play(run, s, Admit(2));
    assert s.tasks == Both(SaveWaiting);
  }

  lemma OldInstanceMayWrite() returns (run: seq<Event>, s: System)
    ensures s == StateAfter(run) == Sys({MARK}, 1, Both(SaveWriting), {OLD}, {OLD, NEW})
  {
    run, s := OldInstanceSaves();
    assert !Blocked(s, OwnerLock(SOMEONE), Shared);
    run, s := Play(run, s, Acquire(2));
    assert s == Sys({MARK}, 1, Both(SaveLocked), {OLD}, {OLD, NEW});
    run, s := Play(run, s, Admit(2));
    assert s.tasks == Both(SaveWriting);
  }

  lemma OldInstanceMakesDirectories() returns (run: seq<Event>, s: System)
    ensures s == StateAfter(run) == Sys({MARK, HOME, ROOM}, 3, Both(SaveWriting), {OLD}, {OLD, NEW})
  {
    run, s := OldInstanceMayWrite();
    run, s := Play(run, s, DiskStep(2, Make(Owners, OwnerName(SOMEONE))));
    assert s.tasks == Both(SaveWriting) && s.disk.vol == {MARK, HOME};
    assert s == Sys({MARK, HOME}, 2, Both(SaveWriting), {OLD}, {OLD, NEW});
    run, s := Play(run, s, DiskStep(2, Make(At(HOME), InstanceName(OLD))));
    assert s.tasks == Both(SaveWriting) && s.disk.vol == {MARK, HOME, ROOM};
  }

  lemma OldInstanceDies() returns (run: seq<Event>, s: System)
    ensures s == StateAfter(run) == Sys({MARK, HOME, ROOM}, 3, map[1 := NewOne(Empty(false))], {}, {OLD, NEW})
  {
    run, s := OldInstanceMakesDirectories();
    run, s := Play(run, s, Kill(OLD));
    assert s.tasks == map[1 := NewOne(Empty(false))] && s.live == {};
  }

  lemma NewInstanceReads() returns (run: seq<Event>, s: System)
    ensures s == StateAfter(run)
      == Sys({MARK, HOME, ROOM}, 3, map[1 := NewOne(Empty(true).(todo := {OLD}))], {}, {OLD, NEW})
  {
    run, s := OldInstanceDies();
    assert MarkersIn(s.disk.vol) == {OLD} by {
      assert MARK in s.disk.vol;
    }
    assert Empty(false).(marked := true, todo := {} + MarkersIn(s.disk.vol)) == Empty(true).(todo := {OLD});
    run, s := Play(run, s, ReadMarkers(1));
    assert s.tasks == map[1 := NewOne(Empty(true).(todo := {OLD}))];
  }

  /**
   The order of the listings leaves a gap: an instance that makes a directory for a new owner after the
   owners were listed, and dies before its marker is tried, loses its marker while the directory stays.
   */
  lemma MarkerCanGoEarly() returns (run: seq<Event>)
    ensures Unlinks(StateAfter(run), 1, MARK, OLD)
    ensures DirectoryAt(StateAfter(run).disk.vol, ROOM, SOMEONE, OLD)
    ensures !NoDirectoryOf(StateAfter(run).disk.vol, OLD)
  {
    var s;
    run, s := NewInstanceReads();
    assert !Blocked(s, MarkerLock(OLD), Exclusive);
    assert Present(s.disk, Instances, InstanceName(OLD)) by {
      assert MARK in s.disk.vol;
    }
    run, s := Play(run, s, TryMarker(1, OLD));
    assert s.tasks[1] == Starter(NEW, StartAtInstance(Empty(true).(todo := {OLD}), OLD, {}));
    assert DirectoryAt(s.disk.vol, ROOM, SOMEONE, OLD);
  }
}
