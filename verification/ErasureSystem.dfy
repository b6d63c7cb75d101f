/**
 Account erasure among everything else: savers, ingesters, erasers and starting processes of any
 number of instances, sharing one staging file system and one database, any of which may fail,
 be killed, or be stopped by a machine crash at any point.

 A task is where its code stands between two steps; what locks it holds follows from that.
 */
module ErasureSystem {
  import opened Common
  import opened StagingDisk
  import opened UploadStorage

  type TaskId = nat

  /**
   `save`: called, admitted and waiting for the owner lock, holding it, admitted again (only now
   it may make directories and write), written and waiting for the last admission check.
   */
  datatype SavePc = SaveCalled | SaveWaiting | SaveLocked | SaveWriting | SaveWritten

  /** `_ingest_job` and `ingest`; plaintext for the parser exists exactly at `IngestPlain`. */
  datatype IngestPc = IngestWaiting | IngestLocked | IngestAdmitted | IngestPlain | IngestParsed

  /**
   `AccountErasureService.erase`. At `EraseGone` the owner's directory was removed, or seen to be
   absent, and the final fsync of `owners` is still to come.
   */
  datatype ErasePc =
    | EraseCalled | EraseFenced | EraseDraining | EraseWaitOwner | EraseWaitStartup
    | EraseRemoving | EraseGone | EraseBarred | EraseReleased | EraseRowsGone

  /**
   What a starting process has listed: the owners, once, at the beginning; then the markers, and the
   instances in each listed owner's directory, one directory at a time (`unread` are still to come).
   `todo` are the instances still to be tried, `skipped` the owners that were busy.
   */
  datatype Scan = Scan(
    listed: set<Owner>, unread: set<Owner>, marked: bool, todo: set<Instance>, skipped: set<(Instance, Owner)>)

  /**
   A starting process. It holds the marker lock of `instance`, whose directory is gone for good under
   the `cleared` owners; under `owner` its directory is gone, but not yet durably, if `gone`.
   */
  datatype StartPc =
    | StartWaiting
    | StartLocked
    | StartScanning(scan: Scan)
    | StartAtInstance(scan: Scan, instance: Instance, cleared: set<Owner>)
    | StartAtOwner(scan: Scan, instance: Instance, cleared: set<Owner>, owner: Owner, gone: bool)
    | StartUnlinked(scan: Scan, instance: Instance)
    | StartWaitMarker(scan: Scan)

  datatype Task =
    | Saver(inst: Instance, owner: Owner, save: SavePc)
    | Ingester(inst: Instance, owner: Owner, ingest: IngestPc)
    | Eraser(inst: Instance, owner: Owner, erase: ErasePc)
    | Starter(inst: Instance, start: StartPc)

  /**
   `rows` are the documents, pages, chunks and revisions, each with its owner; `used` are the instance
   ids ever taken. The last four sets only record history: owners whose tasks an eraser has drained,
   whose barrier has passed, whose rows an erasure has deleted, and whose erasure has returned normally.
   */
  datatype System = System(
    disk: Disk, fenced: set<Owner>, rows: map<nat, Owner>,
    tasks: map<TaskId, Task>, live: set<Instance>, used: set<Instance>,
    drained: set<Owner>, purged: set<Owner>, erased: set<Owner>, acknowledged: set<Owner>)

  // ---- locks ----------------------------------------------------------------------------------

  datatype Lock =
    | DrainOf(task: TaskId)
    | OwnerLock(owner: Owner)
    | StartupLock
    | MarkerLock(instance: Instance)

  datatype Mode = Shared | Exclusive

  function Holds(t: TaskId, task: Task): set<(Lock, Mode)> {
    match task
    case Saver(_, u, pc) =>
      if pc == SaveCalled || pc == SaveWaiting then {} else {(OwnerLock(u), Shared)}
    case Ingester(_, u, pc) =>
      {(DrainOf(t), Exclusive)} + (if pc == IngestWaiting then {} else {(OwnerLock(u), Shared)})
    case Eraser(_, u, pc) =>
      (match pc
       case EraseWaitStartup => {(OwnerLock(u), Exclusive)}
       case EraseRemoving => {(OwnerLock(u), Exclusive), (StartupLock, Exclusive)}
       case EraseGone => {(OwnerLock(u), Exclusive), (StartupLock, Exclusive)}
       case EraseBarred => {(OwnerLock(u), Exclusive), (StartupLock, Exclusive)}
       case _ => {})
    case Starter(_, pc) =>
      (match pc
       case StartWaiting => {}
       case StartAtInstance(_, i, _) => {(StartupLock, Exclusive), (MarkerLock(i), Exclusive)}
       case StartAtOwner(_, i, _, u, _) =>
         {(StartupLock, Exclusive), (MarkerLock(i), Exclusive), (OwnerLock(u), Exclusive)}
       case StartUnlinked(_, i) => {(StartupLock, Exclusive), (MarkerLock(i), Exclusive)}
       case _ => {(StartupLock, Exclusive)})
  }

  predicate Conflict(held: Mode, wanted: Mode) {
    held == Exclusive || wanted == Exclusive
  }

  /** Some task holds the lock in a way that keeps it from being taken in this mode. */
  predicate Blocked(s: System, lock: Lock, mode: Mode) {
    exists t :: t in s.tasks && (((lock, Exclusive) in Holds(t, s.tasks[t]))
      || ((lock, Shared) in Holds(t, s.tasks[t]) && Conflict(Shared, mode)))
  }

  // ---- steps ------------------------------------------------------------------------------------

  datatype Event =
    | Arrive(task: TaskId, new_: Task)
    | Fails(task: TaskId)
    | Acquire(task: TaskId)
    | Admit(task: TaskId)
    | DiskStep(task: TaskId, op: DiskOp)
    | Parse(task: TaskId)
    | InsertRow(row: nat, owner: Owner)
    | DeleteRow(row: nat)
    | Proceed(task: TaskId)
    | Observe(task: TaskId)
    | ListOwners(task: TaskId)
    | ReadMarkers(task: TaskId)
    | ReadOwner(task: TaskId, owner: Owner)
    | TryMarker(task: TaskId, instance: Instance)
    | TryOwner(task: TaskId, owner: Owner)
    | WritesBack(dir: Dir, name: Name)
    | Kill(instance: Instance)
    | MachineCrash

  /** The lock a task waits for, if it is waiting for one it will block on. */
  function Wanted(task: Task): Option<(Lock, Mode)> {
    match task
    case Saver(_, u, SaveWaiting) => Some((OwnerLock(u), Shared))
    case Ingester(_, u, IngestWaiting) => Some((OwnerLock(u), Shared))
    case Eraser(_, u, EraseWaitOwner) => Some((OwnerLock(u), Exclusive))
    case Eraser(_, _, EraseWaitStartup) => Some((StartupLock, Exclusive))
    case Starter(_, StartWaiting) => Some((StartupLock, Exclusive))
    case Starter(i, StartWaitMarker(_)) => Some((MarkerLock(i), Exclusive))
    case _ => None
  }

  /** Where a task stands once it has the lock it was waiting for. */
  function Locked(task: Task): Task
    requires Wanted(task).Some?
  {
    match task
    case Saver(i, u, _) => Saver(i, u, SaveLocked)
    case Ingester(i, u, _) => Ingester(i, u, IngestLocked)
    case Eraser(i, u, pc) => Eraser(i, u, if pc == EraseWaitOwner then EraseWaitStartup else EraseRemoving)
    case Starter(i, _) => Starter(i, StartLocked)
  }

  /** The tasks an eraser drains before it asks for the owner lock. */
  predicate Drains(eraser: Task, other: Task) {
    && eraser.Eraser? && eraser.erase == EraseDraining
    && other.Ingester? && other.inst == eraser.inst && other.owner == eraser.owner
  }

  predicate StillDraining(s: System, eraser: Task) {
    exists t :: t in s.tasks && Drains(eraser, s.tasks[t])
  }

  predicate MayArrive(s: System, task: Task) {
    match task
    case Saver(i, _, pc) => i in s.live && pc == SaveCalled
    case Ingester(i, _, pc) => i in s.live && pc == IngestWaiting
    case Eraser(i, _, pc) => i in s.live && pc == EraseCalled
    case Starter(i, pc) => i !in s.used && pc == StartWaiting
  }

  /** The file-system operations the code at this point performs. */
  predicate Performs(task: Task, op: DiskOp) {
    match task
    case Saver(i, u, SaveWriting) =>
      (match op
       case Make(Owners, name) => name == OwnerName(u)
       case Make(At(e), InstanceName(j)) => OwnerEntry(e, u) && j == i
       case Make(At(e), FileName(_)) => InstanceEntry(e, u, i)
       case Remove(e) => OriginalEntry(e, u, i)
       case _ => false)
    case Saver(i, u, SaveWritten) => op.Remove? && OriginalEntry(op.entry, u, i)
    case Ingester(i, u, _) => op.Remove? && OriginalEntry(op.entry, u, i)
    case Eraser(_, u, EraseRemoving) => op.Sync? || (op.Remove? && InOwnerTree(op.entry, u))
    case Eraser(_, _, EraseGone) => op == Sync(Owners)
    case Starter(_, StartScanning(_)) => op.Sync? || (op.Make? && op.dir == Instances && op.name.InstanceName?)
    case Starter(_, StartAtInstance(scan, i, cleared)) =>
      op.Sync? || (op.Remove? && Marker(op.entry, i) && scan.listed <= cleared)
    case Starter(_, StartAtOwner(_, i, _, u, gone)) =>
      if gone then op.Sync? && op.dir.At? && OwnerEntry(op.dir.entry, u)
      else op.Sync? || (op.Remove? && InInstanceTree(op.entry, u, i))
    case Starter(_, StartUnlinked(_, _)) => op == Sync(Instances)
    case Starter(i, StartWaitMarker(_)) => op == Sync(Instances) || op == Make(Instances, InstanceName(i))
    case _ => false
  }

  /** Every listed owner was visited, or was busy when it was tried. */
  predicate AllVisited(scan: Scan, i: Instance, cleared: set<Owner>) {
    forall u :: u in scan.listed ==> u in cleared || (i, u) in scan.skipped
  }

  function Tried(scan: Scan, i: Instance): Scan {
    scan.(todo := scan.todo - {i})
  }

  /** Where the operation brings the code that performs it. */
  function AfterDisk(task: Task, op: DiskOp): Task {
    match task
    case Eraser(i, u, EraseRemoving) =>
      if RemovesOwner(op, u) then Eraser(i, u, EraseGone) else task
    case Eraser(i, u, EraseGone) => if op == Sync(Owners) then Eraser(i, u, EraseBarred) else task
    case Starter(j, StartAtOwner(scan, i, cleared, u, gone)) =>
      if gone then (if op.Sync? then Starter(j, StartAtInstance(scan, i, cleared + {u})) else task)
      else if op.Remove? && InstanceEntry(op.entry, u, i) then Starter(j, StartAtOwner(scan, i, cleared, u, true))
      else task
    case Starter(j, StartAtInstance(scan, i, cleared)) =>
      if op.Remove? then Starter(j, StartUnlinked(scan, i))
      else if op == Sync(Instances) && AllVisited(scan, i, cleared) && !(scan.listed <= cleared)
      then Starter(j, StartScanning(Tried(scan, i)))
      else task
    case Starter(j, StartUnlinked(scan, i)) =>
      if op == Sync(Instances) then Starter(j, StartScanning(Tried(scan, i))) else task
    case _ => task
  }

  /** An erasure whose final fsync succeeds is past its barrier. */
  function NewlyPurged(task: Task, op: DiskOp): set<Owner> {
    if task.Eraser? && task.erase == EraseGone && op == Sync(Owners) then {task.owner} else {}
  }

  /** A directory of the instance that a path through the owner's directory reaches. */
  predicate DirectoryAt(vol: set<Entry>, e: Entry, u: Owner, i: Instance) {
    e in vol && InstanceEntry(e, u, i) && e.dir.entry in vol
  }

  predicate NoDirectoryAt(vol: set<Entry>, u: Owner, i: Instance) {
    forall e :: e in vol ==> !DirectoryAt(vol, e, u, i)
  }

  /** The tests on the file system that let a removal go on: nothing is there. */
  function Observed(s: System, task: Task): Task {
    match task
    case Eraser(i, u, EraseRemoving) => if NoOwnerDirectory(s.disk.vol, u) then Eraser(i, u, EraseGone) else task
    case Starter(j, StartAtOwner(scan, i, cleared, u, false)) =>
      if NoDirectoryAt(s.disk.vol, u, i) then Starter(j, StartAtOwner(scan, i, cleared, u, true)) else task
    case _ => task
  }

  function OwnersIn(vol: set<Entry>): set<Owner> {
    set e | e in vol && e.dir == Owners && e.name.OwnerName? :: e.name.owner
  }

  function MarkersIn(vol: set<Entry>): set<Instance> {
    set e | e in vol && e.dir == Instances && e.name.InstanceName? :: e.name.instance
  }

  /** The instances with a directory under the owner. */
  function InstancesIn(vol: set<Entry>, u: Owner): set<Instance> {
    set e | e in vol && e.name.InstanceName? && DirectoryAt(vol, e, u, e.name.instance) :: e.name.instance
  }

  /** The listings of a starting process, and its attempts to lock without blocking. */
  function Scanned(s: System, t: TaskId, ev: Event): Task
    requires t in s.tasks
  {
    match s.tasks[t]
    case Starter(j, StartLocked) =>
      if ev == ListOwners(t)
      then Starter(j, StartScanning(Scan(OwnersIn(s.disk.vol), OwnersIn(s.disk.vol), false, {}, {})))
      else s.tasks[t]
    case Starter(j, StartScanning(scan)) =>
      if ev == ReadMarkers(t)
      then Starter(j, StartScanning(scan.(marked := true, todo := scan.todo + MarkersIn(s.disk.vol))))
      else if ev.ReadOwner? && ev.owner in scan.unread
      then Starter(j, StartScanning(scan.(
        unread := scan.unread - {ev.owner}, todo := scan.todo + InstancesIn(s.disk.vol, ev.owner))))
      else if ev.TryMarker? && scan.unread == {} && scan.marked && ev.instance in scan.todo
              && Present(s.disk, Instances, InstanceName(ev.instance))
      then (if ev.instance in s.live || Blocked(s, MarkerLock(ev.instance), Exclusive)
            then Starter(j, StartScanning(Tried(scan, ev.instance)))
            else Starter(j, StartAtInstance(scan, ev.instance, {})))
      else s.tasks[t]
    case Starter(j, StartAtInstance(scan, i, cleared)) =>
      if ev.TryOwner? && ev.owner in scan.listed && ev.owner !in cleared && (i, ev.owner) !in scan.skipped
      then (if Blocked(s, OwnerLock(ev.owner), Exclusive)
            then Starter(j, StartAtInstance(scan.(skipped := scan.skipped + {(i, ev.owner)}), i, cleared))
            else Starter(j, StartAtOwner(scan, i, cleared, ev.owner, false)))
      else s.tasks[t]
    case task => task
  }

  /** A step on which admission is checked, and where it leads; the task ends at `None`. */
  function Admitted(task: Task): Option<Option<Task>> {
    match task
    case Saver(i, u, SaveCalled) => Some(Some(Saver(i, u, SaveWaiting)))
    case Saver(i, u, SaveLocked) => Some(Some(Saver(i, u, SaveWriting)))
    case Saver(_, _, SaveWritten) => Some(None)
    case Ingester(i, u, IngestLocked) => Some(Some(Ingester(i, u, IngestAdmitted)))
    case Ingester(i, u, IngestAdmitted) => Some(Some(Ingester(i, u, IngestPlain)))
    case _ => None
  }

  /** A starting process takes a new id. */
  function Taken(task: Task): set<Instance> {
    if task.Starter? then {task.inst} else {}
  }

  function SetTask(s: System, t: TaskId, task: Task): System {
    s.(tasks := s.tasks[t := task])
  }

  function EndTask(s: System, t: TaskId): System {
    s.(tasks := s.tasks - {t})
  }

  /** The eraser's and the starter's own next step, where it needs no lock. */
  function Advance(s: System, t: TaskId): System
    requires t in s.tasks
  {
    match s.tasks[t]
    case Saver(i, u, SaveWriting) => SetTask(s, t, Saver(i, u, SaveWritten))
    case Eraser(i, u, EraseCalled) => SetTask(s, t, Eraser(i, u, EraseFenced)).(fenced := s.fenced + {u})
    case Eraser(i, u, EraseFenced) => SetTask(s, t, Eraser(i, u, EraseDraining))
    case Eraser(i, u, EraseDraining) =>
      if StillDraining(s, s.tasks[t]) then s else SetTask(s, t, Eraser(i, u, EraseWaitOwner))
    case Eraser(i, u, EraseBarred) => SetTask(s, t, Eraser(i, u, EraseReleased))
    case Eraser(i, u, EraseReleased) =>
      SetTask(s, t, Eraser(i, u, EraseRowsGone))
        .(rows := map r | r in s.rows && s.rows[r] != u :: s.rows[r], erased := s.erased + {u})
    case Eraser(_, u, EraseRowsGone) => EndTask(s, t).(acknowledged := s.acknowledged + {u})
    case Starter(i, StartScanning(scan)) =>
      if scan.unread == {} && scan.marked && scan.todo == {}
      then SetTask(s, t, Starter(i, StartWaitMarker(scan))) else s
    case _ => s
  }

  function Next(s: System, ev: Event): System {
    match ev
    case Arrive(t, task) =>
      if t !in s.tasks && MayArrive(s, task) then SetTask(s, t, task).(used := s.used + Taken(task)) else s
    case Fails(t) => EndTask(s, t)
    case Acquire(t) =>
      if t in s.tasks && Wanted(s.tasks[t]).Some?
         && !Blocked(s, Wanted(s.tasks[t]).value.0, Wanted(s.tasks[t]).value.1)
      then Granted(s, t) else s
    case Admit(t) =>
      if t in s.tasks && Admitted(s.tasks[t]).Some? && s.tasks[t].owner !in s.fenced
      then (if Admitted(s.tasks[t]).value.Some? then SetTask(s, t, Admitted(s.tasks[t]).value.value) else EndTask(s, t))
      else s
    case DiskStep(t, op) =>
      if t in s.tasks && Performs(s.tasks[t], op) && Possible(s.disk, op)
      then SetTask(s, t, AfterDisk(s.tasks[t], op))
             .(disk := Apply(s.disk, op), purged := s.purged + NewlyPurged(s.tasks[t], op))
      else s
    case Parse(t) =>
      if t in s.tasks && s.tasks[t].Ingester? && s.tasks[t].ingest == IngestPlain
      then SetTask(s, t, s.tasks[t].(ingest := IngestParsed)) else s
    case InsertRow(r, u) => if u !in s.fenced && r !in s.rows then s.(rows := s.rows[r := u]) else s
    case DeleteRow(r) => s.(rows := s.rows - {r})
    case Proceed(t) => if t in s.tasks then Advance(s, t) else s
    case Observe(t) => if t in s.tasks then SetTask(s, t, Observed(s, s.tasks[t])) else s
    case WritesBack(dir, name) => s.(disk := WriteBack(s.disk, dir, name))
    case Kill(i) => s.(tasks := map t | t in s.tasks && s.tasks[t].inst != i :: s.tasks[t], live := s.live - {i})
    case MachineCrash => s.(tasks := map[], live := {}, disk := Crash(s.disk))
    case _ => if ev.task in s.tasks then SetTask(s, ev.task, Scanned(s, ev.task, ev)) else s
  }

  /** A granted lock; a process whose own marker lock is granted is live. */
  function Granted(s: System, t: TaskId): System
    requires t in s.tasks && Wanted(s.tasks[t]).Some?
  {
    match s.tasks[t]
    case Starter(i, StartWaitMarker(_)) => EndTask(s, t).(live := s.live + {i})
    case Eraser(_, u, EraseWaitOwner) => SetTask(s, t, Locked(s.tasks[t])).(drained := s.drained + {u})
    case task => SetTask(s, t, Locked(task))
  }

  const START := System(Disk({}, {}, 0), {}, map[], map[], {}, {}, {}, {}, {}, {})

  function StateAfter(events: seq<Event>): System {
    if events == [] then START else Next(StateAfter(events[..|events| - 1]), events[|events| - 1])
  }

  // ---- the invariant ----------------------------------------------------------------------------

  /** The task may still create or use data of its owner without another admission check. */
  predicate Entered(task: Task, u: Owner) {
    match task
    case Saver(_, v, pc) => u == v && (pc == SaveWriting || pc == SaveWritten)
    case Ingester(_, v, pc) => u == v && (pc == IngestAdmitted || pc == IngestPlain || pc == IngestParsed)
    case _ => false
  }

  predicate EraserOnTrack(s: System, task: Task) {
    task.Eraser? ==>
      && (task.erase != EraseCalled ==> task.owner in s.fenced)
      && (task.erase == EraseGone ==> NoOwnerDirectory(s.disk.vol, task.owner))
      && (task.erase in {EraseWaitStartup, EraseRemoving, EraseGone, EraseBarred, EraseReleased, EraseRowsGone} ==>
            task.owner in s.drained)
      && (task.erase in {EraseBarred, EraseReleased, EraseRowsGone} ==> task.owner in s.purged)
      && (task.erase == EraseRowsGone ==> task.owner in s.erased)
  }

  ghost predicate Invariant(s: System) {
    && s.acknowledged <= s.erased <= s.purged <= s.drained <= s.fenced
    && (forall t :: t in s.tasks ==> EraserOnTrack(s, s.tasks[t]))
    && (forall t, u :: t in s.tasks && u in s.drained ==> !Entered(s.tasks[t], u))
    && (forall u :: u in s.purged ==> NoOwnerDirectory(s.disk.vol, u) && NoOwnerDirectory(s.disk.dur, u))
    && (forall r :: r in s.rows ==> s.rows[r] !in s.erased)
  }

  /** Every state's disk is a proper file system. */
  ghost predicate DiskSound(s: System) {
    WellFormed(s.disk) && AllBorn(s.disk)
  }

  lemma NextKeepsDiskSound(s: System, ev: Event)
    requires DiskSound(s)
    ensures DiskSound(Next(s, ev))
  {
    match ev
    case DiskStep(t, op) =>
      if t in s.tasks && Performs(s.tasks[t], op) && Possible(s.disk, op) {
        OpsKeepWellFormed(s.disk, op);
        OpsKeepBorn(s.disk, op);
      }
    case WritesBack(dir, name) =>
      EventsKeepWellFormed(s.disk, dir, name);
      EventsKeepBorn(s.disk, dir, name);
    case MachineCrash =>
      EventsKeepWellFormed(s.disk, Owners, FileName(0));
      EventsKeepBorn(s.disk, Owners, FileName(0));
    case Acquire(t) => SameDisk(s, Next(s, ev));
    case Proceed(t) => if t in s.tasks { AdvanceKeepsDisk(s, t); }
    case _ => SameDisk(s, Next(s, ev));
  }

  lemma SameDisk(s: System, s': System)
    requires DiskSound(s) && s'.disk == s.disk
    ensures DiskSound(s')
  {
  }

  lemma AdvanceKeepsDisk(s: System, t: TaskId)
    requires t in s.tasks
    ensures Advance(s, t).disk == s.disk
  {
  }

  /** In every run names are unique in each directory, so the storage methods may be called. */
  lemma {:induction false} DiskStaysSound(events: seq<Event>)
    ensures DiskSound(StateAfter(events))
  {
    if events != [] {
      DiskStaysSound(events[..|events| - 1]);
      NextKeepsDiskSound(StateAfter(events[..|events| - 1]), events[|events| - 1]);
    }
  }

  lemma ArrivalKeeps(s: System, t: TaskId, task: Task)
    requires Invariant(s)
    ensures Invariant(Next(s, Arrive(t, task)))
  {
  }

  lemma LeavingKeeps(s: System, t: TaskId, i: Instance)
    requires Invariant(s)
    ensures Invariant(EndTask(s, t)) && Invariant(Next(s, Kill(i))) && Invariant(Next(s, MachineCrash))
  {
  }

  lemma RowsKeep(s: System, r: nat, u: Owner)
    requires Invariant(s)
    ensures Invariant(Next(s, InsertRow(r, u))) && Invariant(Next(s, DeleteRow(r)))
  {
  }

  lemma AdmissionKeeps(s: System, t: TaskId)
    requires Invariant(s)
    ensures Invariant(Next(s, Admit(t)))
  {
  }

  lemma EnteredHoldsOwnerLock(t: TaskId, task: Task, u: Owner)
    requires Entered(task, u)
    ensures (OwnerLock(u), Shared) in Holds(t, task)
  {
  }

  /** The owner lock in exclusive mode means that no saver or ingester is past its last check. */
  lemma AcquisitionKeeps(s: System, t: TaskId)
    requires Invariant(s)
    ensures Invariant(Next(s, Acquire(t)))
  {
    if Next(s, Acquire(t)) != s {
      var task := s.tasks[t];
      if task.Eraser? && task.erase == EraseWaitOwner {
        forall o | o in s.tasks ensures !Entered(s.tasks[o], task.owner) {
          if Entered(s.tasks[o], task.owner) {
            EnteredHoldsOwnerLock(o, s.tasks[o], task.owner);
            assert false;
          }
        }
      }
    }
  }

  /** Nobody makes the directory of a drained owner again, nor brings it back to durability. */
  lemma AbsenceStays(s: System, t: TaskId, op: DiskOp, u: Owner)
    requires t in s.tasks && Performs(s.tasks[t], op) && Possible(s.disk, op)
    requires !Entered(s.tasks[t], u) && NoOwnerDirectory(s.disk.vol, u)
    ensures NoOwnerDirectory(Apply(s.disk, op).vol, u)
    ensures NoOwnerDirectory(s.disk.dur, u) || op == Sync(Owners) ==> NoOwnerDirectory(Apply(s.disk, op).dur, u)
  {
  }

  /** An owner's directory is removed as a whole: there is no second entry of its name. */
  lemma RemovedOwnerIsGone(d: Disk, e: Entry, u: Owner)
    requires WellFormed(d) && Possible(d, Remove(e)) && OwnerEntry(e, u)
    ensures NoOwnerDirectory(Apply(d, Remove(e)).vol, u)
  {
  }

  /** The clauses on tasks and owners do not look at the disk beyond the absence of directories. */
  lemma DiskStepKeeps(s: System, t: TaskId, op: DiskOp)
    requires Invariant(s) && DiskSound(s)
    ensures Invariant(Next(s, DiskStep(t, op)))
  {
    var s' := Next(s, DiskStep(t, op));
    if s' != s {
      var task := s.tasks[t];
      forall u | u in s.drained && NoOwnerDirectory(s.disk.vol, u)
        ensures NoOwnerDirectory(s'.disk.vol, u)
        ensures NoOwnerDirectory(s.disk.dur, u) || op == Sync(Owners) ==> NoOwnerDirectory(s'.disk.dur, u)
      {
        AbsenceStays(s, t, op, u);
      }
      if task.Eraser? && task.erase == EraseRemoving && RemovesOwner(op, task.owner) {
        RemovedOwnerIsGone(s.disk, op.entry, task.owner);
      }
      DiskStepKeepsTasks(s, t, op);
    }
  }

  lemma DiskStepKeepsTasks(s: System, t: TaskId, op: DiskOp)
    requires Invariant(s) && t in s.tasks && Next(s, DiskStep(t, op)) != s
    requires forall u :: u in s.drained && NoOwnerDirectory(s.disk.vol, u) ==>
      NoOwnerDirectory(Apply(s.disk, op).vol, u)
    requires forall u ::
      (u in s.drained && NoOwnerDirectory(s.disk.vol, u) && (NoOwnerDirectory(s.disk.dur, u) || op == Sync(Owners))) ==>
        NoOwnerDirectory(Apply(s.disk, op).dur, u)
    requires
      (s.tasks[t].Eraser? && s.tasks[t].erase == EraseRemoving && RemovesOwner(op, s.tasks[t].owner)) ==>
        NoOwnerDirectory(Apply(s.disk, op).vol, s.tasks[t].owner)
    ensures Invariant(Next(s, DiskStep(t, op)))
  {
    var s' := Next(s, DiskStep(t, op));
    forall o | o in s'.tasks ensures EraserOnTrack(s', s'.tasks[o]) {
      assert EraserOnTrack(s, s.tasks[o]);
    }
    forall o, u | o in s'.tasks && u in s'.drained ensures !Entered(s'.tasks[o], u) {
      assert !Entered(s.tasks[o], u);
    }
  }

  lemma ProceedingKeeps(s: System, t: TaskId)
    requires Invariant(s) && t in s.tasks
    ensures Invariant(Advance(s, t))
  {
  }

  /** Looking changes nothing but the place of the one who looks. */
  lemma ObservingKeeps(s: System, t: TaskId, task: Task)
    requires Invariant(s) && t in s.tasks
    requires task == Observed(s, s.tasks[t]) || (task.Starter? && s.tasks[t].Starter?)
    ensures Invariant(SetTask(s, t, task))
  {
  }

  lemma ScanningStaysStarter(s: System, t: TaskId, ev: Event)
    requires t in s.tasks
    ensures Scanned(s, t, ev) == s.tasks[t] || (Scanned(s, t, ev).Starter? && s.tasks[t].Starter?)
    ensures Scanned(s, t, ev).inst == s.tasks[t].inst
  {
  }

  lemma ScanningKeeps(s: System, t: TaskId, ev: Event)
    requires Invariant(s) && t in s.tasks
    ensures Invariant(SetTask(s, t, Scanned(s, t, ev)))
  {
    ScanningStaysStarter(s, t, ev);
    if s.tasks[t].Starter? {
      ObservingKeeps(s, t, Scanned(s, t, ev));
    } else {
      assert SetTask(s, t, s.tasks[t]) == s by {
        assert s.tasks[t := s.tasks[t]] == s.tasks;
      }
    }
  }

  lemma NextKeepsInvariant(s: System, ev: Event)
    requires Invariant(s) && DiskSound(s)
    ensures Invariant(Next(s, ev))
  {
    match ev
    case Arrive(t, task) => ArrivalKeeps(s, t, task);
    case Fails(t) => LeavingKeeps(s, t, 0);
    case Acquire(t) => AcquisitionKeeps(s, t);
    case Admit(t) => AdmissionKeeps(s, t);
    case DiskStep(t, op) => DiskStepKeeps(s, t, op);
    case Parse(t) => ParsingKeeps(s, t);
    case InsertRow(r, u) => RowsKeep(s, r, u);
    case DeleteRow(r) => RowsKeep(s, r, 0);
    case Proceed(t) => if t in s.tasks { ProceedingKeeps(s, t); }
    case Observe(t) => if t in s.tasks { ObservingKeeps(s, t, Observed(s, s.tasks[t])); }
    case WritesBack(dir, name) => WritingBackKeeps(s, dir, name);
    case Kill(i) => LeavingKeeps(s, 0, i);
    case MachineCrash => LeavingKeeps(s, 0, 0);
    case _ => if ev.task in s.tasks { ScanningKeeps(s, ev.task, ev); }
  }

  lemma ParsingKeeps(s: System, t: TaskId)
    requires Invariant(s)
    ensures Invariant(Next(s, Parse(t)))
  {
  }

  lemma WritingBackKeeps(s: System, dir: Dir, name: Name)
    requires Invariant(s)
    ensures Invariant(Next(s, WritesBack(dir, name)))
  {
  }

  lemma {:induction false} InvariantHolds(events: seq<Event>)
    ensures Invariant(StateAfter(events))
  {
    if events != [] {
      InvariantHolds(events[..|events| - 1]);
      DiskStaysSound(events[..|events| - 1]);
      NextKeepsInvariant(StateAfter(events[..|events| - 1]), events[|events| - 1]);
    }
  }

  // ---- no resurrection ------------------------------------------------------------------------

  /** Nothing of the owner is left: rows, staged originals now or after a crash, parser plaintext. */
  ghost predicate NothingOf(s: System, u: Owner) {
    && (forall r :: r in s.rows ==> s.rows[r] != u)
    && !HasOriginals(s.disk.vol, u) && !HasOriginals(s.disk.dur, u)
    && (forall t, i :: t in s.tasks ==> s.tasks[t] != Ingester(i, u, IngestPlain))
  }

  ghost predicate Grown(s: System, s': System) {
    s.acknowledged <= s'.acknowledged && s.erased <= s'.erased && s.fenced <= s'.fenced
  }

  lemma NextGrows(s: System, ev: Event)
    ensures Grown(s, Next(s, ev))
  {
  }

  lemma {:induction false} HistoryGrows(events: seq<Event>, later: seq<Event>)
    ensures Grown(StateAfter(events), StateAfter(events + later))
  {
    if later == [] {
      assert events + later == events;
    } else {
      var front := later[..|later| - 1];
      HistoryGrows(events, front);
      assert (events + later)[..|events + later| - 1] == events + front;
      NextGrows(StateAfter(events + front), later[|later| - 1]);
    }
  }

  /**
   Once an erasure has returned normally, no later state holds anything of that owner, whatever
   saves, ingests, retries, other erasures, restarts, kills and machine crashes follow.
   */
  lemma NoResurrection(events: seq<Event>, later: seq<Event>, u: Owner)
    requires u in StateAfter(events).acknowledged
    ensures NothingOf(StateAfter(events + later), u)
  {
    HistoryGrows(events, later);
    InvariantHolds(events + later);
    var s := StateAfter(events + later);
    NoDirectoryNoOriginals(s.disk.vol, u);
    NoDirectoryNoOriginals(s.disk.dur, u);
    forall t, i | t in s.tasks ensures s.tasks[t] != Ingester(i, u, IngestPlain) {
      assert !Entered(s.tasks[t], u);
    }
  }

  /**
   The order that makes the acknowledgement sound: when an erasure deletes the owner's rows, no
   original of theirs is durable any more, whatever failed in earlier attempts; so a machine crash
   right then, or at any later point, brings none back.
   */
  lemma RowsGoLast(events: seq<Event>, later: seq<Event>, u: Owner)
    requires u in StateAfter(events).erased
    ensures !HasOriginals(StateAfter(events + later).disk.dur, u)
    ensures !HasOriginals(Crash(StateAfter(events + later).disk).vol, u)
  {
    HistoryGrows(events, later);
    InvariantHolds(events + later);
    NoDirectoryNoOriginals(StateAfter(events + later).disk.dur, u);
  }

  /** Erasure deletes rows only of owners it has fenced, and leaves every other owner's rows. */
  lemma ErasureIsOwnerScoped(events: seq<Event>, t: TaskId, r: nat)
    requires var s := StateAfter(events);
      t in s.tasks && s.tasks[t].Eraser? && r in s.rows && r !in Advance(s, t).rows
    ensures var s := StateAfter(events);
      && s.rows[r] == s.tasks[t].owner && s.tasks[t].owner in s.fenced
      && s.tasks[t].erase == EraseReleased && !HasOriginals(s.disk.dur, s.rows[r])
  {
    InvariantHolds(events);
    var s := StateAfter(events);
    NoDirectoryNoOriginals(s.disk.dur, s.rows[r]);
  }

  // ---- the storage methods take these steps -----------------------------------------------------

  lemma OneMore(events: seq<Event>, ev: Event)
    ensures StateAfter(events + [ev]) == Next(StateAfter(events), ev)
  {
    assert (events + [ev])[..|events + [ev]| - 1] == events;
  }

  /** Replays the recorded operations of an erasure as steps of eraser `t`. */
  function Replayed(t: TaskId, ops: seq<DiskOp>): seq<Event> {
    seq(|ops|, k requires 0 <= k < |ops| => DiskStep(t, ops[k]))
  }

  /** The task stands at `pc` and the disk is as given; all else is as before. */
  function Moved(s: System, t: TaskId, pc: ErasePc, disk: Disk): System
    requires t in s.tasks && s.tasks[t].Eraser?
  {
    s.(disk := disk, tasks := s.tasks[t := s.tasks[t].(erase := pc)])
  }

  function PcAfter(p: Path, u: Owner, k: nat): ErasePc
    requires k <= |p.ops|
  {
    if k > 0 && RemovesOwner(p.ops[k - 1], u) then EraseGone else EraseRemoving
  }

  ghost predicate Erases(s: System, t: TaskId, p: Path) {
    && t in s.tasks && s.tasks[t].Eraser? && s.tasks[t].erase == EraseRemoving
    && Legal(p, Erasing(s.tasks[t].owner)) && EraseShape(p, s.tasks[t].owner) && p.states[0] == s.disk
  }

  lemma {:induction false} ErasePrefixIsARun(events: seq<Event>, t: TaskId, p: Path, k: nat)
    requires Erases(StateAfter(events), t, p) && k < |p.ops|
    ensures var s := StateAfter(events);
      StateAfter(events + Replayed(t, p.ops[..k])) == Moved(s, t, PcAfter(p, s.tasks[t].owner, k), p.states[k])
  {
    var s := StateAfter(events);
    if k == 0 {
      assert events + Replayed(t, p.ops[..0]) == events;
      assert s.tasks[t := s.tasks[t]] == s.tasks;
    } else {
      ErasePrefixIsARun(events, t, p, k - 1);
      EraseStepIsAStep(s, t, p, k - 1);
      ReplayGrows(events, t, p.ops, k);
      OneMore(events + Replayed(t, p.ops[..k - 1]), DiskStep(t, p.ops[k - 1]));
    }
  }

  lemma ReplayGrows(events: seq<Event>, t: TaskId, ops: seq<DiskOp>, k: nat)
    requires 0 < k <= |ops|
    ensures events + Replayed(t, ops[..k]) == events + Replayed(t, ops[..k - 1]) + [DiskStep(t, ops[k - 1])]
  {
  }

  lemma EraseStepIsAStep(s: System, t: TaskId, p: Path, k: nat)
    requires Erases(s, t, p) && k < |p.ops| - 1
    ensures var u := s.tasks[t].owner;
      Next(Moved(s, t, PcAfter(p, u, k), p.states[k]), DiskStep(t, p.ops[k]))
        == Moved(s, t, PcAfter(p, u, k + 1), p.states[k + 1])
  {
    var u := s.tasks[t].owner;
    assert May(Erasing(u), p.states[k], p.ops[k]);
    assert PcAfter(p, u, k) == EraseRemoving;
    var before := Moved(s, t, EraseRemoving, p.states[k]);
    assert Performs(before.tasks[t], p.ops[k]);
    assert before.tasks[t := AfterDisk(before.tasks[t], p.ops[k])]
        == Moved(s, t, PcAfter(p, u, k + 1), p.states[k + 1]).tasks;
  }

  /** The steps of the last test, if the owner's directory was absent, and of the barrier. */
  function LastSteps(t: TaskId, p: Path, u: Owner): seq<Event>
    requires p.ops != []
  {
    (if PcAfter(p, u, |p.ops| - 1) == EraseGone then [] else [Observe(t)]) + [DiskStep(t, Sync(Owners))]
  }

  lemma BarrierIsReached(s: System, t: TaskId, p: Path)
    requires Erases(s, t, p)
    ensures var u := s.tasks[t].owner;
      var before := Moved(s, t, PcAfter(p, u, |p.ops| - 1), p.states[|p.ops| - 1]);
      var seen := if before.tasks[t].erase == EraseGone then before else Next(before, Observe(t));
      var after := Next(seen, DiskStep(t, Sync(Owners)));
      && t in after.tasks && after.tasks[t] == s.tasks[t].(erase := EraseBarred)
      && after.disk == p.states[|p.ops|] && u in after.purged
  {
  }

  lemma TwoMore(run: seq<Event>, first: Event, second: Event)
    ensures StateAfter(run + [first] + [second]) == Next(Next(StateAfter(run), first), second)
  {
    OneMore(run, first);
    OneMore(run + [first], second);
  }

  lemma LastStepsInOrder(run: seq<Event>, t: TaskId, p: Path, u: Owner)
    requires p.ops != []
    ensures run + LastSteps(t, p, u) ==
      if PcAfter(p, u, |p.ops| - 1) == EraseGone then run + [DiskStep(t, Sync(Owners))]
      else run + [Observe(t)] + [DiskStep(t, Sync(Owners))]
  {
  }

  /**
   The storage method takes the system's steps: from any state of a run where eraser `t` holds both
   locks, its recorded path is a run, at the end of which the eraser is past its barrier.
   */
  lemma ErasePathIsARun(events: seq<Event>, t: TaskId, p: Path)
    requires Erases(StateAfter(events), t, p)
    ensures var u := StateAfter(events).tasks[t].owner;
      var after := StateAfter(events + Replayed(t, p.ops[..|p.ops| - 1]) + LastSteps(t, p, u));
      && t in after.tasks && after.tasks[t] == StateAfter(events).tasks[t].(erase := EraseBarred)
      && after.disk == p.states[|p.ops|] && u in after.purged
  {
    var s, n := StateAfter(events), |p.ops| - 1;
    ErasePrefixIsARun(events, t, p, n);
    BarrierIsReached(s, t, p);
    var run := events + Replayed(t, p.ops[..n]);
    LastStepsInOrder(run, t, p, s.tasks[t].owner);
    OneMore(run, DiskStep(t, Sync(Owners)));
    TwoMore(run, Observe(t), DiskStep(t, Sync(Owners)));
  }
}
