/**
 The locks of the erasure system: who holds what exclusively in every run, what that means for
 removals, and why waiting tasks never form a cycle.
 */
module ErasureLocks {
  import opened Common
  import opened StagingDisk
  import opened UploadStorage
  import opened ErasureSystem

  // ---- mutual exclusion -------------------------------------------------------------------------

  predicate HoldsAny(t: TaskId, task: Task, lock: Lock) {
    (lock, Shared) in Holds(t, task) || (lock, Exclusive) in Holds(t, task)
  }

  /** An exclusively held lock is held by nobody else, and a recovered instance is dead. */
  ghost predicate Exclusion(s: System) {
    && (forall t, o, lock :: (t in s.tasks && o in s.tasks && t != o
          && (lock, Exclusive) in Holds(t, s.tasks[t])) ==> !HoldsAny(o, s.tasks[o], lock))
    && (forall t :: t in s.tasks ==> RecoversDead(s, s.tasks[t]))
  }

  predicate RecoversDead(s: System, task: Task) {
    task.Starter? ==>
      match task.start
      case StartAtInstance(_, i, _) => i !in s.live
      case StartAtOwner(_, i, _, _, _) => i !in s.live
      case StartUnlinked(_, i) => i !in s.live
      case _ => true
  }

  /** A task changing its own locks keeps exclusion if each lock it gains is free. */
  lemma ChangeKeepsExclusion(s: System, t: TaskId, task: Task)
    requires Exclusion(s) && RecoversDead(s, task)
    requires forall lock, mode :: (lock, mode) in Holds(t, task) ==>
      (t in s.tasks && (lock, mode) in Holds(t, s.tasks[t])) || !Blocked(s, lock, mode)
    ensures Exclusion(SetTask(s, t, task))
  {
    var s' := SetTask(s, t, task);
    forall o, p, lock | o in s'.tasks && p in s'.tasks && o != p && (lock, Exclusive) in Holds(o, s'.tasks[o])
      ensures !HoldsAny(p, s'.tasks[p], lock)
    {
      if o == t {
        assert p in s.tasks;
      } else if p == t {
        assert o in s.tasks;
      }
    }
  }

  lemma FewerTasksKeepExclusion(s: System, s': System)
    requires Exclusion(s) && s'.live <= s.live
    requires forall t :: t in s'.tasks ==> t in s.tasks && s'.tasks[t] == s.tasks[t]
    ensures Exclusion(s')
  {
  }

  lemma ArrivalKeepsExclusion(s: System, t: TaskId, task: Task)
    requires Exclusion(s) && t !in s.tasks && MayArrive(s, task)
    ensures Exclusion(SetTask(s, t, task))
  {
    forall lock, mode | (lock, mode) in Holds(t, task) ensures !Blocked(s, lock, mode) {
      DrainIsOwn(s, t, lock, mode);
    }
    ChangeKeepsExclusion(s, t, task);
  }

  /** Only an ingester itself holds its own completion. */
  lemma DrainIsOwn(s: System, t: TaskId, lock: Lock, mode: Mode)
    requires t !in s.tasks
    ensures lock == DrainOf(t) ==> !Blocked(s, lock, mode)
  {
  }

  lemma GrantKeepsExclusion(s: System, t: TaskId)
    requires Exclusion(s) && t in s.tasks && Wanted(s.tasks[t]).Some?
    requires var w := Wanted(s.tasks[t]).value; !Blocked(s, w.0, w.1)
    ensures Exclusion(Granted(s, t))
  {
    var task := s.tasks[t];
    if task.Starter? && task.start.StartWaitMarker? {
      LiveMarkerKeepsExclusion(s, t, task.inst);
    } else {
      ChangeKeepsExclusion(s, t, Locked(task));
      var next := SetTask(s, t, Locked(task));
      assert Granted(s, t).tasks == next.tasks && Granted(s, t).live == next.live;
    }
  }

  lemma LiveMarkerKeepsExclusion(s: System, t: TaskId, i: Instance)
    requires Exclusion(s) && !Blocked(s, MarkerLock(i), Exclusive)
    ensures Exclusion(EndTask(s, t).(live := s.live + {i}))
  {
    forall o | o in s.tasks ensures RecoversDead(s.(live := s.live + {i}), s.tasks[o]) {
      assert RecoversDead(s, s.tasks[o]);
      assert (MarkerLock(i), Exclusive) !in Holds(o, s.tasks[o]);
    }
  }

  /** Own steps other than acquisitions never gain a lock, and touch no other task. */
  lemma AdvanceGainsNothing(s: System, t: TaskId)
    requires t in s.tasks
    ensures var s' := Advance(s, t);
      && s'.live == s.live
      && (t !in s'.tasks ==> s'.tasks == s.tasks - {t})
      && (t in s'.tasks ==>
            && s'.tasks == s.tasks[t := s'.tasks[t]]
            && Holds(t, s'.tasks[t]) <= Holds(t, s.tasks[t])
            && (RecoversDead(s, s.tasks[t]) ==> RecoversDead(s, s'.tasks[t])))
  {
  }

  lemma AdmissionGainsNothing(t: TaskId, task: Task)
    requires Admitted(task).Some? && Admitted(task).value.Some?
    ensures Holds(t, Admitted(task).value.value) <= Holds(t, task)
    ensures !Admitted(task).value.value.Starter?
  {
  }

  /** Keeping, giving back or ending: no new lock, so exclusion stays. */
  lemma GainingNothingKeepsExclusion(s: System, s': System, t: TaskId)
    requires Exclusion(s) && t in s.tasks && s'.live == s.live
    requires t !in s'.tasks ==> s'.tasks == s.tasks - {t}
    requires t in s'.tasks ==>
      && s'.tasks == s.tasks[t := s'.tasks[t]]
      && Holds(t, s'.tasks[t]) <= Holds(t, s.tasks[t]) && RecoversDead(s, s'.tasks[t])
    ensures Exclusion(s')
  {
    if t in s'.tasks {
      ChangeKeepsExclusion(s, t, s'.tasks[t]);
      assert s'.tasks == SetTask(s, t, s'.tasks[t]).tasks;
    } else {
      FewerTasksKeepExclusion(s, s');
    }
  }

  lemma AdvanceKeepsExclusion(s: System, t: TaskId)
    requires Exclusion(s) && t in s.tasks
    ensures Exclusion(Advance(s, t))
  {
    AdvanceGainsNothing(s, t);
    GainingNothingKeepsExclusion(s, Advance(s, t), t);
  }

  lemma AdmitKeepsExclusion(s: System, t: TaskId)
    requires Exclusion(s)
    ensures Exclusion(Next(s, Admit(t)))
  {
    if Next(s, Admit(t)) != s {
      if Admitted(s.tasks[t]).value.Some? {
        AdmissionGainsNothing(t, s.tasks[t]);
      }
      GainingNothingKeepsExclusion(s, Next(s, Admit(t)), t);
    }
  }

  /** Reading a directory gains no lock; a lock that is tried is gained only when it is free. */
  lemma ScanningGainsOnlyFree(s: System, t: TaskId, ev: Event)
    requires t in s.tasks && RecoversDead(s, s.tasks[t])
    ensures RecoversDead(s, Scanned(s, t, ev))
    ensures forall lock, mode :: (lock, mode) in Holds(t, Scanned(s, t, ev)) ==>
      (lock, mode) in Holds(t, s.tasks[t]) || !Blocked(s, lock, mode)
  {
  }

  lemma ScanningKeepsExclusion(s: System, t: TaskId, ev: Event)
    requires Exclusion(s) && t in s.tasks
    ensures Exclusion(SetTask(s, t, Scanned(s, t, ev)))
  {
    ScanningGainsOnlyFree(s, t, ev);
    ChangeKeepsExclusion(s, t, Scanned(s, t, ev));
  }

  lemma ObservingKeepsExclusion(s: System, t: TaskId)
    requires Exclusion(s) && t in s.tasks
    ensures Exclusion(SetTask(s, t, Observed(s, s.tasks[t])))
  {
    assert RecoversDead(s, s.tasks[t]);
    ChangeKeepsExclusion(s, t, Observed(s, s.tasks[t]));
  }

  lemma AfterDiskGainsNothing(s: System, t: TaskId, op: DiskOp)
    requires t in s.tasks && RecoversDead(s, s.tasks[t])
    ensures Holds(t, AfterDisk(s.tasks[t], op)) <= Holds(t, s.tasks[t])
    ensures RecoversDead(s, AfterDisk(s.tasks[t], op))
  {
  }

  lemma DiskStepKeepsExclusion(s: System, t: TaskId, op: DiskOp)
    requires Exclusion(s)
    ensures Exclusion(Next(s, DiskStep(t, op)))
  {
    if Next(s, DiskStep(t, op)) != s {
      AfterDiskGainsNothing(s, t, op);
      GainingNothingKeepsExclusion(s, Next(s, DiskStep(t, op)), t);
    }
  }

  lemma NextKeepsExclusion(s: System, ev: Event)
    requires Exclusion(s)
    ensures Exclusion(Next(s, ev))
  {
    match ev
    case Arrive(t, task) =>
      if t !in s.tasks && MayArrive(s, task) {
        ArrivalKeepsExclusion(s, t, task);
        var s' := SetTask(s, t, task);
        FewerTasksKeepExclusion(s', Next(s, ev));
      }
    case Acquire(t) => if Next(s, ev) != s { GrantKeepsExclusion(s, t); }
    case Admit(t) => AdmitKeepsExclusion(s, t);
    case Proceed(t) => if t in s.tasks { AdvanceKeepsExclusion(s, t); }
    case Observe(t) => if t in s.tasks { ObservingKeepsExclusion(s, t); }
    case Parse(t) => if Next(s, ev) != s { ChangeKeepsExclusion(s, t, s.tasks[t].(ingest := IngestParsed)); }
    case Fails(_) => FewerTasksKeepExclusion(s, Next(s, ev));
    case Kill(_) => FewerTasksKeepExclusion(s, Next(s, ev));
    case MachineCrash => FewerTasksKeepExclusion(s, Next(s, ev));
    case DiskStep(t, op) => DiskStepKeepsExclusion(s, t, op);
    case InsertRow(_, _) => FewerTasksKeepExclusion(s, Next(s, ev));
    case DeleteRow(_) => FewerTasksKeepExclusion(s, Next(s, ev));
    case WritesBack(_, _) => FewerTasksKeepExclusion(s, Next(s, ev));
    case _ => if ev.task in s.tasks { ScanningKeepsExclusion(s, ev.task, ev); }
  }

  lemma {:induction false} ExclusionHolds(events: seq<Event>)
    ensures Exclusion(StateAfter(events))
  {
    if events != [] {
      ExclusionHolds(events[..|events| - 1]);
      NextKeepsExclusion(StateAfter(events[..|events| - 1]), events[|events| - 1]);
    }
  }

  /**
   In every run, a starting process removes a file only of an instance that is not alive and of an
   owner whose lock nobody else holds, in any mode; an eraser only of its own owner, alone.
   */
  lemma RemovalsAreExclusive(events: seq<Event>, t: TaskId, e: Entry, u: Owner, i: Instance, o: TaskId)
    requires var s := StateAfter(events);
      && t in s.tasks && (s.tasks[t].Starter? || s.tasks[t].Eraser?)
      && OriginalEntry(e, u, i) && e in s.disk.vol && e !in Next(s, DiskStep(t, Remove(e))).disk.vol
    ensures var s := StateAfter(events);
      && (s.tasks[t].Starter? ==> i !in s.live)
      && (o in s.tasks && o != t ==> !HoldsAny(o, s.tasks[o], OwnerLock(u)))
  {
    ExclusionHolds(events);
    var s := StateAfter(events);
    var task := s.tasks[t];
    RemovalHoldsOwnerLock(t, task, e, u, i);
    assert RecoversDead(s, task);
  }

  lemma RemovalHoldsOwnerLock(t: TaskId, task: Task, e: Entry, u: Owner, i: Instance)
    requires (task.Starter? || task.Eraser?) && Performs(task, Remove(e)) && OriginalEntry(e, u, i)
    ensures (OwnerLock(u), Exclusive) in Holds(t, task)
    ensures task.Starter? ==> task.start.StartAtOwner? && task.start.instance == i && task.start.owner == u
  {
    if task.Starter? && task.start.StartAtOwner? {
      OriginalIsInOneTree(e, u, i);
      TreesAreDisjoint(e, u, i, task.start.owner, task.start.instance);
    } else if task.Eraser? {
      OwnerOfOriginal(e, u, i, task.owner);
    }
  }

  lemma OriginalIsInOneTree(e: Entry, u: Owner, i: Instance)
    requires OriginalEntry(e, u, i)
    ensures InInstanceTree(e, u, i)
  {
    assert InInstanceTree(e.dir.entry, u, i);
  }

  lemma OwnerOfOriginal(e: Entry, u: Owner, i: Instance, v: Owner)
    requires OriginalEntry(e, u, i) && InOwnerTree(e, v)
    ensures u == v
  {
    var instance := e.dir.entry;
    assert InOwnerTree(instance, v);
    assert InOwnerTree(instance.dir.entry, v);
  }

  // ---- no deadlock ------------------------------------------------------------------------------

  /** The order in which locks are asked for. */
  function Rank(lock: Lock): nat {
    match lock
    case DrainOf(_) => 1
    case OwnerLock(_) => 2
    case StartupLock => 3
    case MarkerLock(_) => 4
  }

  /** The locks a task is waiting for: the one it blocks on, or the tasks it drains. */
  predicate WaitsFor(s: System, t: TaskId, lock: Lock) {
    && t in s.tasks
    && (match lock
        case DrainOf(o) => o in s.tasks && Drains(s.tasks[t], s.tasks[o])
        case _ => Wanted(s.tasks[t]).Some? && Wanted(s.tasks[t]).value.0 == lock)
  }

  /** A waiting task only holds locks of lower rank than the one it waits for. */
  lemma WaitsUpwards(s: System, t: TaskId, lock: Lock, held: Lock)
    requires WaitsFor(s, t, lock) && HoldsAny(t, s.tasks[t], held)
    ensures Rank(held) < Rank(lock)
  {
  }

  /** `t` waits for something `o` holds. */
  ghost predicate WaitsOn(s: System, t: TaskId, o: TaskId) {
    t != o && exists lock :: WaitsFor(s, t, lock) && o in s.tasks && HoldsAny(o, s.tasks[o], lock)
  }

  ghost predicate WaitChain(s: System, chain: seq<TaskId>) {
    forall k :: 0 <= k < |chain| - 1 ==> WaitsOn(s, chain[k], chain[k + 1])
  }

  /** Along a chain of waiting tasks, what is waited for climbs in rank. */
  lemma {:induction false} ChainClimbs(s: System, chain: seq<TaskId>, lock: Lock)
    requires |chain| >= 2 && WaitChain(s, chain)
    requires WaitsFor(s, chain[|chain| - 2], lock) && chain[|chain| - 1] in s.tasks
    requires HoldsAny(chain[|chain| - 1], s.tasks[chain[|chain| - 1]], lock)
    ensures Rank(lock) >= |chain| - 1
    ensures exists first :: WaitsFor(s, chain[0], first) && Rank(first) + |chain| - 2 <= Rank(lock)
  {
    if |chain| > 2 {
      var front := chain[..|chain| - 1];
      assert WaitsOn(s, chain[|chain| - 3], chain[|chain| - 2]);
      var end := front[|front| - 1];
      var below :| WaitsFor(s, front[|front| - 2], below) && HoldsAny(end, s.tasks[end], below);
      ChainClimbs(s, front, below);
      WaitsUpwards(s, chain[|chain| - 2], lock, below);
    }
  }

  /** A chain of waiting tasks has at most five tasks, in any state at all. */
  lemma ChainsAreShort(s: System, chain: seq<TaskId>)
    requires WaitChain(s, chain)
    ensures |chain| <= 5
  {
    if |chain| >= 2 {
      assert WaitsOn(s, chain[|chain| - 2], chain[|chain| - 1]);
      var end := chain[|chain| - 1];
      var lock :| WaitsFor(s, chain[|chain| - 2], lock) && HoldsAny(end, s.tasks[end], lock);
      ChainClimbs(s, chain, lock);
    }
  }

  /** No cycle of waiting tasks exists, in any state at all. */
  lemma NoDeadlock(s: System, cycle: seq<TaskId>)
    requires cycle != []
    ensures !WaitChain(s, cycle + [cycle[0]])
  {
    var chain := cycle + [cycle[0]];
    if WaitChain(s, chain) {
      assert WaitsOn(s, chain[|chain| - 2], chain[|chain| - 1]);
      var lock :| WaitsFor(s, chain[|chain| - 2], lock) && HoldsAny(cycle[0], s.tasks[cycle[0]], lock);
      ChainClimbs(s, chain, lock);
      var first :| WaitsFor(s, chain[0], first) && Rank(first) + |chain| - 2 <= Rank(lock);
      WaitsUpwards(s, cycle[0], first, lock);
    }
  }

  ghost predicate Runs(s: System, t: TaskId) {
    forall o :: !WaitsOn(s, t, o)
  }

  /** From any task, following who waits for whom ends at a task that waits for nobody. */
  lemma {:induction false} SomeHolderRuns(s: System, chain: seq<TaskId>) returns (full: seq<TaskId>)
    requires chain != [] && WaitChain(s, chain)
    ensures chain <= full && WaitChain(s, full) && Runs(s, full[|full| - 1])
    decreases 5 - |chain|
  {
    ChainsAreShort(s, chain);
    if Runs(s, chain[|chain| - 1]) {
      full := chain;
    } else {
      var o :| WaitsOn(s, chain[|chain| - 1], o);
      ChainsAreShort(s, chain + [o]);
      full := SomeHolderRuns(s, chain + [o]);
    }
  }
}
