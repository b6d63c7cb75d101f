/** The ingest worker's queue operations, in place, against the steps of module IngestQueue. */
module IngestWorkers {
  import opened Common
  import opened IngestQueue

  /** asyncio.Queue: `unfinished` counts puts not yet answered by `task_done`. */
  class AsyncQueue {
    var items: seq<Entry>
    var unfinished: nat
    /** How often the count fell to zero and released whoever waits in `join`. */
    ghost var releases: nat

    constructor ()
      ensures items == [] && unfinished == 0 && releases == 0
    {
      items := [];
      unfinished := 0;
      releases := 0;
    }

    method PutNowait(e: Entry)
      modifies this
      ensures items == old(items) + [e] && unfinished == old(unfinished) + 1 && releases == old(releases)
    {
      items := items + [e];
      unfinished := unfinished + 1;
    }

    method GetNowait() returns (e: Entry)
      requires items != []
      modifies this`items
      ensures e == old(items)[0] && items == old(items)[1..]
    {
      e := items[0];
      items := items[1..];
    }

    /** Raises ValueError below zero, so every call must be matched by a put. */
    method TaskDone()
      requires unfinished > 0
      modifies this`unfinished, this`releases
      ensures unfinished == old(unfinished) - 1
      ensures releases == old(releases) + (if unfinished == 0 then 1 else 0)
    {
      unfinished := unfinished - 1;
      if unfinished == 0 {
        releases := releases + 1;
      }
    }
  }

  class IngestWorker {
    const queue: AsyncQueue
    var inFlight: Option<Entry>
    var running: bool
    var crashed: bool
    var erased: set<Owner>
    var retries: seq<Job>
    var stopping: bool
    var files: set<File>
    ghost var accepted: map<DocId, Job>
    ghost var exits: map<DocId, Exit>
    ghost var lost: set<DocId>
    ghost var drained: set<Owner>

    ghost function State(): Worker
      reads this, queue
    {
      Worker(queue.items, queue.unfinished, inFlight, running, crashed, erased, retries, stopping, files,
             accepted, exits, lost, drained)
    }

    constructor ()
      ensures fresh(queue) && State() == IDLE
    {
      queue := new AsyncQueue();
      inFlight := None;
      running := false;
      crashed := false;
      erased := {};
      retries := [];
      stopping := false;
      files := {};
      accepted := map[];
      exits := map[];
      lost := {};
      drained := {};
    }

    method Unlink(path: File)
      modifies this`files
      ensures files == old(files) - {path}
    {
      files := files - {path};
    }

    /** `enqueue`: a refused owner's original is unlinked if that works, any other error leaves it alone. */
    method Enqueue(job: Job, admission: Admission, jammed: bool) returns (taken: bool)
      modifies this, queue
      ensures State() == Step(old(State()), IngestQueue.Enqueue(job, admission, jammed))
      ensures taken <==> admission == Active && job.owner !in erased
      ensures erased == old(erased) && retries == old(retries) && inFlight == old(inFlight)
      ensures taken ==>
        && queue.items == old(queue.items) + [Work(job)] && queue.unfinished == old(queue.unfinished) + 1
        && files == old(files)
      ensures !taken ==>
        && queue.items == old(queue.items) && queue.unfinished == old(queue.unfinished)
        && files == if admission == Failing || jammed then old(files) else old(files) - {job.path}
      ensures queue.releases == old(queue.releases)
    {
      if admission == Failing {
        return false;
      }
      if admission == Erased || job.owner in erased {
        if !jammed {
          Unlink(job.path);
        }
        return false;
      }
      queue.PutNowait(Work(job));
      accepted := accepted[job.document := job];
      return true;
    }

    /** `[get_nowait() for _ in range(qsize())]`. */
    method DrainAll() returns (jobs: seq<Entry>)
      modifies queue`items
      ensures jobs == old(queue.items) && queue.items == []
    {
      jobs := [];
      while queue.items != []
        invariant jobs + queue.items == old(queue.items)
        decreases |queue.items|
        modifies queue`items
      {
        var e := queue.GetNowait();
        jobs := jobs + [e];
      }
    }

    /** Unlinks the owner's queued originals in order; `failed` when one cannot be unlinked. */
    method UnlinkQueued(jobs: seq<Entry>, u: Owner, stuck: set<File>) returns (failed: bool)
      modifies this`files
      ensures failed <==> FirstStuck(jobs, u, stuck) < |jobs|
      ensures files == old(files) - QueuedPaths(jobs[..FirstStuck(jobs, u, stuck)], u)
    {
      var k := 0;
      while k < |jobs|
        invariant k <= FirstStuck(jobs, u, stuck)
        invariant files == old(files) - QueuedPaths(jobs[..k], u)
      {
        NextPath(jobs, k, u);
        if Owned(jobs[k], u) {
          if jobs[k].job.path in stuck {
            FirstStuckIs(jobs, k, u, stuck);
            return true;
          }
          Unlink(jobs[k].job.path);
        }
        FirstStuckIsLater(jobs, k, u, stuck);
        k := k + 1;
      }
      failed := false;
    }

    /**
     Puts back the entries that stay, acknowledging each old entry after its own re-entry, so the
     count touches zero only when nothing at all is left.
     */
    method Rebuild(jobs: seq<Entry>, u: Option<Owner>)
      requires queue.items == []
      requires queue.unfinished == |jobs| + (if inFlight.Some? then 1 else 0)
      modifies queue
      ensures queue.items == match u case None => jobs case Some(owner) => Others(jobs, owner)
      ensures queue.unfinished == |queue.items| + (if inFlight.Some? then 1 else 0)
      ensures queue.releases != old(queue.releases) ==> queue.items == [] && inFlight.None?
    {
      var k := 0;
      while k < |jobs|
        invariant k <= |jobs|
        invariant queue.items == match u case None => jobs[..k] case Some(owner) => Others(jobs[..k], owner)
        invariant queue.unfinished == |jobs| - k + |queue.items| + (if inFlight.Some? then 1 else 0)
        invariant queue.releases != old(queue.releases) ==> queue.items == [] && inFlight.None? && k == |jobs|
        modifies queue
      {
        assert jobs[..k + 1] == jobs[..k] + [jobs[k]];
        if u.None? || !Owned(jobs[k], u.value) {
          queue.PutNowait(jobs[k]);
        }
        queue.TaskDone();
        k := k + 1;
      }
      assert jobs[..k] == jobs;
    }

    /** The part of `erase_user` before its first await, on the queue. */
    method DrainOwned(u: Owner, stuck: set<File>) returns (raised: bool)
      requires Accounted(State())
      modifies this`files, this`exits, this`lost, queue
      ensures State() == DrainQueue(old(State()), u, stuck)
      ensures raised <==> QueueStuck(old(State()), u, stuck)
      ensures queue.releases != old(queue.releases) ==> queue.items == [] && inFlight.None?
    {
      var jobs := DrainAll();
      raised := UnlinkQueued(jobs, u, stuck);
      if raised {
        Rebuild(jobs, None);
        lost := lost + QueuedDocs(jobs[..FirstStuck(jobs, u, stuck)], u);
      } else {
        assert jobs[..|jobs|] == jobs;
        Rebuild(jobs, Some(u));
        exits := Leave(exits, QueuedDocs(jobs, u), ErasedWithOwner);
      }
    }

    /** Takes one job out of the retry table, by a named exit. */
    method DropDelayed(index: nat, how: Exit)
      requires index < |retries|
      modifies this`retries, this`exits
      ensures State() == DropRetry(old(State()), index, how)
    {
      var job := retries[index];
      retries := retries[..index] + retries[index + 1..];
      exits := exits[job.document := how];
    }

    /** The retry table is emptied of the owner's jobs, until one original cannot be unlinked. */
    method DrainDelayed(u: Owner, stuck: set<File>) returns (raised: bool)
      modifies this`retries, this`files, this`exits, this`drained
      ensures State() == DrainRetries(old(State()), u, stuck, 0)
      ensures !raised ==> u in drained
    {
      ghost var before := State();
      var from := 0;
      while from < |retries|
        invariant DrainRetries(State(), u, stuck, from) == DrainRetries(before, u, stuck, 0)
        decreases |retries| - from
      {
        var job := retries[from];
        if job.owner != u {
          from := from + 1;
        } else if job.path in stuck {
          DropDelayed(from, StuckInErasure);
          return true;
        } else {
          DropDelayed(from, ErasedWithOwner);
          Unlink(job.path);
        }
      }
      drained := drained + {u};
      raised := false;
    }

    /**
     `erase_user` up to its first await. The owner is marked before anything is drained, so no
     late enqueue slips in; if an unlink fails the whole queue is restored; and whoever waits in
     `join` is released only when nothing at all is queued or in flight.
     */
    method EraseUser(u: Owner, stuck: set<File>) returns (raised: bool)
      requires Accounted(State())
      modifies this`erased, this`retries, this`files, this`exits, this`lost, this`drained, queue
      ensures State() == Step(old(State()), IngestQueue.EraseUser(u, stuck))
      ensures !raised ==> u in drained
      ensures erased == old(erased) + {u} && inFlight == old(inFlight) && stopping == old(stopping)
      ensures raised && QueueStuck(old(State()), u, stuck * old(files)) ==> queue.items == old(queue.items)
      ensures queue.releases != old(queue.releases) ==> queue.items == [] && inFlight.None?
    {
      var failing := stuck * files;
      erased := erased + {u};
      raised := DrainOwned(u, failing);
      if raised {
        return;
      }
      raised := DrainDelayed(u, failing);
    }

    /** `start`: a new run loop unless one is going on. */
    method Start()
      modifies this`running, this`crashed, this`stopping
      ensures State() == Step(old(State()), IngestQueue.Start)
      ensures running && !crashed && !stopping
    {
      stopping := false;
      running := true;
      crashed := false;
    }

    /** `_run` takes the next entry; the job becomes active before anything is awaited. */
    method Take()
      modifies this`inFlight, queue
      ensures State() == Step(old(State()), IngestQueue.Take)
      ensures if running && old(inFlight).None? && old(queue.items) != []
        then inFlight == Some(old(queue.items)[0]) && queue.items == old(queue.items)[1..]
        else inFlight == old(inFlight) && queue.items == old(queue.items)
      ensures queue.releases == old(queue.releases)
    {
      if !running || inFlight.Some? || queue.items == [] {
        return;
      }
      var e := queue.GetNowait();
      inFlight := Some(e);
    }

    /** Unlinks the job's original and says whether that failed. */
    method UnlinkOf(job: Job, how: Exit, jammed: bool) returns (raised: bool)
      modifies this`files, this`exits
      ensures State() == LeaveUnlinked(old(State()), job, how, jammed)
      ensures raised <==> Jams(old(State()), job, jammed)
    {
      if jammed && job.path in files {
        exits := exits[job.document := UnlinkFailed];
        return true;
      }
      Unlink(job.path);
      exits := exits[job.document := how];
      raised := false;
    }

    /** `_schedule_retry`, up to an exception of its unlink, which the caller's loop does not survive. */
    method ScheduleRetry(job: Job, jammed: bool) returns (raised: bool)
      modifies this`retries, this`files, this`exits
      ensures raised <==> job.owner in erased && Jams(old(State()), job, jammed)
      ensures if raised then State() == LeaveUnlinked(old(State()), job, ErasedWithOwner, jammed)
              else State() == FinishJob(old(State()), job, Retryable, jammed)
    {
      if job.owner in erased {
        raised := UnlinkOf(job, ErasedWithOwner, jammed);
        return;
      }
      raised := false;
      if stopping {
        exits := exits[job.document := SuppressedByStop];
        return;
      }
      retries := retries + [job];
    }

    /** `_run` after the active task ended: a retry, an end, and always one `task_done`. */
    method Finish(outcome: Outcome, jammed: bool)
      requires Accounted(State())
      modifies this`inFlight, this`running, this`crashed, this`retries, this`files, this`exits, queue
      ensures State() == Step(old(State()), IngestQueue.Finish(outcome, jammed))
      ensures queue.releases != old(queue.releases) ==> queue.items == [] && inFlight.None?
    {
      if inFlight.None? {
        return;
      }
      var e := inFlight.value;
      if e.Work? {
        if outcome == Retryable {
          var raised := ScheduleRetry(e.job, jammed);
          if raised {
            running, crashed := false, true;
          }
        } else {
          var _ := UnlinkOf(e.job, Completed(outcome), jammed);
        }
      } else {
        running := false;
      }
      queue.TaskDone();
      inFlight := None;
    }

    /** The body of a delayed retry: `enqueue` again, and leave the table whatever happens. */
    method RetryFires(index: nat, admission: Admission, jammed: bool)
      requires index < |retries|
      modifies this`retries, this`files, this`exits, queue
      ensures State() == Step(old(State()), IngestQueue.RetryFires(index, admission, jammed))
      ensures retries == old(retries)[..index] + old(retries)[index + 1..] && inFlight == old(inFlight)
      ensures
        var job := old(retries)[index];
        var again := !stopping && admission == Active && job.owner !in erased;
        && queue.items == (if again then old(queue.items) + [Work(job)] else old(queue.items))
        && files == (if again || stopping || admission == Failing || jammed then old(files)
                     else old(files) - {job.path})
    {
      var job := retries[index];
      if stopping {
        DropDelayed(index, CancelledByStop);
      } else if admission == Failing {
        DropDelayed(index, RetryAdmissionFailed);
      } else if admission == Erased || job.owner in erased {
        if jammed && job.path in files {
          DropDelayed(index, UnlinkFailed);
        } else {
          Unlink(job.path);
          DropDelayed(index, ErasedWithOwner);
        }
      } else {
        queue.PutNowait(Work(job));
        retries := retries[..index] + retries[index + 1..];
      }
    }

    /** `stop`: delayed retries are cancelled, their originals stay; the sentinel ends the loop. */
    method Stop()
      modifies this`stopping, this`retries, this`exits, queue
      ensures State() == Step(old(State()), IngestQueue.Stop)
      ensures files == old(files) && inFlight == old(inFlight)
      ensures if running || crashed then stopping && retries == [] && queue.items == old(queue.items) + [Sentinel]
        else stopping == old(stopping) && retries == old(retries) && queue.items == old(queue.items)
    {
      if !running && !crashed {
        return;
      }
      stopping := true;
      exits := Leave(exits, AllDocs(retries), CancelledByStop);
      retries := [];
      queue.PutNowait(Sentinel);
    }
  }

  lemma NextPath(jobs: seq<Entry>, k: nat, u: Owner)
    requires k < |jobs|
    ensures QueuedPaths(jobs[..k + 1], u) ==
      QueuedPaths(jobs[..k], u) + (if Owned(jobs[k], u) then {jobs[k].job.path} else {})
  {
    assert jobs[..k + 1] == jobs[..k] + [jobs[k]];
  }

  lemma FirstStuckIs(jobs: seq<Entry>, k: nat, u: Owner, stuck: set<File>)
    requires k < |jobs| && k <= FirstStuck(jobs, u, stuck)
    requires Owned(jobs[k], u) && jobs[k].job.path in stuck
    ensures FirstStuck(jobs, u, stuck) == k
  {
  }

  lemma FirstStuckIsLater(jobs: seq<Entry>, k: nat, u: Owner, stuck: set<File>)
    requires k < |jobs| && k <= FirstStuck(jobs, u, stuck)
    requires !(Owned(jobs[k], u) && jobs[k].job.path in stuck)
    ensures k < FirstStuck(jobs, u, stuck)
  {
  }
}
