/**
 How a call of `erase_user` on the ingest worker is answered: it drains, waits for the retries it
 cancelled, and then for the owner's active job, whose exception it passes on.
 */
module IngestErasures {
  import opened Common
  import opened IngestQueue
  import opened IngestExits
  import opened IngestOutcomes
  import Pipeline = IngestPipelines

  datatype Answer = Waiting | Returned | Raised

  /** Some original of the owner, queued or delayed, is there and cannot be unlinked. */
  predicate EraseStuck(w: Worker, u: Owner, stuck: set<File>) {
    QueueStuck(w, u, stuck * w.files) || StuckFrom(w.retries, u, stuck * w.files, 0)
  }

  predicate StuckFrom(retries: seq<Job>, u: Owner, stuck: set<File>, from: nat) {
    exists x :: from <= x < |retries| && Stuck(retries[x], u, stuck)
  }

  predicate ActiveOf(w: Worker, u: Owner) {
    w.inFlight.Some? && Owned(w.inFlight.value, u)
  }

  /** The first end of an active entry from some event on, or the length. */
  function NextFinish(events: seq<Event>, g: nat): (m: nat)
    requires g <= |events|
    ensures g <= m <= |events| && (m < |events| ==> events[m].Finish?)
    ensures forall j :: g <= j < m ==> !events[j].Finish?
    decreases |events| - g
  {
    if g == |events| || events[g].Finish? then g else NextFinish(events, g + 1)
  }

  /** The active task ended without an exception, that of a failing unlink included. */
  predicate EndsWell(w: Worker, ev: Event) {
    ev.Finish? && ev.outcome == Succeeded && w.inFlight.Some? && w.inFlight.value.Work?
    && !Jams(w, w.inFlight.value.job, ev.jammed)
  }

  /**
   The answer, by the end of the run, to the call that is its k-th event. At event g it looks at the
   active slot: right away if it cancelled no retry, else when those have ended.
   */
  function AnswerOf(events: seq<Event>, k: nat, g: nat): Answer
    requires k < g <= |events| && events[k].EraseUser?
  {
    var u := events[k].owner;
    if EraseStuck(After(events[..k]), u, events[k].stuck) then Raised
    else if !ActiveOf(After(events[..g]), u) then Returned
    else
      var m := NextFinish(events, g);
      if m == |events| then Waiting else if EndsWell(After(events[..m]), events[m]) then Returned else Raised
  }

  // ---- when the draining succeeds ---------------------------------------------------------------

  lemma StuckAfterErasing(s: seq<Job>, from: nat, u: Owner, stuck: set<File>)
    requires from < |s| && !Stuck(s[from], u, stuck)
    ensures StuckFrom(s, u, stuck, from) <==> StuckFrom(s, u, stuck, from + 1)
    ensures StuckFrom(s, u, stuck, from) <==> StuckFrom(s[..from] + s[from + 1..], u, stuck, from)
  {
    var t := s[..from] + s[from + 1..];
    if StuckFrom(s, u, stuck, from) {
      var x :| from <= x < |s| && Stuck(s[x], u, stuck);
      assert t[x - 1] == s[x];
    }
    if StuckFrom(t, u, stuck, from) {
      var x :| from <= x < |t| && Stuck(t[x], u, stuck);
      assert s[x + 1] == t[x];
    }
  }

  lemma {:induction false} DrainedUnlessStuck(w: Worker, u: Owner, stuck: set<File>, from: nat)
    ensures u in DrainRetries(w, u, stuck, from).drained <==> u in w.drained || !StuckFrom(w.retries, u, stuck, from)
    decreases |w.retries| - from
  {
    if from < |w.retries| {
      if w.retries[from].owner != u {
        StuckAfterErasing(w.retries, from, u, stuck);
        DrainedUnlessStuck(w, u, stuck, from + 1);
      } else if w.retries[from].path in stuck {
        assert Stuck(w.retries[from], u, stuck);
      } else {
        StuckAfterErasing(w.retries, from, u, stuck);
        DrainedUnlessStuck(EraseRetry(w, from), u, stuck, from);
      }
    }
  }

  lemma ErasureDrains(w: Worker, u: Owner, stuck: set<File>)
    ensures u in Step(w, EraseUser(u, stuck)).drained <==> u in w.drained || !EraseStuck(w, u, stuck)
  {
    if !QueueStuck(w, u, stuck * w.files) {
      DrainedUnlessStuck(DrainQueue(w.(erased := w.erased + {u}), u, stuck * w.files), u, stuck * w.files, 0);
    }
  }

  // ---- what a successful draining does ----------------------------------------------------------

  lemma {:induction false} FirstStuckIff(items: seq<Entry>, u: Owner, stuck: set<File>)
    ensures FirstStuck(items, u, stuck) < |items|
      <==> exists e :: e in items && e.Work? && e.job.owner == u && e.job.path in stuck
  {
    var k := FirstStuck(items, u, stuck);
    if k < |items| {
      assert items[k] in items;
    }
    if e :| e in items && e.Work? && e.job.owner == u && e.job.path in stuck {
      var j :| 0 <= j < |items| && items[j] == e;
      assert Owned(items[j], u);
    }
  }

  /** It raises at once exactly if an original of the owner, queued or delayed, is there and stays. */
  lemma EraseStuckIff(w: Worker, u: Owner, stuck: set<File>)
    ensures EraseStuck(w, u, stuck) <==>
      || (exists e :: e in w.items && e.Work? && e.job.owner == u && e.job.path in stuck && e.job.path in w.files)
      || (exists j :: j in w.retries && j.owner == u && j.path in stuck && j.path in w.files)
  {
    FirstStuckIff(w.items, u, stuck * w.files);
    if StuckFrom(w.retries, u, stuck * w.files, 0) {
      var x :| 0 <= x < |w.retries| && Stuck(w.retries[x], u, stuck * w.files);
      assert w.retries[x] in w.retries;
    }
    if j :| j in w.retries && j.owner == u && j.path in stuck && j.path in w.files {
      var x :| 0 <= x < |w.retries| && w.retries[x] == j;
      assert Stuck(w.retries[x], u, stuck * w.files);
    }
  }

  /** The delayed jobs of other owners, in their order. */
  function OthersDelayed(retries: seq<Job>, u: Owner): seq<Job> {
    if retries == [] then []
    else (if retries[0].owner == u then [] else [retries[0]]) + OthersDelayed(retries[1..], u)
  }

  function PathsOf(retries: seq<Job>, u: Owner): set<File> {
    set j | j in retries && j.owner == u :: j.path
  }

  lemma TailAfterErasing(s: seq<Job>, from: nat, u: Owner)
    requires from < |s|
    ensures var t := s[..from] + s[from + 1..]; t[..from] == s[..from] && t[from..] == s[from + 1..]
    ensures PathsOf(s[from..], u) == PathsOf(s[from + 1..], u) + (if s[from].owner == u then {s[from].path} else {})
    ensures s[from..][0] == s[from] && s[from..][1..] == s[from + 1..]
  {
    assert s[from..] == [s[from]] + s[from + 1..];
  }

  lemma {:induction false} DrainedRetries(w: Worker, u: Owner, stuck: set<File>, from: nat)
    requires from <= |w.retries| && !StuckFrom(w.retries, u, stuck, from)
    ensures var w' := DrainRetries(w, u, stuck, from);
      && w'.retries == w.retries[..from] + OthersDelayed(w.retries[from..], u)
      && w'.files == w.files - PathsOf(w.retries[from..], u)
    decreases |w.retries| - from
  {
    if from == |w.retries| {
      assert w.retries[..from] + [] == w.retries;
    } else {
      var job := w.retries[from];
      TailAfterErasing(w.retries, from, u);
      assert !Stuck(job, u, stuck);
      StuckAfterErasing(w.retries, from, u, stuck);
      if job.owner != u {
        DrainedRetries(w, u, stuck, from + 1);
        assert w.retries[..from + 1] == w.retries[..from] + [job];
      } else {
        DrainedRetries(EraseRetry(w, from), u, stuck, from);
      }
    }
  }

  /**
   A draining that gets through takes exactly the owner's jobs out of the queue and the retry table and
   exactly their originals off the disk; everything else stays, in its order.
   */
  lemma DrainingTakesTheOwners(w: Worker, u: Owner, stuck: set<File>)
    requires !EraseStuck(w, u, stuck)
    ensures var w' := Step(w, EraseUser(u, stuck));
      && w'.items == Others(w.items, u)
      && w'.retries == OthersDelayed(w.retries, u)
      && (forall f :: f in w'.files <==>
            && f in w.files
            && (forall e :: e in w.items && e.Work? && e.job.owner == u ==> e.job.path != f)
            && (forall j :: j in w.retries && j.owner == u ==> j.path != f))
      && w'.erased == w.erased + {u} && w'.inFlight == w.inFlight && w'.stopping == w.stopping
  {
    var s := stuck * w.files;
    var queued := DrainQueue(w.(erased := w.erased + {u}), u, s);
    DrainedRetries(queued, u, s, 0);
    assert w.retries[0..] == w.retries && w.retries[..0] == [];
    DrainRetriesLeavesRest(queued, u, s, 0);
    assert Step(w, EraseUser(u, stuck)).files == w.files - QueuedPaths(w.items, u) - PathsOf(w.retries, u);
    forall f
      ensures f in QueuedPaths(w.items, u)
        <==> exists e :: e in w.items && e.Work? && e.job.owner == u && e.job.path == f
    {
    }
  }

  // ---- what an answer means ---------------------------------------------------------------------

  lemma {:induction false} DrainedStays(events: seq<Event>, m: nat, n: nat, u: Owner)
    requires m <= n <= |events| && u in After(events[..m]).drained
    ensures u in After(events[..n]).drained
    decreases n
  {
    if m < n {
      DrainedStays(events, m, n - 1, u);
      AfterPrefix(events, n);
      StepTakesFromQueue(After(events[..n - 1]), events[n - 1]);
    }
  }

  lemma StepStaysActive(w: Worker, ev: Event)
    requires w.inFlight.Some? && !ev.Finish?
    ensures Step(w, ev).inFlight == w.inFlight
  {
    match ev
    case EraseUser(u, stuck) => EraseLeavesRest(w, u, stuck * w.files);
    case _ =>
  }

  lemma {:induction false} StaysActive(events: seq<Event>, g: nat, m: nat)
    requires g <= m <= |events| && After(events[..g]).inFlight.Some?
    requires forall j :: g <= j < m ==> !events[j].Finish?
    ensures After(events[..m]).inFlight == After(events[..g]).inFlight
    decreases m
  {
    if g < m {
      StaysActive(events, g, m - 1);
      AfterPrefix(events, m);
      StepStaysActive(After(events[..m - 1]), events[m - 1]);
    }
  }

  lemma FinishEmptiesSlot(w: Worker, ev: Event)
    requires ev.Finish?
    ensures Step(w, ev).inFlight == None
  {
    if w.inFlight.Some? && w.inFlight.value.Work? {
      var how := FinishHow(w, ev.outcome, ev.jammed);
    }
  }

  lemma NoJobsFrom(events: seq<Event>, n: nat, u: Owner)
    requires FreshRun(events) && n <= |events| && EraseMayReturn(After(events[..n]), u)
    ensures NoJobOf(After(events), u)
  {
    StaysErasedFrom(events, n, |events|, u);
    InvariantHolds(events);
    assert events[..|events|] == events;
    StaysErased(After(events), Stop, u);
  }

  lemma ReturnedIsNotStuck(events: seq<Event>, k: nat, g: nat)
    requires k < g <= |events| && events[k].EraseUser? && AnswerOf(events, k, g) == Returned
    ensures !EraseStuck(After(events[..k]), events[k].owner, events[k].stuck)
  {
  }

  /** Unless the draining itself failed, any answer means that the owner's jobs are gone. */
  lemma AnsweredMayReturn(events: seq<Event>, k: nat, g: nat) returns (n: nat)
    requires k < g <= |events| && events[k].EraseUser?
    requires AnswerOf(events, k, g) != Waiting && !EraseStuck(After(events[..k]), events[k].owner, events[k].stuck)
    ensures g <= n <= |events| && EraseMayReturn(After(events[..n]), events[k].owner)
  {
    var u := events[k].owner;
    ErasureDrains(After(events[..k]), u, events[k].stuck);
    AfterPrefix(events, k + 1);
    DrainedStays(events, k + 1, g, u);
    n := g;
    if ActiveOf(After(events[..g]), u) {
      var m := NextFinish(events, g);
      n := m + 1;
      DrainedStays(events, k + 1, n, u);
      AfterPrefix(events, n);
      FinishEmptiesSlot(After(events[..m]), events[m]);
    }
  }

  /** After a normal return the worker has nothing of the owner, in every continuation. */
  lemma ReturnedMeansNoJobs(events: seq<Event>, k: nat, g: nat)
    requires FreshRun(events) && k < g <= |events| && events[k].EraseUser?
    requires AnswerOf(events, k, g) == Returned
    ensures NoJobOf(After(events), events[k].owner)
  {
    ReturnedIsNotStuck(events, k, g);
    var n := AnsweredMayReturn(events, k, g);
    NoJobsFrom(events, n, events[k].owner);
  }

  /**
   The condition, by the calls of the job that was awaited: nothing stuck, and that job, if there was
   one, got past the worker's own admission check, did not end retryable, and its original was unlinked.
   */
  lemma ReturnsIff(events: seq<Event>, k: nat, g: nat, a: Attempt)
    requires k < g <= |events| && events[k].EraseUser? && AnswerOf(events, k, g) != Waiting
    requires NextFinish(events, g) < |events| ==> EndOf(a) == Some(events[NextFinish(events, g)].outcome)
    ensures var u := events[k].owner;
      AnswerOf(events, k, g) == Returned <==>
        && !EraseStuck(After(events[..k]), u, events[k].stuck)
        && (ActiveOf(After(events[..g]), u) ==>
              && NextFinish(events, g) < |events| && Entered(a) && !Pipeline.EndsRetryable(a.calls)
              && !Jams(After(events[..NextFinish(events, g)]), After(events[..g]).inFlight.value.job,
                       events[NextFinish(events, g)].jammed))
  {
    var u := events[k].owner;
    if ActiveOf(After(events[..g]), u) && NextFinish(events, g) < |events| {
      StaysActive(events, g, NextFinish(events, g));
    }
  }

  lemma NothingOwnedIsNotStuck(items: seq<Entry>, u: Owner, stuck: set<File>)
    requires forall i :: 0 <= i < |items| ==> !Owned(items[i], u)
    ensures FirstStuck(items, u, stuck) == |items|
  {
  }

  lemma NothingToErase(w: Worker, u: Owner, stuck: set<File>)
    requires NoJobOf(w, u)
    ensures !EraseStuck(w, u, stuck) && !ActiveOf(Step(w, EraseUser(u, stuck)), u)
  {
    assert forall i :: 0 <= i < |w.items| ==> w.items[i] in w.items;
    NothingOwnedIsNotStuck(w.items, u, stuck * w.files);
    EraseLeavesRest(w, u, stuck * w.files);
  }

  /** A call while the worker has nothing of the owner returns at once. */
  lemma ReturnsAtOnce(events: seq<Event>, u: Owner, stuck: set<File>)
    requires NoJobOf(After(events), u)
    ensures AnswerOf(events + [EraseUser(u, stuck)], |events|, |events| + 1) == Returned
  {
    var all := events + [EraseUser(u, stuck)];
    assert all[..|events|] == events && all[..|events| + 1] == all && all[|events|] == EraseUser(u, stuck);
    AfterPrefix(all, |events| + 1);
    NothingToErase(After(events), u, stuck);
  }

  /** A call that raised only because of the active job can be repeated at any later time, and returns. */
  lemma RepetitionReturns(events: seq<Event>, k: nat, g: nat, stuck: set<File>)
    requires FreshRun(events) && k < g <= |events| && events[k].EraseUser?
    requires AnswerOf(events, k, g) != Waiting && !EraseStuck(After(events[..k]), events[k].owner, events[k].stuck)
    ensures AnswerOf(events + [EraseUser(events[k].owner, stuck)], |events|, |events| + 1) == Returned
  {
    var n := AnsweredMayReturn(events, k, g);
    NoJobsFrom(events, n, events[k].owner);
    ReturnsAtOnce(events, events[k].owner, stuck);
  }

  // ---- an erasure that meets the owner's job ----------------------------------------------------

  /** The fence is up, the active job's own admission check finds it, and the erasure waits for that job. */
  function MeetingRun(): seq<Event> {
    DropRun()[..4] + [EraseUser(DROPPED.owner, {}), Finish(OwnerGone, false)]
  }

  lemma MeetingStep()
    ensures var w := TAKEN.(erased := {7}, drained := {7});
      && !EndsWell(w, Finish(OwnerGone, false)) && ActiveOf(w, 7)
      && Step(w, Finish(OwnerGone, false)) == w.(inFlight := None, unfinished := 0, files := {},
                                                 exits := map[1 := Completed(OwnerGone)])
  {
  }

  lemma MeetingRunEnds()
    ensures After(MeetingRun()[..4]) == TAKEN
    ensures After(MeetingRun()[..5]) == TAKEN.(erased := {7}, drained := {7})
    ensures After(MeetingRun()) == Step(TAKEN.(erased := {7}, drained := {7}), Finish(OwnerGone, false))
  {
    var run := MeetingRun();
    DropRunTakes();
    DyingRunErases();
    assert run[..4] == DropRun()[..4] && run[..5] == DyingRun()[..5] && run[..6] == run;
    AfterPrefix(run, 6);
  }

  /** `erase_user` raises what the job raised, though the worker has nothing of the owner any more. */
  lemma FencedJobMakesErasureRaise()
    ensures AnswerOf(MeetingRun(), 4, 5) == Raised
    ensures NoJobOf(After(MeetingRun()), DROPPED.owner) && After(MeetingRun()).files == {}
  {
    MeetingRunEnds();
    MeetingStep();
    assert NextFinish(MeetingRun(), 5) == 5;
  }
}
