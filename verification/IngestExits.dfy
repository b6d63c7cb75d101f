/** How an accepted job can end up nowhere with its original still on disk, told by the events alone. */
module IngestExits {
  import opened Common
  import opened IngestQueue

  predicate DelayedDoc(w: Worker, d: DocId) {
    exists x :: 0 <= x < |w.retries| && w.retries[x].document == d
  }

  predicate Stuck(j: Job, u: Owner, stuck: set<File>) {
    j.owner == u && j.path in stuck
  }

  /** The first delayed original of the owner, from some position on, that cannot be unlinked. */
  predicate FirstStuckDelayed(retries: seq<Job>, u: Owner, stuck: set<File>, from: nat, d: DocId) {
    exists x :: from <= x < |retries| && retries[x].document == d && Stuck(retries[x], u, stuck)
      && forall y :: from <= y < x ==> !Stuck(retries[y], u, stuck)
  }

  /** The erasure gets through the queue and then to the document's delayed original, which stays. */
  predicate StuckDelayed(w: Worker, u: Owner, stuck: set<File>, d: DocId) {
    !QueueStuck(w, u, stuck) && FirstStuckDelayed(w.retries, u, stuck, 0, d)
  }

  /** The job's original has to go but is there and cannot be unlinked. */
  predicate CannotUnlink(w: Worker, job: Job, d: DocId, jammed: bool) {
    job.document == d && Jams(w, job, jammed)
  }

  /** The event, in this state, makes the worker forget the document's job and keep its original. */
  predicate Abandons(w: Worker, ev: Event, d: DocId) {
    match ev
    case RetryFires(x, admission, jammed) =>
      && !w.stopping && x < |w.retries|
      && if admission == Failing then w.retries[x].document == d
         else (admission == Erased || w.retries[x].owner in w.erased) && CannotUnlink(w, w.retries[x], d, jammed)
    case Stop => (w.running || w.crashed) && DelayedDoc(w, d)
    case Finish(outcome, jammed) =>
      && w.inFlight.Some? && w.inFlight.value.Work?
      && if outcome == Retryable && w.inFlight.value.job.owner !in w.erased
         then w.stopping && w.inFlight.value.job.document == d
         else CannotUnlink(w, w.inFlight.value.job, d, jammed)
    case EraseUser(u, stuck) => StuckDelayed(w, u, stuck * w.files, d)
    case _ => false
  }

  /** The job's document left by an exit that keeps the original. */
  predicate LeftBehind(w: Worker, d: DocId) {
    d in w.exits && Abandoned(w.exits[d])
  }

  // ---- an exit is final -------------------------------------------------------------------------

  lemma DelayedIsOpen(w: Worker, x: nat)
    requires OnePlace(w) && x < |w.retries|
    ensures w.retries[x].document !in w.exits
    ensures forall y :: 0 <= y < |w.retries| && w.retries[y].document == w.retries[x].document ==> y == x
  {
    RetryDocIsOpen(w, w.retries[x]);
    forall y | 0 <= y < |w.retries| && w.retries[y].document == w.retries[x].document ensures y == x {
      RetryDocIsOpen(w, w.retries[y]);
      if x < y {
        TwoPositionsCountTwice(w.retries, x, y);
      } else if y < x {
        TwoPositionsCountTwice(w.retries, y, x);
      }
    }
  }

  lemma TwoPositionsCountTwice(s: seq<Job>, x: nat, y: nat)
    requires x < y < |s| && s[x] == s[y]
    ensures multiset(s)[s[x]] >= 2
  {
    assert s == s[..x] + [s[x]] + s[x + 1..y] + [s[y]] + s[y + 1..];
  }

  lemma {:induction false} DrainingKeepsExits(w: Worker, u: Owner, stuck: set<File>, from: nat, d: DocId)
    requires OnePlace(w) && d in w.exits
    ensures d in DrainRetries(w, u, stuck, from).exits && DrainRetries(w, u, stuck, from).exits[d] == w.exits[d]
    decreases |w.retries| - from
  {
    if from < |w.retries| {
      DelayedIsOpen(w, from);
      if w.retries[from].owner != u {
        DrainingKeepsExits(w, u, stuck, from + 1, d);
      } else if w.retries[from].path !in stuck {
        EraseRetryKeepsPlaces(w, from);
        DrainingKeepsExits(EraseRetry(w, from), u, stuck, from, d);
      }
    }
  }

  lemma ErasureKeepsExits(w: Worker, u: Owner, stuck: set<File>, d: DocId)
    requires OnePlace(w) && d in w.exits
    ensures d in Erase(w, u, stuck).exits && Erase(w, u, stuck).exits[d] == w.exits[d]
  {
    var marked := w.(erased := w.erased + {u});
    UnmovedKeepsPlaces(w, marked);
    DrainQueueKeepsPlaces(marked, u, stuck);
    if !QueueStuck(w, u, stuck) {
      QueuedIsNotOut(w, u, d);
      DrainingKeepsExits(DrainQueue(marked, u, stuck), u, stuck, 0, d);
    }
  }

  lemma QueuedIsNotOut(w: Worker, u: Owner, d: DocId)
    requires OnePlace(w) && d in w.exits
    ensures d !in QueuedDocs(w.items, u)
  {
    if d in QueuedDocs(w.items, u) {
      QueuedDocIsOpen(w, u, d);
    }
  }

  lemma ActiveIsOpen(w: Worker)
    requires OnePlace(w) && w.inFlight.Some? && w.inFlight.value.Work?
    ensures Open(w, w.inFlight.value.job)
  {
    assert Places(w, w.inFlight.value.job) >= 1;
  }

  lemma DelayedDocsAreOpen(w: Worker, d: DocId)
    requires OnePlace(w) && d in AllDocs(w.retries)
    ensures d !in w.exits && DelayedDoc(w, d)
  {
    var j :| j in w.retries && j.document == d;
    var x :| 0 <= x < |w.retries| && w.retries[x] == j;
    DelayedIsOpen(w, x);
  }

  /** However a job left, it stays that way. */
  lemma ExitsAreFinal(w: Worker, ev: Event, d: DocId)
    requires OnePlace(w) && d in w.exits
    ensures d in Step(w, ev).exits && Step(w, ev).exits[d] == w.exits[d]
  {
    match ev
    case EraseUser(u, stuck) => ErasureKeepsExits(w, u, stuck * w.files, d);
    case Finish(outcome, jammed) =>
      if w.inFlight.Some? && w.inFlight.value.Work? {
        ActiveIsOpen(w);
        var how := FinishHow(w, outcome, jammed);
      }
    case RetryFires(x, _, _) => if x < |w.retries| { DelayedIsOpen(w, x); }
    case Stop => if d in AllDocs(w.retries) { DelayedDocsAreOpen(w, d); }
    case _ =>
  }

  // ---- which events leave a job behind ----------------------------------------------------------

  /** After removing a position, later jobs stand one earlier. */
  lemma WithoutPosition(s: seq<Job>, from: nat, u: Owner, stuck: set<File>, d: DocId)
    requires from < |s| && !Stuck(s[from], u, stuck)
    ensures FirstStuckDelayed(s[..from] + s[from + 1..], u, stuck, from, d) <==> FirstStuckDelayed(s, u, stuck, from, d)
    ensures FirstStuckDelayed(s, u, stuck, from + 1, d) <==> FirstStuckDelayed(s, u, stuck, from, d)
  {
    var t := s[..from] + s[from + 1..];
    assert forall y :: from <= y < |t| ==> t[y] == s[y + 1];
    if FirstStuckDelayed(t, u, stuck, from, d) {
      var x :| from <= x < |t| && t[x].document == d && Stuck(t[x], u, stuck)
        && forall y :: from <= y < x ==> !Stuck(t[y], u, stuck);
      assert s[x + 1] == t[x];
      forall y | from <= y < x + 1 ensures !Stuck(s[y], u, stuck) {
        assert y > from ==> s[y] == t[y - 1];
      }
    }
    if FirstStuckDelayed(s, u, stuck, from, d) {
      var x :| from <= x < |s| && s[x].document == d && Stuck(s[x], u, stuck)
        && forall y :: from <= y < x ==> !Stuck(s[y], u, stuck);
      assert x > from && t[x - 1] == s[x];
    }
    if FirstStuckDelayed(s, u, stuck, from + 1, d) {
      var x :| from + 1 <= x < |s| && s[x].document == d && Stuck(s[x], u, stuck)
        && forall y :: from + 1 <= y < x ==> !Stuck(s[y], u, stuck);
      assert forall y :: from <= y < x ==> !Stuck(s[y], u, stuck);
    }
  }

  lemma StuckHereIsFirst(s: seq<Job>, from: nat, u: Owner, stuck: set<File>, d: DocId)
    requires from < |s| && Stuck(s[from], u, stuck)
    ensures FirstStuckDelayed(s, u, stuck, from, d) <==> s[from].document == d
  {
    if FirstStuckDelayed(s, u, stuck, from, d) {
      var x :| from <= x < |s| && s[x].document == d && Stuck(s[x], u, stuck)
        && forall y :: from <= y < x ==> !Stuck(s[y], u, stuck);
      assert x == from;
    }
  }

  lemma {:induction false} DrainingLeavesBehind(w: Worker, u: Owner, stuck: set<File>, from: nat, d: DocId)
    requires OnePlace(w) && d !in w.exits
    ensures LeftBehind(DrainRetries(w, u, stuck, from), d) <==> FirstStuckDelayed(w.retries, u, stuck, from, d)
    decreases |w.retries| - from
  {
    if from < |w.retries| {
      var job := w.retries[from];
      if Stuck(job, u, stuck) {
        StuckHereIsFirst(w.retries, from, u, stuck, d);
      } else {
        WithoutPosition(w.retries, from, u, stuck, d);
        if job.owner != u {
          DrainingLeavesBehind(w, u, stuck, from + 1, d);
        } else {
          EraseRetryKeepsPlaces(w, from);
          if job.document == d {
            ErasedIsNotStuck(w, u, stuck, from);
          } else {
            DrainingLeavesBehind(EraseRetry(w, from), u, stuck, from, d);
          }
        }
      }
    }
  }

  /** A delayed job that is erased is not also stuck further on. */
  lemma ErasedIsNotStuck(w: Worker, u: Owner, stuck: set<File>, from: nat)
    requires OnePlace(w) && from < |w.retries| && w.retries[from].owner == u && w.retries[from].path !in stuck
    ensures var d := w.retries[from].document;
      && !LeftBehind(DrainRetries(w, u, stuck, from), d)
      && !FirstStuckDelayed(w.retries, u, stuck, from, d)
  {
    EraseRetryKeepsPlaces(w, from);
    DrainingKeepsExits(EraseRetry(w, from), u, stuck, from, w.retries[from].document);
    DelayedIsOpen(w, from);
  }

  lemma ErasureLeavesBehind(w: Worker, u: Owner, stuck: set<File>, d: DocId)
    requires OnePlace(w) && d !in w.exits
    ensures LeftBehind(Erase(w, u, stuck), d) <==> StuckDelayed(w, u, stuck, d)
  {
    var marked := w.(erased := w.erased + {u});
    UnmovedKeepsPlaces(w, marked);
    DrainQueueKeepsPlaces(marked, u, stuck);
    if !QueueStuck(w, u, stuck) {
      var drained := DrainQueue(marked, u, stuck);
      if d in QueuedDocs(w.items, u) {
        DrainingKeepsExits(drained, u, stuck, 0, d);
        QueuedIsNotDelayed(w, u, d);
      } else {
        DrainingLeavesBehind(drained, u, stuck, 0, d);
      }
    }
  }

  lemma QueuedIsNotDelayed(w: Worker, u: Owner, d: DocId)
    requires OnePlace(w) && d in QueuedDocs(w.items, u)
    ensures !DelayedDoc(w, d)
  {
    QueuedDocIsOpen(w, u, d);
    if DelayedDoc(w, d) {
      var x :| 0 <= x < |w.retries| && w.retries[x].document == d;
      RetryDocIsOpen(w, w.retries[x]);
    }
  }

  /** A worker that is stopping has no delayed retries left. */
  predicate Quiet(w: Worker) {
    w.stopping ==> w.retries == []
  }

  lemma {:induction false} DrainingKeepsQuiet(w: Worker, u: Owner, stuck: set<File>, from: nat)
    requires Quiet(w)
    ensures Quiet(DrainRetries(w, u, stuck, from))
    decreases |w.retries| - from
  {
    if from < |w.retries| {
      if w.retries[from].owner != u {
        DrainingKeepsQuiet(w, u, stuck, from + 1);
      } else if w.retries[from].path !in stuck {
        DrainingKeepsQuiet(EraseRetry(w, from), u, stuck, from);
      }
    }
  }

  lemma StepKeepsQuiet(w: Worker, ev: Event)
    requires Quiet(w)
    ensures Quiet(Step(w, ev))
  {
    match ev
    case EraseUser(u, stuck) =>
      if !QueueStuck(w, u, stuck * w.files) {
        DrainingKeepsQuiet(DrainQueue(w.(erased := w.erased + {u}), u, stuck * w.files), u, stuck * w.files, 0);
      }
    case _ =>
  }

  lemma FinishedLeavesBehind(w: Worker, w': Worker, job: Job, how: Option<Exit>, d: DocId)
    requires FinishesAs(w, w', job, how) && d !in w.exits
    ensures LeftBehind(w', d) <==> how.Some? && !Gone(how.value) && d == job.document
  {
  }

  lemma FinishLeavesBehind(w: Worker, outcome: Outcome, jammed: bool, d: DocId)
    requires OnePlace(w) && d !in w.exits
    ensures LeftBehind(Step(w, Finish(outcome, jammed)), d) <==> Abandons(w, Finish(outcome, jammed), d)
  {
    if w.inFlight.Some? && w.inFlight.value.Work? {
      var how := FinishHow(w, outcome, jammed);
      FinishedLeavesBehind(w, Step(w, Finish(outcome, jammed)), w.inFlight.value.job, how, d);
    }
  }

  lemma RetryLeavesBehind(w: Worker, x: nat, admission: Admission, jammed: bool, d: DocId)
    requires OnePlace(w) && Quiet(w) && d !in w.exits
    ensures var ev := RetryFires(x, admission, jammed); LeftBehind(Step(w, ev), d) <==> Abandons(w, ev, d)
  {
  }

  lemma StepLeavesBehind(w: Worker, ev: Event, d: DocId)
    requires OnePlace(w) && Quiet(w) && d !in w.exits
    ensures LeftBehind(Step(w, ev), d) <==> Abandons(w, ev, d)
  {
    match ev
    case EraseUser(u, stuck) => ErasureLeavesBehind(w, u, stuck * w.files, d);
    case Stop => StopLeavesBehind(w, d);
    case Finish(outcome, jammed) => FinishLeavesBehind(w, outcome, jammed, d);
    case RetryFires(x, admission, jammed) => RetryLeavesBehind(w, x, admission, jammed, d);
    case _ =>
  }

  lemma StopLeavesBehind(w: Worker, d: DocId)
    requires OnePlace(w) && d !in w.exits
    ensures LeftBehind(Step(w, Stop), d) <==> Abandons(w, Stop, d)
  {
    if d in AllDocs(w.retries) {
      DelayedDocsAreOpen(w, d);
    }
    if DelayedDoc(w, d) {
      var x :| 0 <= x < |w.retries| && w.retries[x].document == d;
      assert w.retries[x] in w.retries;
    }
  }

  /** An abandoned job was still open. */
  lemma AbandonedWasOpen(w: Worker, ev: Event, d: DocId)
    requires OnePlace(w) && Abandons(w, ev, d)
    ensures d !in w.exits
  {
    match ev
    case Finish(_, _) => ActiveIsOpen(w);
    case RetryFires(x, _, _) => DelayedIsOpen(w, x);
    case Stop =>
      var x :| 0 <= x < |w.retries| && w.retries[x].document == d;
      DelayedIsOpen(w, x);
    case EraseUser(u, stuck) =>
      var x :| 0 <= x < |w.retries| && w.retries[x].document == d && Stuck(w.retries[x], u, stuck * w.files);
      DelayedIsOpen(w, x);
  }

  // ---- over whole runs --------------------------------------------------------------------------

  ghost predicate AbandonedBefore(events: seq<Event>, n: nat, d: DocId)
    requires n <= |events|
  {
    exists k :: 0 <= k < n && Abandons(After(events[..k]), events[k], d)
  }

  lemma OneMoreAbandoned(events: seq<Event>, n: nat, d: DocId)
    requires 0 < n <= |events|
    ensures AbandonedBefore(events, n, d)
        <==> AbandonedBefore(events, n - 1, d) || Abandons(After(events[..n - 1]), events[n - 1], d)
  {
  }

  lemma StepLeavesBehindOrKeeps(w: Worker, ev: Event, d: DocId)
    requires Invariant(w) && Quiet(w)
    ensures LeftBehind(Step(w, ev), d) <==> LeftBehind(w, d) || Abandons(w, ev, d)
  {
    if d in w.exits {
      ExitsAreFinal(w, ev, d);
      if Abandons(w, ev, d) {
        AbandonedWasOpen(w, ev, d);
      }
    } else {
      StepLeavesBehind(w, ev, d);
    }
  }

  lemma {:induction false} LeftBehindIff(events: seq<Event>, n: nat, d: DocId)
    requires FreshRun(events) && n <= |events|
    ensures Invariant(After(events[..n])) && Quiet(After(events[..n]))
    ensures LeftBehind(After(events[..n]), d) <==> AbandonedBefore(events, n, d)
  {
    if n > 0 {
      LeftBehindIff(events, n - 1, d);
      AfterPrefix(events, n);
      var w, ev := After(events[..n - 1]), events[n - 1];
      assert Fresh(w, ev);
      StepKeepsInvariant(w, ev);
      StepKeepsQuiet(w, ev);
      StepLeavesBehindOrKeeps(w, ev, d);
      OneMoreAbandoned(events, n, d);
    }
  }

  /**
   An accepted job is in no place, its original still on disk, exactly if nothing else removed that since
   the job was accepted and one of these happened: its
   delayed retry met an error other than erasure; `stop` came while it was delayed; it became retryable
   while the worker was stopping; or its original was to be unlinked and could not be, when the job
   ended, when its retry found the owner erased, or when the owner's erasure reached it delayed.
   */
  lemma AbandonedIff(events: seq<Event>, d: DocId)
    requires FreshRun(events)
    ensures var w := After(events);
      (d in w.accepted && Places(w, w.accepted[d]) == 0 && w.accepted[d].path in w.files)
      <==> AbandonedBefore(events, |events|, d) && !RemovedBefore(events, |events|, d)
  {
    LeftBehindIff(events, |events|, d);
    LostIff(events, |events|, d);
    assert events[..|events|] == events;
    var w := After(events);
    if d in w.accepted {
      InvariantPlacesJob(w, d);
    }
    assert d in w.exits ==> d in w.accepted;
  }

  // ---- the retry that is dropped ----------------------------------------------------------------

  const DROPPED := Job(1, 3, 7)

  /** A retryable job whose delayed retry then meets a failing admission check. */
  function DropRun(): seq<Event> {
    [Saved(3), Start, Enqueue(DROPPED, Active, false), Take, Finish(Retryable, false),
     RetryFires(0, Failing, false)]
  }

  lemma DropRunQueues()
    ensures var w := After(DropRun()[..3]);
      && FreshRun(DropRun()[..3])
      && w == IDLE.(files := {3}, running := true, items := [Work(DROPPED)], unfinished := 1,
                    accepted := map[1 := DROPPED])
  {
    var run := DropRun();
    assert After(run[..0]) == IDLE;
    AfterPrefix(run, 1);
    AfterPrefix(run, 2);
    AfterPrefix(run, 3);
    assert run[..3][..0] == run[..0] && run[..3][..1] == run[..1] && run[..3][..2] == run[..2];
  }

  const TAKEN := IDLE.(files := {3}, running := true, inFlight := Some(Work(DROPPED)), unfinished := 1,
                       accepted := map[1 := DROPPED])

  lemma DropRunTakes()
    ensures After(DropRun()[..4]) == TAKEN
  {
    DropRunQueues();
    AfterPrefix(DropRun(), 4);
    assert After(DropRun()[..4]).items == [];
  }

  const DELAYED := IDLE.(files := {3}, running := true, retries := [DROPPED], accepted := map[1 := DROPPED])

  lemma TakenIsDelayed()
    ensures Step(TAKEN, Finish(Retryable, false)) == DELAYED
  {
  }

  lemma DropRunDelays()
    ensures After(DropRun()[..5]) == DELAYED
  {
    DropRunTakes();
    TakenIsDelayed();
    AfterPrefix(DropRun(), 5);
  }

  lemma DropRunIsFresh()
    ensures FreshRun(DropRun())
  {
    var run := DropRun();
    DropRunQueues();
    forall k | 0 <= k < |run| ensures Fresh(After(run[..k]), run[k]) {
      if k < 3 {
        assert run[..3][..k] == run[..k];
      }
    }
  }

  /** The owner is active and the worker running, yet the job is nowhere and its original stays. */
  lemma FailingRetryStrandsOriginal()
    ensures FreshRun(DropRun())
    ensures var w := After(DropRun());
      && w.running && w.erased == {} && w.items == [] && w.inFlight == None && w.retries == []
      && DROPPED.document in w.accepted && w.accepted[DROPPED.document] == DROPPED
      && Places(w, DROPPED) == 0 && DROPPED.path in w.files
  {
    DropRunIsFresh();
    DropRunDelays();
    AfterPrefix(DropRun(), 6);
    assert DropRun()[..6] == DropRun();
  }

  // ---- the upload that is taken back ------------------------------------------------------------

  /** The upload's last admission check fails after its job was accepted. */
  function TakenBackRun(): seq<Event> {
    DropRun()[..3] + [Compensate(DROPPED.document)]
  }

  lemma TakenBackRunIsFresh()
    ensures FreshRun(TakenBackRun())
  {
    var run := TakenBackRun();
    DropRunQueues();
    forall k | 0 <= k < |run| ensures Fresh(After(run[..k]), run[k]) {
      if k < 3 {
        assert run[..k] == DropRun()[..3][..k] && run[k] == DropRun()[..3][k];
      }
    }
  }

  /** The job is still queued, the owner active, the worker running, and the original gone. */
  lemma CompensationTakesTheOriginal()
    ensures FreshRun(TakenBackRun()) && RemovedBefore(TakenBackRun(), |TakenBackRun()|, DROPPED.document)
    ensures var w := After(TakenBackRun());
      && w.running && w.erased == {} && w.items == [Work(DROPPED)] && w.exits == map[]
      && DROPPED.document in w.accepted && Places(w, DROPPED) == 1 && w.files == {}
  {
    var run := TakenBackRun();
    TakenBackRunIsFresh();
    DropRunQueues();
    assert run[..3] == DropRun()[..3];
    AfterPrefix(run, 4);
    assert run[..4] == run;
    LostIff(run, 4, DROPPED.document);
  }

  // ---- the loop that ends -----------------------------------------------------------------------

  /** A job became retryable after its owner's erasure began, and its original cannot be unlinked. */
  predicate EndsLoop(w: Worker, ev: Event) {
    && ev.Finish? && ev.outcome == Retryable && w.inFlight.Some? && w.inFlight.value.Work?
    && w.inFlight.value.job.owner in w.erased && Jams(w, w.inFlight.value.job, ev.jammed)
  }

  lemma FinishCrashes(w: Worker, ev: Event)
    requires ev.Finish?
    ensures Step(w, ev).crashed <==> EndsLoop(w, ev) || w.crashed
  {
  }

  lemma StepCrashes(w: Worker, ev: Event)
    ensures Step(w, ev).crashed <==> EndsLoop(w, ev) || (w.crashed && !ev.Start?)
  {
    match ev
    case EraseUser(u, stuck) => EraseLeavesRest(w, u, stuck * w.files);
    case Finish(_, _) => FinishCrashes(w, ev);
    case _ =>
  }

  predicate LoopEndedBefore(events: seq<Event>, n: nat)
    requires n <= |events|
  {
    exists k :: 0 <= k < n && EndsLoop(After(events[..k]), events[k]) && forall j :: k < j < n ==> !events[j].Start?
  }

  lemma OneMoreEnded(events: seq<Event>, n: nat)
    requires 0 < n <= |events|
    ensures LoopEndedBefore(events, n)
      <==>
      || EndsLoop(After(events[..n - 1]), events[n - 1])
      || (LoopEndedBefore(events, n - 1) && !events[n - 1].Start?)
  {
    if LoopEndedBefore(events, n - 1) && !events[n - 1].Start? {
      var k :| 0 <= k < n - 1 && EndsLoop(After(events[..k]), events[k])
        && forall j :: k < j < n - 1 ==> !events[j].Start?;
      assert forall j :: k < j < n ==> !events[j].Start?;
    }
    if LoopEndedBefore(events, n) {
      var k :| 0 <= k < n && EndsLoop(After(events[..k]), events[k]) && forall j :: k < j < n ==> !events[j].Start?;
      assert k < n - 1 ==> LoopEndedBefore(events, n - 1);
    }
  }

  lemma {:induction false} CrashedIffEnded(events: seq<Event>, n: nat)
    requires n <= |events|
    ensures After(events[..n]).crashed <==> LoopEndedBefore(events, n)
  {
    if n > 0 {
      CrashedIffEnded(events, n - 1);
      AfterPrefix(events, n);
      StepCrashes(After(events[..n - 1]), events[n - 1]);
      OneMoreEnded(events, n);
    }
  }

  /**
   The run loop has died, so that nothing is taken from the queue any more, exactly if a job became
   retryable whose owner was being erased and whose original could not be unlinked, and no start followed.
   */
  lemma LoopDiesIff(events: seq<Event>)
    ensures After(events).crashed <==> LoopEndedBefore(events, |events|)
  {
    CrashedIffEnded(events, |events|);
    assert events[..|events|] == events;
  }

  ghost predicate DeadIsIdle(w: Worker) {
    w.crashed ==> !w.running && w.inFlight == None
  }

  lemma StepKeepsDeadIdle(w: Worker, ev: Event)
    requires DeadIsIdle(w)
    ensures DeadIsIdle(Step(w, ev))
  {
    match ev
    case EraseUser(u, stuck) => EraseLeavesRest(w, u, stuck * w.files);
    case _ =>
  }

  /** While the loop is dead no entry leaves the queue but by its owner's erasure. */
  lemma {:induction false} DeadLoopTakesNothing(events: seq<Event>)
    ensures DeadIsIdle(After(events))
    ensures After(events).crashed ==> Step(After(events), Take) == After(events)
  {
    if events != [] {
      DeadLoopTakesNothing(events[..|events| - 1]);
      StepKeepsDeadIdle(After(events[..|events| - 1]), events[|events| - 1]);
    }
  }

  /** An erasure that waits for its owner's active job, which then fails for want of encryption. */
  function DyingRun(): seq<Event> {
    DropRun()[..4] + [EraseUser(DROPPED.owner, {}), Finish(Retryable, true)]
  }

  lemma DyingRunErases()
    ensures After(DyingRun()[..5]) == TAKEN.(erased := {7}, drained := {7})
  {
    DropRunTakes();
    assert DyingRun()[..4] == DropRun()[..4];
    AfterPrefix(DyingRun(), 5);
  }

  lemma DyingRunIsFresh()
    ensures FreshRun(DyingRun())
  {
    var run := DyingRun();
    DropRunIsFresh();
    forall k | 0 <= k < |run| ensures Fresh(After(run[..k]), run[k]) {
      if k < 4 {
        assert run[..k] == DropRun()[..k] && run[k] == DropRun()[k];
      }
    }
  }

  /** The loop dies, the owner's original still on disk. */
  lemma FailingUnlinkEndsLoop()
    ensures FreshRun(DyingRun())
    ensures var w := After(DyingRun());
      && w.crashed && w.inFlight == None && w.erased == {DROPPED.owner}
      && DROPPED.document in w.accepted && Places(w, DROPPED) == 0 && DROPPED.path in w.files
  {
    DyingRunIsFresh();
    DyingRunErases();
    AfterPrefix(DyingRun(), 6);
    assert DyingRun()[..6] == DyingRun();
  }
}
