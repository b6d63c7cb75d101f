/** What the calls of one job decide about its place in the worker, and which events let a job go. */
module IngestOutcomes {
  import opened Common
  import opened IngestQueue
  import opened IngestExits
  import Pipeline = IngestPipelines

  /** One attempt at a job: the owner's lock, the worker's own admission check, and the calls of `ingest`. */
  datatype Attempt = Attempt(lock: Pipeline.Stage, admit: Pipeline.Stage, calls: Pipeline.Calls)

  /** How the attempt ends for the worker; a cancelled one ends with its process. */
  function EndOf(a: Attempt): Option<Outcome> {
    match Pipeline.RaisedBy(a.lock, a.admit, a.calls)
    case Nothing => Some(Succeeded)
    case RetryableIngestError => Some(Retryable)
    case OwnerDataErased => Some(OwnerGone)
    case OtherError => Some(Failed)
    case CancelledError => None
  }

  /** The lock was taken and the worker's own admission check passed. */
  predicate Entered(a: Attempt) {
    Pipeline.Handled(a.lock, a.admit) == Pipeline.Passed
  }

  /** Without the document's row none of the writes on it passes: the store raises instead. */
  predicate RowMissing(c: Pipeline.Calls) {
    c.store != Pipeline.Passed && c.markFailure != Pipeline.Passed && c.markOutage != Pipeline.Passed
  }

  /**
   Without its row a job ends retryable unless its owner is found erased, it is cancelled, or the
   worker's own lock or admission check ends it; and nothing is ever recorded.
   */
  lemma MissingRowIsRetried(a: Attempt)
    requires RowMissing(a.calls)
    ensures EndOf(a) == Some(Retryable)
        <==> Entered(a) && !Pipeline.FoundErased(a.calls) && !Pipeline.WasCancelled(a.calls)
    ensures EndOf(a) == Some(Succeeded) <==> Entered(a) && Pipeline.FoundErased(a.calls)
    ensures !Pipeline.Complete(a.calls)
    ensures Pipeline.Handled(a.calls.admitFailure, a.calls.markFailure) != Pipeline.Passed
    ensures Pipeline.Handled(a.calls.admitOutage, a.calls.markOutage) != Pipeline.Passed
  {
    var stages := Pipeline.InOrder(a.calls);
    assert stages[9] == a.calls.store;
  }

  // ---- which events let a job go ----------------------------------------------------------------

  predicate ActiveDoc(w: Worker, d: DocId) {
    w.inFlight.Some? && w.inFlight.value.Work? && w.inFlight.value.job.document == d
  }

  /** The erasure's walk over the retry table, from some position on, gets to the document. */
  predicate ReachesDelayed(retries: seq<Job>, u: Owner, stuck: set<File>, from: nat, d: DocId) {
    exists x :: from <= x < |retries| && retries[x].document == d && retries[x].owner == u
      && forall y :: from <= y < x ==> !Stuck(retries[y], u, stuck)
  }

  /** The event, in this state, makes the worker let go of the document's job. */
  predicate LetsGo(w: Worker, ev: Event, d: DocId) {
    match ev
    case EraseUser(u, stuck) =>
      && !QueueStuck(w, u, stuck * w.files)
      && (d in QueuedDocs(w.items, u) || ReachesDelayed(w.retries, u, stuck * w.files, 0, d))
    case Stop => (w.running || w.crashed) && DelayedDoc(w, d)
    case RetryFires(x, admission, _) =>
      && x < |w.retries| && w.retries[x].document == d
      && (w.stopping || admission != Active || w.retries[x].owner in w.erased)
    case Finish(outcome, _) =>
      ActiveDoc(w, d) && (outcome != Retryable || w.inFlight.value.job.owner in w.erased || w.stopping)
    case _ => false
  }

  /** After erasing a position, later jobs stand one earlier. */
  lemma ReachesPast(s: seq<Job>, from: nat, u: Owner, stuck: set<File>, d: DocId)
    requires from < |s| && s[from].owner == u && s[from].path !in stuck
    ensures ReachesDelayed(s, u, stuck, from, d)
        <==> s[from].document == d || ReachesDelayed(s[..from] + s[from + 1..], u, stuck, from, d)
  {
    var t := s[..from] + s[from + 1..];
    assert forall y :: from <= y < |t| ==> t[y] == s[y + 1];
    if ReachesDelayed(t, u, stuck, from, d) {
      var x :| from <= x < |t| && t[x].document == d && t[x].owner == u
        && forall y :: from <= y < x ==> !Stuck(t[y], u, stuck);
      assert s[x + 1] == t[x];
      forall y | from <= y < x + 1 ensures !Stuck(s[y], u, stuck) {
        assert y > from ==> s[y] == t[y - 1];
      }
    }
    if ReachesDelayed(s, u, stuck, from, d) {
      var x :| from <= x < |s| && s[x].document == d && s[x].owner == u
        && forall y :: from <= y < x ==> !Stuck(s[y], u, stuck);
      assert x > from ==> t[x - 1] == s[x];
    }
  }

  lemma ReachesOver(s: seq<Job>, from: nat, u: Owner, stuck: set<File>, d: DocId)
    requires from < |s| && s[from].owner != u
    ensures ReachesDelayed(s, u, stuck, from, d) <==> ReachesDelayed(s, u, stuck, from + 1, d)
  {
    if ReachesDelayed(s, u, stuck, from + 1, d) {
      var x :| from + 1 <= x < |s| && s[x].document == d && s[x].owner == u
        && forall y :: from + 1 <= y < x ==> !Stuck(s[y], u, stuck);
      assert forall y :: from <= y < x ==> !Stuck(s[y], u, stuck);
    }
  }

  lemma ReachesNoFurther(s: seq<Job>, from: nat, u: Owner, stuck: set<File>, d: DocId)
    requires from < |s| && Stuck(s[from], u, stuck)
    ensures ReachesDelayed(s, u, stuck, from, d) <==> s[from].document == d
  {
    if ReachesDelayed(s, u, stuck, from, d) {
      var x :| from <= x < |s| && s[x].document == d && s[x].owner == u
        && forall y :: from <= y < x ==> !Stuck(s[y], u, stuck);
      assert x == from;
    }
  }

  lemma {:induction false} DrainingLetsGo(w: Worker, u: Owner, stuck: set<File>, from: nat, d: DocId)
    ensures d in DrainRetries(w, u, stuck, from).exits
        <==> d in w.exits || ReachesDelayed(w.retries, u, stuck, from, d)
    decreases |w.retries| - from
  {
    if from < |w.retries| {
      if w.retries[from].owner != u {
        ReachesOver(w.retries, from, u, stuck, d);
        DrainingLetsGo(w, u, stuck, from + 1, d);
      } else if w.retries[from].path in stuck {
        ReachesNoFurther(w.retries, from, u, stuck, d);
      } else {
        ReachesPast(w.retries, from, u, stuck, d);
        DrainingLetsGo(EraseRetry(w, from), u, stuck, from, d);
      }
    }
  }

  lemma ErasureLetsGo(w: Worker, u: Owner, stuck: set<File>, d: DocId)
    ensures d in Erase(w, u, stuck).exits <==>
      || d in w.exits
      || (!QueueStuck(w, u, stuck)
          && (d in QueuedDocs(w.items, u) || ReachesDelayed(w.retries, u, stuck, 0, d)))
  {
    if !QueueStuck(w, u, stuck) {
      DrainingLetsGo(DrainQueue(w.(erased := w.erased + {u}), u, stuck), u, stuck, 0, d);
    }
  }

  lemma StopLetsGo(w: Worker, d: DocId)
    ensures d in Step(w, Stop).exits <==> d in w.exits || LetsGo(w, Stop, d)
  {
    if DelayedDoc(w, d) {
      var x :| 0 <= x < |w.retries| && w.retries[x].document == d;
      assert w.retries[x] in w.retries;
    }
    if d in AllDocs(w.retries) {
      var j :| j in w.retries && j.document == d;
      var x :| 0 <= x < |w.retries| && w.retries[x] == j;
      assert DelayedDoc(w, d);
    }
  }

  lemma FinishLetsGo(w: Worker, outcome: Outcome, jammed: bool, d: DocId)
    ensures d in Step(w, Finish(outcome, jammed)).exits <==> d in w.exits || LetsGo(w, Finish(outcome, jammed), d)
  {
    if w.inFlight.Some? && w.inFlight.value.Work? {
      var how := FinishHow(w, outcome, jammed);
    }
  }

  lemma RetryLetsGo(w: Worker, x: nat, admission: Admission, jammed: bool, d: DocId)
    ensures var ev := RetryFires(x, admission, jammed);
      d in Step(w, ev).exits <==> d in w.exits || LetsGo(w, ev, d)
  {
  }

  lemma StepLetsGo(w: Worker, ev: Event, d: DocId)
    ensures d in Step(w, ev).exits <==> d in w.exits || LetsGo(w, ev, d)
  {
    match ev
    case EraseUser(u, stuck) => ErasureLetsGo(w, u, stuck * w.files, d);
    case Stop => StopLetsGo(w, d);
    case Finish(outcome, jammed) => FinishLetsGo(w, outcome, jammed, d);
    case RetryFires(x, admission, jammed) => RetryLetsGo(w, x, admission, jammed, d);
    case _ =>
  }

  predicate LetGoBetween(events: seq<Event>, m: nat, n: nat, d: DocId)
    requires n <= |events|
  {
    exists k :: m <= k < n && LetsGo(After(events[..k]), events[k], d)
  }

  lemma OneMoreLetGo(events: seq<Event>, m: nat, n: nat, d: DocId)
    requires m < n <= |events|
    ensures LetGoBetween(events, m, n, d)
        <==> LetGoBetween(events, m, n - 1, d) || LetsGo(After(events[..n - 1]), events[n - 1], d)
  {
  }

  /** From any point of a run on, a job has left exactly if it had, or one of those events came. */
  lemma {:induction false} LeftIff(events: seq<Event>, m: nat, n: nat, d: DocId)
    requires m <= n <= |events|
    ensures d in After(events[..n]).exits <==> d in After(events[..m]).exits || LetGoBetween(events, m, n, d)
    decreases n
  {
    if m < n {
      LeftIff(events, m, n - 1, d);
      AfterPrefix(events, n);
      StepLetsGo(After(events[..n - 1]), events[n - 1], d);
      OneMoreLetGo(events, m, n, d);
    }
  }

  // ---- a job whose document is gone -------------------------------------------------------------

  /** From the n-th event on the document has no row: `attempts` are the calls of its job's attempts. */
  predicate AbsentFrom(events: seq<Event>, n: nat, d: DocId, attempts: nat -> Attempt) {
    forall k :: n <= k < |events| && events[k].Finish? && ActiveDoc(After(events[..k]), d) ==>
      RowMissing(attempts(k).calls) && EndOf(attempts(k)) == Some(events[k].outcome)
  }

  /** What is left to end it: no attempt does that enters `ingest` and does not find the owner erased. */
  predicate EndsAbsent(w: Worker, ev: Event, a: Attempt, d: DocId) {
    match ev
    case Finish(_, _) =>
      && ActiveDoc(w, d)
      && (!Entered(a) || Pipeline.FoundErased(a.calls) || w.inFlight.value.job.owner in w.erased || w.stopping)
    case _ => LetsGo(w, ev, d)
  }

  lemma EndsAbsentIff(events: seq<Event>, n: nat, k: nat, d: DocId, attempts: nat -> Attempt)
    requires AbsentFrom(events, n, d, attempts) && n <= k < |events|
    ensures LetsGo(After(events[..k]), events[k], d) <==> EndsAbsent(After(events[..k]), events[k], attempts(k), d)
  {
    if events[k].Finish? && ActiveDoc(After(events[..k]), d) {
      MissingRowIsRetried(attempts(k));
    }
  }

  /**
   A job that is open when its document's row is gone stays in exactly one place of the worker, to be
   tried again, until erasure, `stop`, a retry that is not admitted, the worker's own lock or admission
   check, or an admission check inside `ingest` that finds the owner erased ends it: exactly then it has left.
   */
  lemma AbsentJobLeavesIff(events: seq<Event>, n: nat, d: DocId, attempts: nat -> Attempt)
    requires FreshRun(events) && n <= |events| && AbsentFrom(events, n, d, attempts)
    requires d in After(events[..n]).accepted && d !in After(events[..n]).exits
    ensures d in After(events).accepted
    ensures var w := After(events);
      Places(w, w.accepted[d]) == 0 <==>
        exists k :: n <= k < |events| && EndsAbsent(After(events[..k]), events[k], attempts(k), d)
    ensures var w := After(events); Places(w, w.accepted[d]) <= 1
  {
    assert events[..|events|] == events;
    StaysAccepted(events, n, |events|, d);
    InvariantHolds(events);
    InvariantPlacesJob(After(events), d);
    LeftIff(events, n, |events|, d);
    forall k | n <= k < |events|
      ensures LetsGo(After(events[..k]), events[k], d) <==> EndsAbsent(After(events[..k]), events[k], attempts(k), d)
    {
      EndsAbsentIff(events, n, k, d, attempts);
    }
  }

  lemma StepStaysAccepted(w: Worker, ev: Event, d: DocId)
    requires d in w.accepted
    ensures d in Step(w, ev).accepted
  {
    match ev
    case EraseUser(u, stuck) => EraseLeavesRest(w, u, stuck * w.files);
    case Finish(outcome, jammed) =>
      if w.inFlight.Some? && w.inFlight.value.Work? {
        var how := FinishHow(w, outcome, jammed);
      }
    case _ =>
  }

  lemma {:induction false} StaysAccepted(events: seq<Event>, m: nat, n: nat, d: DocId)
    requires m <= n <= |events| && d in After(events[..m]).accepted
    ensures d in After(events[..n]).accepted
    decreases n
  {
    if m < n {
      StaysAccepted(events, m, n - 1, d);
      AfterPrefix(events, n);
      StepStaysAccepted(After(events[..n - 1]), events[n - 1], d);
    }
  }

  // ---- without end ------------------------------------------------------------------------------

  /** The original cannot be read any more, and the missing row cannot be marked as failed. */
  const NO_ROW := Attempt(Pipeline.Passed, Pipeline.Passed, Pipeline.Calls(
    Pipeline.Passed, Pipeline.Error, Pipeline.Passed, Pipeline.Passed, 1,
    Pipeline.Passed, Pipeline.Passed, 1, Pipeline.Passed, Pipeline.Error,
    Pipeline.Passed, Pipeline.Error, Pipeline.Passed, Pipeline.Error))

  const ROUND := [Take, Finish(Retryable, false), RetryFires(0, Active, false)]

  /** After the upload was taken back, n attempts at its job. */
  function EndlessRun(n: nat): seq<Event> {
    if n == 0 then TakenBackRun() else EndlessRun(n - 1) + ROUND
  }

  const QUEUED := IDLE.(running := true, items := [Work(DROPPED)], unfinished := 1,
                        accepted := map[1 := DROPPED], lost := {1})

  lemma RoundIsACircle()
    ensures Step(Step(Step(QUEUED, Take), Finish(Retryable, false)), RetryFires(0, Active, false)) == QUEUED
  {
    var taken := Step(QUEUED, Take);
    assert taken == IDLE.(running := true, inFlight := Some(Work(DROPPED)), unfinished := 1,
                          accepted := map[1 := DROPPED], lost := {1});
    var delayed := Step(taken, Finish(Retryable, false));
    assert delayed == IDLE.(running := true, retries := [DROPPED], accepted := map[1 := DROPPED], lost := {1});
  }

  /** Three more events, one by one. */
  lemma ThreeMore(run: seq<Event>, a: Event, b: Event, c: Event)
    ensures After(run + [a, b, c]) == Step(Step(Step(After(run), a), b), c)
    ensures (run + [a, b, c])[..|run|] == run
  {
    var all := run + [a, b, c];
    var n := |run|;
    assert all[..n] == run && all[..n + 3] == all;
    AfterPrefix(all, n + 1);
    AfterPrefix(all, n + 2);
    AfterPrefix(all, n + 3);
  }

  lemma NoRowEndsRetryable()
    ensures RowMissing(NO_ROW.calls) && EndOf(NO_ROW) == Some(Retryable)
  {
    Pipeline.FailsFirstAt(NO_ROW.calls, 1);
  }

  lemma TakenBackIsQueued()
    ensures After(TakenBackRun()) == QUEUED
  {
    CompensationTakesTheOriginal();
    DropRunQueues();
    var run := TakenBackRun();
    assert run[..3] == DropRun()[..3] && run[..4] == run;
    AfterPrefix(run, 4);
  }

  lemma OnceMoreRound(run: seq<Event>)
    requires After(run) == QUEUED
    ensures After(run + ROUND) == QUEUED
  {
    RoundIsACircle();
    ThreeMore(run, ROUND[0], ROUND[1], ROUND[2]);
  }

  lemma RetryableIsAbsent(events: seq<Event>, n: nat, d: DocId)
    requires forall k :: n <= k < |events| && events[k].Finish? ==> events[k].outcome == Retryable
    ensures AbsentFrom(events, n, d, (k: nat) => NO_ROW)
  {
    NoRowEndsRetryable();
  }

  lemma {:induction false} EndlessRunGoesRound(n: nat)
    ensures |EndlessRun(n)| == 4 + 3 * n && After(EndlessRun(n)) == QUEUED
  {
    if n == 0 {
      TakenBackIsQueued();
    } else {
      EndlessRunGoesRound(n - 1);
      OnceMoreRound(EndlessRun(n - 1));
    }
  }

  /** After the first four, the events of the run are those of its rounds. */
  lemma {:induction false} EndlessRunEvents(n: nat, k: nat)
    requires k < |EndlessRun(n)|
    ensures k < 4 ==> EndlessRun(n)[k] == TakenBackRun()[k] && EndlessRun(n)[..k] == TakenBackRun()[..k]
    ensures k >= 4 ==> EndlessRun(n)[k] in ROUND
  {
    if n > 0 && k < |EndlessRun(n - 1)| {
      EndlessRunEvents(n - 1, k);
      assert EndlessRun(n)[..k] == EndlessRun(n - 1)[..k];
    } else if n > 0 {
      EndlessRunGoesRound(n - 1);
    }
  }

  lemma EndlessRunIsFresh(n: nat)
    ensures FreshRun(EndlessRun(n))
  {
    TakenBackRunIsFresh();
    var run := EndlessRun(n);
    forall k | 0 <= k < |run| ensures Fresh(After(run[..k]), run[k]) {
      EndlessRunEvents(n, k);
    }
  }

  /**
   For every n there is a run in which the taken back upload's job was tried n times, its row missing,
   and waits in the queue for the next time.
   */
  lemma AbsentJobIsTriedWithoutEnd(n: nat)
    ensures |EndlessRun(n)| == 4 + 3 * n && FreshRun(EndlessRun(n))
    ensures After(EndlessRun(n)) == QUEUED
    ensures AbsentFrom(EndlessRun(n), 4, DROPPED.document, (k: nat) => NO_ROW)
  {
    EndlessRunGoesRound(n);
    EndlessRunIsFresh(n);
    var run := EndlessRun(n);
    forall k | 4 <= k < |run| && run[k].Finish? ensures run[k].outcome == Retryable {
      EndlessRunEvents(n, k);
    }
    RetryableIsAbsent(run, 4, DROPPED.document);
  }
}
