/**
 The in-process ingest worker as steps between two awaits: its queue with the unfinished-task
 counter, the job under way, the delayed retries, and the encrypted originals on disk.
 */
module IngestQueue {
  import opened Common

  type File = nat

  datatype Job = Job(document: DocId, path: File, owner: Owner)

  /** A queue entry: a job, or the None that ends the run loop. */
  datatype Entry = Work(job: Job) | Sentinel

  datatype Admission = Active | Erased | Failing

  /** How `_ingest_job` ended; the original stays on disk exactly for `Retryable`. */
  datatype Outcome = Succeeded | OwnerGone | Retryable | Failed

  /** How an accepted job left the worker. */
  datatype Exit =
    | Completed(outcome: Outcome)
    | ErasedWithOwner
    | RetryAdmissionFailed
    | CancelledByStop
    | SuppressedByStop
    | StuckInErasure
    | UnlinkFailed

  /**
   `retries` lists the delayed jobs in the order the retry table holds them; `crashed` says that the run
   loop ended by an exception and its finished task is still there. The last four only record history: the
   jobs ever accepted, how each left, those whose original went while the worker still had them or by other
   hands, and the owners whose draining succeeded.
   */
  datatype Worker = Worker(
    items: seq<Entry>, unfinished: int, inFlight: Option<Entry>, running: bool, crashed: bool,
    erased: set<Owner>, retries: seq<Job>, stopping: bool, files: set<File>,
    accepted: map<DocId, Job>, exits: map<DocId, Exit>, lost: set<DocId>, drained: set<Owner>)

  const IDLE := Worker([], 0, None, false, false, {}, [], false, {}, map[], map[], {}, {})

  /**
   `jammed`: the unlink of the job's original, if it comes to that, fails. `Compensate`: the upload route
   unlinks an accepted job's original because a later step of the request failed. `RemovedOutside`: any
   other unlink by other hands, such as an erasure run by another process.
   */
  datatype Event =
    | Saved(path: File)
    | Start
    | Enqueue(job: Job, admission: Admission, jammed: bool)
    | EraseUser(owner: Owner, stuck: set<File>)
    | Take
    | Finish(outcome: Outcome, jammed: bool)
    | RetryFires(index: nat, admission: Admission, jammed: bool)
    | Stop
    | Compensate(document: DocId)
    | RemovedOutside(path: File)

  predicate Owned(e: Entry, u: Owner) {
    e.Work? && e.job.owner == u
  }

  /** The entries of other owners, and sentinels, in their order. */
  function Others(items: seq<Entry>, u: Owner): seq<Entry> {
    if items == [] then []
    else
      var last := items[|items| - 1];
      Others(items[..|items| - 1], u) + (if Owned(last, u) then [] else [last])
  }

  function QueuedPaths(items: seq<Entry>, u: Owner): set<File> {
    set e | e in items && Owned(e, u) :: e.job.path
  }

  /** The first entry of the owner whose original cannot be unlinked, or the length. */
  function FirstStuck(items: seq<Entry>, u: Owner, stuck: set<File>): (k: nat)
    ensures k <= |items|
    ensures k < |items| ==> Owned(items[k], u) && items[k].job.path in stuck
    ensures forall j :: 0 <= j < k ==> !(Owned(items[j], u) && items[j].job.path in stuck)
  {
    if items == [] then 0
    else
      var k := FirstStuck(items[..|items| - 1], u, stuck);
      var last := items[|items| - 1];
      if k < |items| - 1 then k
      else if Owned(last, u) && last.job.path in stuck then |items| - 1 else |items|
  }

  function QueuedDocs(items: seq<Entry>, u: Owner): set<DocId> {
    set e | e in items && Owned(e, u) :: e.job.document
  }

  function AllDocs(jobs: seq<Job>): set<DocId> {
    set j | j in jobs :: j.document
  }

  function Leave(exits: map<DocId, Exit>, docs: set<DocId>, how: Exit): map<DocId, Exit> {
    exits + (map d | d in docs :: how)
  }

  // ---- the steps --------------------------------------------------------------------------------

  /** The queue is drained and rebuilt without the owner's jobs, or left whole if an unlink fails. */
  function DrainQueue(w: Worker, u: Owner, stuck: set<File>): Worker {
    var k := FirstStuck(w.items, u, stuck);
    if k < |w.items| then
      w.(files := w.files - QueuedPaths(w.items[..k], u), lost := w.lost + QueuedDocs(w.items[..k], u))
    else w.(items := Others(w.items, u),
            unfinished := w.unfinished - (|w.items| - |Others(w.items, u)|),
            files := w.files - QueuedPaths(w.items, u),
            exits := Leave(w.exits, QueuedDocs(w.items, u), ErasedWithOwner))
  }

  function DropRetry(w: Worker, index: nat, how: Exit): Worker
    requires index < |w.retries|
  {
    w.(retries := w.retries[..index] + w.retries[index + 1..],
       exits := w.exits[w.retries[index].document := how])
  }

  /** Cancelled with its owner, its original unlinked. */
  function EraseRetry(w: Worker, index: nat): Worker
    requires index < |w.retries|
  {
    DropRetry(w, index, ErasedWithOwner).(files := w.files - {w.retries[index].path})
  }

  /** Then the owner's delayed retries are cancelled one by one, until an unlink fails. */
  function DrainRetries(w: Worker, u: Owner, stuck: set<File>, from: nat): Worker
    decreases |w.retries| - from
  {
    if from >= |w.retries| then w.(drained := w.drained + {u})
    else if w.retries[from].owner != u then DrainRetries(w, u, stuck, from + 1)
    else if w.retries[from].path in stuck then DropRetry(w, from, StuckInErasure)
    else DrainRetries(EraseRetry(w, from), u, stuck, from)
  }

  predicate QueueStuck(w: Worker, u: Owner, stuck: set<File>) {
    FirstStuck(w.items, u, stuck) < |w.items|
  }

  /** What `erase_user` does before it first waits. */
  function Erase(w: Worker, u: Owner, stuck: set<File>): Worker {
    var marked := w.(erased := w.erased + {u});
    if QueueStuck(w, u, stuck) then DrainQueue(marked, u, stuck)
    else DrainRetries(DrainQueue(marked, u, stuck), u, stuck, 0)
  }

  /** Only an original that is there can fail to be unlinked. */
  function EraseThere(w: Worker, u: Owner, stuck: set<File>): Worker {
    Erase(w, u, stuck * w.files)
  }

  /** An original is unlinked behind the worker's back. */
  function Remove(w: Worker, path: File): Worker {
    w.(files := w.files - {path}, lost := w.lost + (set d | d in w.accepted && w.accepted[d].path == path))
  }

  function Put(w: Worker, e: Entry): Worker {
    w.(items := w.items + [e], unfinished := w.unfinished + 1)
  }

  /** An original that is there and cannot be unlinked. */
  predicate Jams(w: Worker, job: Job, jammed: bool) {
    jammed && job.path in w.files
  }

  /** The job leaves and its original is unlinked, unless that fails. */
  function LeaveUnlinked(w: Worker, job: Job, how: Exit, jammed: bool): Worker {
    if Jams(w, job, jammed) then w.(exits := w.exits[job.document := UnlinkFailed])
    else w.(files := w.files - {job.path}, exits := w.exits[job.document := how])
  }

  /** A failing unlink is one more failed job, but in `_schedule_retry` it ends the run loop. */
  function FinishJob(w: Worker, job: Job, outcome: Outcome, jammed: bool): Worker {
    if outcome != Retryable then LeaveUnlinked(w, job, Completed(outcome), jammed)
    else if job.owner in w.erased then
      var left := LeaveUnlinked(w, job, ErasedWithOwner, jammed);
      if Jams(w, job, jammed) then left.(running := false, crashed := true) else left
    else if w.stopping then w.(exits := w.exits[job.document := SuppressedByStop])
    else w.(retries := w.retries + [job])
  }

  function FireRetry(w: Worker, index: nat, admission: Admission, jammed: bool): Worker
    requires index < |w.retries|
  {
    var job := w.retries[index];
    if w.stopping then DropRetry(w, index, CancelledByStop)
    else if admission == Failing then DropRetry(w, index, RetryAdmissionFailed)
    else if admission == Erased || job.owner in w.erased then
      if Jams(w, job, jammed) then DropRetry(w, index, UnlinkFailed) else EraseRetry(w, index)
    else Put(w.(retries := w.retries[..index] + w.retries[index + 1..]), Work(job))
  }

  function Step(w: Worker, ev: Event): Worker {
    match ev
    case Saved(path) => w.(files := w.files + {path})
    case Start => w.(running := true, crashed := false, stopping := false)
    case Enqueue(job, admission, jammed) =>
      if admission == Failing then w
      else if admission == Erased || job.owner in w.erased
      then if jammed then w else w.(files := w.files - {job.path})
      else Put(w, Work(job)).(accepted := w.accepted[job.document := job])
    case EraseUser(u, stuck) => EraseThere(w, u, stuck)
    case Take =>
      if w.running && w.inFlight == None && w.items != []
      then w.(inFlight := Some(w.items[0]), items := w.items[1..]) else w
    case Finish(outcome, jammed) =>
      if w.inFlight == None then w
      else
        var done := w.(inFlight := None, unfinished := w.unfinished - 1);
        (match w.inFlight.value
         case Sentinel => done.(running := false)
         case Work(job) => FinishJob(done, job, outcome, jammed))
    case RetryFires(index, admission, jammed) =>
      if index < |w.retries| then FireRetry(w, index, admission, jammed) else w
    case Stop =>
      if !w.running && !w.crashed then w
      else Put(w.(stopping := true, retries := [],
                  exits := Leave(w.exits, AllDocs(w.retries), CancelledByStop)),
               Sentinel)
    case Compensate(doc) => if doc in w.accepted then Remove(w, w.accepted[doc].path) else w
    case RemovedOutside(path) => Remove(w, path)
  }

  // ---- one place per job ------------------------------------------------------------------------

  /** Accepted and not yet left. */
  predicate Open(w: Worker, job: Job) {
    job.document in w.accepted && w.accepted[job.document] == job && job.document !in w.exits
  }

  /** How many places hold the job: the queue, the active slot, the retry table. */
  function Places(w: Worker, job: Job): nat {
    multiset(w.items)[Work(job)] + (if w.inFlight == Some(Work(job)) then 1 else 0) + multiset(w.retries)[job]
  }

  /** Every open job is in exactly one place, once; nothing else is anywhere. */
  ghost predicate OnePlace(w: Worker) {
    && (forall job :: Places(w, job) == if Open(w, job) then 1 else 0)
    && w.exits.Keys <= w.accepted.Keys
  }

  /** The unfinished count is the queued entries plus the one in flight. */
  predicate Accounted(w: Worker) {
    w.unfinished == |w.items| + (if w.inFlight.Some? then 1 else 0)
  }

  predicate Gone(exit: Exit) {
    exit.Completed? || exit.ErasedWithOwner?
  }

  /** An original is on disk unless its job finished or was erased with it, or it was lost. */
  predicate OriginalIsWhereItShould(w: Worker, d: DocId)
    requires d in w.accepted
  {
    w.accepted[d].path in w.files <==> !(d in w.exits && Gone(w.exits[d])) && d !in w.lost
  }

  ghost predicate Originals(w: Worker) {
    && (forall d, e :: d in w.accepted && e in w.accepted && w.accepted[d].path == w.accepted[e].path ==> d == e)
    && (forall d :: d in w.accepted ==> w.accepted[d].document == d && OriginalIsWhereItShould(w, d))
    && w.lost <= w.accepted.Keys
  }

  /** A drained owner has nothing queued or delayed any more. */
  predicate Drained(w: Worker) {
    w.drained <= w.erased && QueueWithout(w, w.drained)
  }

  predicate QueueWithout(w: Worker, owners: set<Owner>) {
    && (forall e :: e in w.items && e.Work? ==> e.job.owner !in owners)
    && (forall j :: j in w.retries ==> j.owner !in owners)
  }

  /** Document ids and staged paths are fresh uuids, and a job is enqueued with its file saved. */
  predicate Fresh(w: Worker, ev: Event) {
    match ev
    case Enqueue(job, _, _) =>
      && job.document !in w.accepted && job.path in w.files
      && forall d :: d in w.accepted ==> w.accepted[d].path != job.path
    case Saved(path) => forall d :: d in w.accepted ==> w.accepted[d].path != path
    case _ => true
  }

  // ---- filters and bags -------------------------------------------------------------------------

  lemma {:induction false} OthersBag(items: seq<Entry>, u: Owner, e: Entry)
    ensures multiset(Others(items, u))[e] == if Owned(e, u) then 0 else multiset(items)[e]
  {
    if items != [] {
      var front := items[..|items| - 1];
      assert items == front + [items[|items| - 1]];
      OthersBag(front, u, e);
    }
  }

  /** Read from the front: what stays keeps its order. */
  lemma {:induction false} OthersFromTheFront(items: seq<Entry>, u: Owner)
    requires items != []
    ensures Others(items, u) == (if Owned(items[0], u) then [] else [items[0]]) + Others(items[1..], u)
  {
    if |items| > 1 {
      var front, last := items[..|items| - 1], items[|items| - 1];
      OthersFromTheFront(front, u);
      assert front[1..] == items[1..][..|items| - 2];
    }
  }

  lemma BagHasElement<T>(s: seq<T>, x: T)
    ensures x in s <==> multiset(s)[x] > 0
  {
    assert x in s <==> x in multiset(s);
  }

  lemma RemovedFromBag<T>(s: seq<T>, i: nat, x: T)
    requires i < |s|
    ensures multiset(s)[x] == multiset(s[..i] + s[i + 1..])[x] + (if s[i] == x then 1 else 0)
  {
    assert s == s[..i] + [s[i]] + s[i + 1..];
  }

  // ---- each step keeps the invariants -----------------------------------------------------------

  ghost predicate Invariant(w: Worker) {
    OnePlace(w) && Accounted(w) && Originals(w) && Drained(w)
  }

  /** A document whose jobs of `u` are removed from a place is exactly an open one found there. */
  lemma QueuedDocIsOpen(w: Worker, u: Owner, d: DocId)
    requires OnePlace(w) && d in QueuedDocs(w.items, u)
    ensures d in w.accepted && w.accepted[d].owner == u && w.accepted[d].document == d
    ensures Open(w, w.accepted[d])
    ensures multiset(w.items)[Work(w.accepted[d])] == 1
  {
    var e :| e in w.items && Owned(e, u) && e.job.document == d;
    BagHasElement(w.items, e);
    assert Places(w, e.job) >= 1;
  }

  lemma RetryDocIsOpen(w: Worker, j: Job)
    requires OnePlace(w) && j in w.retries
    ensures Open(w, j) && multiset(w.retries)[j] == 1
  {
    BagHasElement(w.retries, j);
    assert Places(w, j) >= 1;
  }

  /** Steps that only touch files, flags and history of other kinds move no job. */
  lemma UnmovedKeepsPlaces(w: Worker, w': Worker)
    requires OnePlace(w)
    requires w'.items == w.items && w'.inFlight == w.inFlight && w'.retries == w.retries
    requires w'.accepted == w.accepted && w'.exits == w.exits
    ensures OnePlace(w')
  {
    forall job ensures Places(w', job) == if Open(w', job) then 1 else 0 {
      assert Places(w, job) == if Open(w, job) then 1 else 0;
    }
  }

  lemma DrainQueueKeepsPlaces(w: Worker, u: Owner, stuck: set<File>)
    requires OnePlace(w)
    ensures OnePlace(DrainQueue(w, u, stuck))
  {
    var w' := DrainQueue(w, u, stuck);
    if QueueStuck(w, u, stuck) {
      UnmovedKeepsPlaces(w, w');
    } else {
      forall d | d in QueuedDocs(w.items, u) ensures d in w.accepted {
        QueuedDocIsOpen(w, u, d);
      }
      forall job ensures Places(w', job) == if Open(w', job) then 1 else 0 {
        OthersBag(w.items, u, Work(job));
        BagHasElement(w.items, Work(job));
        assert Places(w, job) == if Open(w, job) then 1 else 0;
        if job.document in QueuedDocs(w.items, u) {
          QueuedDocIsOpen(w, u, job.document);
        }
      }
    }
  }

  lemma DropRetryKeepsPlaces(w: Worker, index: nat, how: Exit)
    requires OnePlace(w) && index < |w.retries|
    ensures OnePlace(DropRetry(w, index, how))
  {
    var w' := DropRetry(w, index, how);
    var dropped := w.retries[index];
    RetryDocIsOpen(w, dropped);
    forall job ensures Places(w', job) == if Open(w', job) then 1 else 0 {
      assert Places(w, job) == if Open(w, job) then 1 else 0;
      RemovedFromBag(w.retries, index, job);
    }
  }

  lemma EraseKeepsPlaces(w: Worker, u: Owner, stuck: set<File>)
    requires OnePlace(w)
    ensures OnePlace(Erase(w, u, stuck))
  {
    var marked := w.(erased := w.erased + {u});
    UnmovedKeepsPlaces(w, marked);
    DrainQueueKeepsPlaces(marked, u, stuck);
    if !QueueStuck(w, u, stuck) {
      DrainRetriesKeepsPlaces(DrainQueue(marked, u, stuck), u, stuck, 0);
    }
  }

  lemma {:induction false} DrainRetriesKeepsPlaces(w: Worker, u: Owner, stuck: set<File>, from: nat)
    requires OnePlace(w)
    ensures OnePlace(DrainRetries(w, u, stuck, from))
    decreases |w.retries| - from
  {
    if from >= |w.retries| {
      UnmovedKeepsPlaces(w, DrainRetries(w, u, stuck, from));
    } else if w.retries[from].owner != u {
      DrainRetriesKeepsPlaces(w, u, stuck, from + 1);
    } else if w.retries[from].path in stuck {
      DropRetryKeepsPlaces(w, from, StuckInErasure);
    } else {
      EraseRetryKeepsPlaces(w, from);
      DrainRetriesKeepsPlaces(EraseRetry(w, from), u, stuck, from);
    }
  }

  lemma EraseRetryKeepsPlaces(w: Worker, index: nat)
    requires OnePlace(w) && index < |w.retries|
    ensures OnePlace(EraseRetry(w, index))
  {
    DropRetryKeepsPlaces(w, index, ErasedWithOwner);
    UnmovedKeepsPlaces(DropRetry(w, index, ErasedWithOwner), EraseRetry(w, index));
  }

  lemma StopKeepsPlaces(w: Worker)
    requires OnePlace(w)
    ensures OnePlace(Step(w, Stop))
  {
    var w' := Step(w, Stop);
    if w.running || w.crashed {
      forall j | j in w.retries ensures Open(w, j) {
        RetryDocIsOpen(w, j);
      }
      forall job ensures Places(w', job) == if Open(w', job) then 1 else 0 {
        assert Places(w, job) == if Open(w, job) then 1 else 0;
        BagHasElement(w.retries, job);
      }
    }
  }

  lemma TakeKeepsPlaces(w: Worker)
    requires OnePlace(w)
    ensures OnePlace(Step(w, Take))
  {
    var w' := Step(w, Take);
    if w' != w {
      assert w.items == [w.items[0]] + w.items[1..];
      forall job ensures Places(w', job) == if Open(w', job) then 1 else 0 {
        assert Places(w, job) == if Open(w, job) then 1 else 0;
      }
    }
  }

  /** The active job leaves by a named exit, or moves to the retry table. */
  lemma ActiveJobMoves(w: Worker, job: Job, how: Exit)
    requires OnePlace(w) && w.inFlight == Some(Work(job))
    ensures OnePlace(w.(inFlight := None, exits := w.exits[job.document := how]))
    ensures OnePlace(w.(inFlight := None, retries := w.retries + [job]))
  {
    assert Places(w, job) >= 1;
    var left := w.(inFlight := None, exits := w.exits[job.document := how]);
    var delayed := w.(inFlight := None, retries := w.retries + [job]);
    forall j ensures Places(left, j) == (if Open(left, j) then 1 else 0) {
      assert Places(w, j) == if Open(w, j) then 1 else 0;
    }
    forall j ensures Places(delayed, j) == (if Open(delayed, j) then 1 else 0) {
      assert Places(w, j) == if Open(w, j) then 1 else 0;
    }
  }

  lemma SentinelLeaves(w: Worker)
    requires OnePlace(w) && w.inFlight == Some(Sentinel)
    ensures OnePlace(w.(inFlight := None))
  {
    forall j ensures Places(w.(inFlight := None), j) == if Open(w, j) then 1 else 0 {
      assert Places(w, j) == if Open(w, j) then 1 else 0;
    }
  }

  /** The active job's end: it leaves by that exit or, without one, is delayed. */
  predicate FinishesAs(w: Worker, w': Worker, job: Job, how: Option<Exit>) {
    && w'.items == w.items && w'.inFlight == None && w'.unfinished == w.unfinished - 1
    && w'.erased == w.erased && w'.accepted == w.accepted && w'.drained == w.drained && w'.stopping == w.stopping
    && w'.lost == w.lost
    && (if how.None? then
          w'.retries == w.retries + [job] && w'.exits == w.exits && w'.files == w.files && job.owner !in w.erased
        else
          && w'.retries == w.retries && w'.exits == w.exits[job.document := how.value]
          && (if Gone(how.value) then w'.files == w.files - {job.path} else w'.files == w.files)
          && (how == Some(UnlinkFailed) ==> job.path in w.files)
          && (how.value == SuppressedByStop ==> job.owner !in w.erased)
          && (Gone(how.value) || how.value == UnlinkFailed || how.value == SuppressedByStop))
  }

  lemma UnlinkedHow(w: Worker, done: Worker, job: Job, how: Exit, jammed: bool) returns (actual: Option<Exit>)
    requires done == w.(inFlight := None, unfinished := w.unfinished - 1) && Gone(how)
    ensures actual == Some(if Jams(w, job, jammed) then UnlinkFailed else how)
    ensures FinishesAs(w, LeaveUnlinked(done, job, how, jammed), job, actual)
  {
    actual := Some(if Jams(w, job, jammed) then UnlinkFailed else how);
  }

  lemma FinishJobHow(w: Worker, done: Worker, job: Job, outcome: Outcome, jammed: bool) returns (how: Option<Exit>)
    requires done == w.(inFlight := None, unfinished := w.unfinished - 1)
    ensures FinishesAs(w, FinishJob(done, job, outcome, jammed), job, how)
    ensures how.None? <==> outcome == Retryable && job.owner !in w.erased && !w.stopping
    ensures how.Some? && !Gone(how.value) <==>
      if outcome == Retryable && job.owner !in w.erased then w.stopping else Jams(w, job, jammed)
  {
    if outcome == Retryable && job.owner !in w.erased {
      how := if w.stopping then Some(SuppressedByStop) else None;
    } else {
      how := UnlinkedHow(w, done, job, if outcome == Retryable then ErasedWithOwner else Completed(outcome), jammed);
    }
  }

  /** How the active job ends; its original stays exactly when `stop` suppressed it or the unlink failed. */
  lemma FinishHow(w: Worker, outcome: Outcome, jammed: bool) returns (how: Option<Exit>)
    requires w.inFlight.Some? && w.inFlight.value.Work?
    ensures FinishesAs(w, Step(w, Finish(outcome, jammed)), w.inFlight.value.job, how)
    ensures how.None? <==> outcome == Retryable && w.inFlight.value.job.owner !in w.erased && !w.stopping
    ensures how.Some? && !Gone(how.value) <==>
      if outcome == Retryable && w.inFlight.value.job.owner !in w.erased then w.stopping
      else Jams(w, w.inFlight.value.job, jammed)
  {
    var done := w.(inFlight := None, unfinished := w.unfinished - 1);
    how := FinishJobHow(w, done, w.inFlight.value.job, outcome, jammed);
  }

  /** What the end of the active job does to files, retries and the loop. */
  lemma FinishDoes(w: Worker, outcome: Outcome, jammed: bool)
    ensures w.inFlight == None ==> Step(w, Finish(outcome, jammed)) == w
    ensures w.inFlight == Some(Sentinel) ==>
      Step(w, Finish(outcome, jammed)) == w.(inFlight := None, unfinished := w.unfinished - 1, running := false)
    ensures w.inFlight.Some? && w.inFlight.value.Work? ==>
      var w', job := Step(w, Finish(outcome, jammed)), w.inFlight.value.job;
      var keeps := outcome == Retryable && job.owner !in w.erased;
      && w'.inFlight == None && w'.unfinished == w.unfinished - 1 && w'.items == w.items
      && w'.files == (if keeps || jammed then w.files else w.files - {job.path})
      && w'.retries == (if keeps && !w.stopping then w.retries + [job] else w.retries)
  {
    if w.inFlight.Some? && w.inFlight.value.Work? {
      FinishFiles(w.(inFlight := None, unfinished := w.unfinished - 1), w.inFlight.value.job, outcome, jammed);
      var how := FinishHow(w, outcome, jammed);
    }
  }

  lemma FinishFiles(w: Worker, job: Job, outcome: Outcome, jammed: bool)
    ensures FinishJob(w, job, outcome, jammed).files
      == if (outcome == Retryable && job.owner !in w.erased) || jammed then w.files else w.files - {job.path}
  {
  }

  lemma FinishedKeepsPlaces(w: Worker, w': Worker, job: Job, how: Option<Exit>)
    requires OnePlace(w) && w.inFlight == Some(Work(job)) && FinishesAs(w, w', job, how)
    ensures OnePlace(w')
  {
    if how.None? {
      ActiveJobMoves(w, job, ErasedWithOwner);
      UnmovedKeepsPlaces(w.(inFlight := None, retries := w.retries + [job]), w');
    } else {
      ActiveJobMoves(w, job, how.value);
      UnmovedKeepsPlaces(w.(inFlight := None, exits := w.exits[job.document := how.value]), w');
    }
  }

  lemma FinishKeepsPlaces(w: Worker, outcome: Outcome, jammed: bool)
    requires OnePlace(w)
    ensures OnePlace(Step(w, Finish(outcome, jammed)))
  {
    if w.inFlight == Some(Sentinel) {
      SentinelLeaves(w);
      UnmovedKeepsPlaces(w.(inFlight := None), Step(w, Finish(outcome, jammed)));
    } else if w.inFlight.Some? {
      var how := FinishHow(w, outcome, jammed);
      FinishedKeepsPlaces(w, Step(w, Finish(outcome, jammed)), w.inFlight.value.job, how);
    }
  }

  lemma RetryKeepsPlaces(w: Worker, index: nat, admission: Admission, jammed: bool)
    requires OnePlace(w)
    ensures OnePlace(Step(w, RetryFires(index, admission, jammed)))
  {
    var w' := Step(w, RetryFires(index, admission, jammed));
    if index < |w.retries| {
      if w.stopping {
        DropRetryKeepsPlaces(w, index, CancelledByStop);
      } else if admission == Failing {
        DropRetryKeepsPlaces(w, index, RetryAdmissionFailed);
      } else if admission == Erased || w.retries[index].owner in w.erased {
        EraseRetryKeepsPlaces(w, index);
        DropRetryKeepsPlaces(w, index, UnlinkFailed);
      } else {
        forall job ensures Places(w', job) == if Open(w', job) then 1 else 0 {
          assert Places(w, job) == if Open(w, job) then 1 else 0;
          RemovedFromBag(w.retries, index, job);
        }
      }
    }
  }

  lemma QueuedOnceMore(w: Worker, job: Job, j: Job)
    ensures Places(Put(w, Work(job)), j) == Places(w, j) + (if j == job then 1 else 0)
  {
  }

  lemma EnqueueKeepsPlaces(w: Worker, job: Job, admission: Admission, jammed: bool)
    requires OnePlace(w) && Fresh(w, Enqueue(job, admission, jammed))
    ensures OnePlace(Step(w, Enqueue(job, admission, jammed)))
  {
    var w' := Step(w, Enqueue(job, admission, jammed));
    if admission != Active || job.owner in w.erased {
      UnmovedKeepsPlaces(w, w');
    } else {
      assert w'.exits.Keys <= w'.accepted.Keys;
      forall j ensures Places(w', j) == if Open(w', j) then 1 else 0 {
        assert Places(w', j) == Places(Put(w, Work(job)), j);
        QueuedOnceMore(w, job, j);
        assert Places(w, j) == if Open(w, j) then 1 else 0;
      }
    }
  }

  lemma StepKeepsPlaces(w: Worker, ev: Event)
    requires OnePlace(w) && Fresh(w, ev)
    ensures OnePlace(Step(w, ev))
  {
    match ev
    case Enqueue(job, admission, jammed) => EnqueueKeepsPlaces(w, job, admission, jammed);
    case EraseUser(u, stuck) => EraseKeepsPlaces(w, u, stuck * w.files);
    case Take => TakeKeepsPlaces(w);
    case Finish(outcome, jammed) => FinishKeepsPlaces(w, outcome, jammed);
    case RetryFires(index, admission, jammed) => RetryKeepsPlaces(w, index, admission, jammed);
    case Stop => StopKeepsPlaces(w);
    case _ => UnmovedKeepsPlaces(w, Step(w, ev));
  }

  lemma FinishKeepsAccounted(w: Worker, outcome: Outcome, jammed: bool)
    requires Accounted(w)
    ensures Accounted(Step(w, Finish(outcome, jammed)))
  {
    if w.inFlight.Some? && w.inFlight.value.Work? {
      var how := FinishHow(w, outcome, jammed);
    }
  }

  lemma RetryKeepsAccounted(w: Worker, index: nat, admission: Admission, jammed: bool)
    requires Accounted(w)
    ensures Accounted(Step(w, RetryFires(index, admission, jammed)))
  {
  }

  lemma StepKeepsAccounted(w: Worker, ev: Event)
    requires Accounted(w)
    ensures Accounted(Step(w, ev))
  {
    match ev
    case EraseUser(u, stuck) => EraseKeepsAccounted(w, u, stuck * w.files);
    case Finish(outcome, jammed) => FinishKeepsAccounted(w, outcome, jammed);
    case RetryFires(index, admission, jammed) => RetryKeepsAccounted(w, index, admission, jammed);
    case _ =>
  }

  lemma EraseKeepsAccounted(w: Worker, u: Owner, stuck: set<File>)
    requires Accounted(w)
    ensures Accounted(Erase(w, u, stuck))
  {
    var queued := DrainQueue(w.(erased := w.erased + {u}), u, stuck);
    assert Accounted(queued);
    if !QueueStuck(w, u, stuck) {
      DrainRetriesLeavesRest(queued, u, stuck, 0);
    }
  }

  /** Draining the retry table touches nothing but it, files, and history. */
  lemma {:induction false} DrainRetriesLeavesRest(w: Worker, u: Owner, stuck: set<File>, from: nat)
    ensures var w' := DrainRetries(w, u, stuck, from);
      && w'.items == w.items && w'.unfinished == w.unfinished && w'.inFlight == w.inFlight
      && w'.erased == w.erased && w'.accepted == w.accepted && w'.running == w.running && w'.crashed == w.crashed
      && w'.stopping == w.stopping && w'.lost == w.lost && w.drained <= w'.drained <= w.drained + {u}
    decreases |w.retries| - from
  {
    if from < |w.retries| {
      if w.retries[from].owner != u {
        DrainRetriesLeavesRest(w, u, stuck, from + 1);
      } else if w.retries[from].path !in stuck {
        DrainRetriesLeavesRest(EraseRetry(w, from), u, stuck, from);
      }
    }
  }

  /** The retry table only shrinks, and loses all of the owner's jobs if the draining succeeds. */
  lemma {:induction false} DrainRetriesClears(w: Worker, u: Owner, stuck: set<File>, from: nat)
    requires forall k :: 0 <= k < from && k < |w.retries| ==> w.retries[k].owner != u
    ensures var w' := DrainRetries(w, u, stuck, from);
      && (forall j :: j in w'.retries ==> j in w.retries)
      && (w'.drained != w.drained ==> forall j :: j in w'.retries ==> j.owner != u)
    decreases |w.retries| - from
  {
    if from < |w.retries| {
      if w.retries[from].owner != u {
        DrainRetriesClears(w, u, stuck, from + 1);
      } else if w.retries[from].path !in stuck {
        DrainRetriesClears(EraseRetry(w, from), u, stuck, from);
      }
    }
  }

  lemma {:induction false} OthersAreOthers(items: seq<Entry>, u: Owner, e: Entry)
    requires e in Others(items, u)
    ensures e in items && !Owned(e, u)
  {
    BagHasElement(Others(items, u), e);
    OthersBag(items, u, e);
    BagHasElement(items, e);
  }

  lemma EraseClears(w: Worker, u: Owner, stuck: set<File>)
    requires Drained(w)
    ensures Drained(Erase(w, u, stuck))
  {
    var w' := Erase(w, u, stuck);
    if !QueueStuck(w, u, stuck) {
      var queued := DrainQueue(w.(erased := w.erased + {u}), u, stuck);
      DrainRetriesLeavesRest(queued, u, stuck, 0);
      DrainRetriesClears(queued, u, stuck, 0);
      forall e | e in w'.items ensures e in w.items && !Owned(e, u) {
        OthersAreOthers(w.items, u, e);
      }
    }
  }

  // ---- the originals on disk --------------------------------------------------------------------

  lemma QueuedPathFindsDoc(w: Worker, k: nat, u: Owner, d: DocId)
    requires OnePlace(w) && Originals(w) && k <= |w.items| && d in w.accepted
    ensures w.accepted[d].path in QueuedPaths(w.items[..k], u) <==> d in QueuedDocs(w.items[..k], u)
  {
    forall e | e in w.items[..k] && Owned(e, u) ensures Open(w, e.job) {
      BagHasElement(w.items, e);
      assert Places(w, e.job) >= 1;
    }
    if w.accepted[d].path in QueuedPaths(w.items[..k], u) {
      var e :| e in w.items[..k] && Owned(e, u) && e.job.path == w.accepted[d].path;
      assert w.accepted[e.job.document] == e.job;
    }
    if d in QueuedDocs(w.items[..k], u) {
      var e :| e in w.items[..k] && Owned(e, u) && e.job.document == d;
      assert w.accepted[d] == e.job;
    }
  }

  lemma DrainQueueKeepsOriginals(w: Worker, u: Owner, stuck: set<File>)
    requires OnePlace(w) && Originals(w)
    ensures Originals(DrainQueue(w, u, stuck))
  {
    var w' := DrainQueue(w, u, stuck);
    var k := FirstStuck(w.items, u, stuck);
    forall d | d in QueuedDocs(w.items[..k], u) ensures d in w.accepted {
      PrefixDocIsQueued(w.items, k, u, d);
      QueuedDocIsOpen(w, u, d);
    }
    forall d | d in w.accepted ensures OriginalIsWhereItShould(w', d) {
      DrainQueueKeepsOriginal(w, u, stuck, d);
    }
  }

  lemma DrainQueueKeepsOriginal(w: Worker, u: Owner, stuck: set<File>, d: DocId)
    requires OnePlace(w) && Originals(w) && d in w.accepted
    ensures OriginalIsWhereItShould(DrainQueue(w, u, stuck), d)
  {
    var k := FirstStuck(w.items, u, stuck);
    assert OriginalIsWhereItShould(w, d);
    QueuedPathFindsDoc(w, k, u, d);
    assert w.items[..|w.items|] == w.items;
    if d in QueuedDocs(w.items[..k], u) {
      PrefixDocIsQueued(w.items, k, u, d);
      QueuedDocIsOpen(w, u, d);
    }
  }

  lemma PrefixDocIsQueued(items: seq<Entry>, k: nat, u: Owner, d: DocId)
    requires k <= |items| && d in QueuedDocs(items[..k], u)
    ensures d in QueuedDocs(items, u)
  {
    var e :| e in items[..k] && Owned(e, u) && e.job.document == d;
    assert e in items;
  }

  /** A job that left keeps or loses its original as its exit says; all others keep theirs. */
  lemma LeavingKeepsOriginals(w: Worker, w': Worker, job: Job, how: Exit)
    requires Originals(w) && Open(w, job)
    requires w'.accepted == w.accepted && w'.lost == w.lost
    requires w'.exits == w.exits[job.document := how]
    requires w'.files == if Gone(how) then w.files - {job.path} else w.files
    ensures Originals(w')
  {
    forall d | d in w.accepted ensures OriginalIsWhereItShould(w', d) {
      assert OriginalIsWhereItShould(w, d);
    }
  }

  lemma DropRetryKeepsOriginals(w: Worker, index: nat, how: Exit)
    requires OnePlace(w) && Originals(w) && index < |w.retries| && !Gone(how)
    ensures Originals(DropRetry(w, index, how))
    ensures Originals(EraseRetry(w, index))
  {
    var dropped := w.retries[index];
    RetryDocIsOpen(w, dropped);
    LeavingKeepsOriginals(w, DropRetry(w, index, how), dropped, how);
    LeavingKeepsOriginals(w, EraseRetry(w, index), dropped, ErasedWithOwner);
  }

  /** Originals only speak of jobs, how they left, and their files. */
  lemma SameOriginals(w: Worker, w': Worker)
    requires Originals(w) && w'.accepted == w.accepted && w'.exits == w.exits && w'.lost == w.lost
    requires forall d :: d in w.accepted ==> (w.accepted[d].path in w.files <==> w.accepted[d].path in w'.files)
    ensures Originals(w')
  {
    forall d | d in w.accepted ensures OriginalIsWhereItShould(w', d) {
      assert OriginalIsWhereItShould(w, d);
    }
  }

  lemma {:induction false} DrainRetriesKeepsOriginals(w: Worker, u: Owner, stuck: set<File>, from: nat)
    requires OnePlace(w) && Originals(w)
    ensures Originals(DrainRetries(w, u, stuck, from))
    decreases |w.retries| - from
  {
    if from >= |w.retries| {
      SameOriginals(w, DrainRetries(w, u, stuck, from));
    } else if w.retries[from].owner != u {
      DrainRetriesKeepsOriginals(w, u, stuck, from + 1);
    } else {
      DropRetryKeepsOriginals(w, from, StuckInErasure);
      if w.retries[from].path !in stuck {
        EraseRetryKeepsPlaces(w, from);
        DrainRetriesKeepsOriginals(EraseRetry(w, from), u, stuck, from);
      }
    }
  }

  lemma EraseKeepsOriginals(w: Worker, u: Owner, stuck: set<File>)
    requires OnePlace(w) && Originals(w)
    ensures Originals(Erase(w, u, stuck))
  {
    var marked := w.(erased := w.erased + {u});
    UnmovedKeepsPlaces(w, marked);
    SameOriginals(w, marked);
    DrainQueueKeepsOriginals(marked, u, stuck);
    DrainQueueKeepsPlaces(marked, u, stuck);
    if !QueueStuck(w, u, stuck) {
      DrainRetriesKeepsOriginals(DrainQueue(marked, u, stuck), u, stuck, 0);
    }
  }

  lemma FinishedKeepsOriginals(w: Worker, w': Worker, job: Job, how: Option<Exit>)
    requires OnePlace(w) && Originals(w) && w.inFlight == Some(Work(job)) && FinishesAs(w, w', job, how)
    ensures Originals(w')
  {
    assert Places(w, job) >= 1 && Open(w, job);
    if how.None? {
      SameOriginals(w, w');
    } else {
      LeavingKeepsOriginals(w, w', job, how.value);
    }
  }

  lemma FinishKeepsOriginals(w: Worker, outcome: Outcome, jammed: bool)
    requires OnePlace(w) && Originals(w)
    ensures Originals(Step(w, Finish(outcome, jammed)))
  {
    if w.inFlight.Some? && w.inFlight.value.Work? {
      var how := FinishHow(w, outcome, jammed);
      FinishedKeepsOriginals(w, Step(w, Finish(outcome, jammed)), w.inFlight.value.job, how);
    } else {
      SameOriginals(w, Step(w, Finish(outcome, jammed)));
    }
  }

  lemma StopKeepsOriginals(w: Worker)
    requires OnePlace(w) && Originals(w)
    ensures Originals(Step(w, Stop))
  {
    var w' := Step(w, Stop);
    forall d | d in w.accepted ensures OriginalIsWhereItShould(w', d) {
      assert OriginalIsWhereItShould(w, d);
      if d in AllDocs(w.retries) {
        var j :| j in w.retries && j.document == d;
        RetryDocIsOpen(w, j);
      }
    }
  }

  lemma RequeueKeepsOriginals(w: Worker, index: nat)
    requires OnePlace(w) && Originals(w) && index < |w.retries|
    ensures Originals(Put(w.(retries := w.retries[..index] + w.retries[index + 1..]), Work(w.retries[index])))
  {
    SameOriginals(w, Put(w.(retries := w.retries[..index] + w.retries[index + 1..]), Work(w.retries[index])));
  }

  lemma FiringKeepsOriginals(w: Worker, index: nat, admission: Admission, jammed: bool)
    requires OnePlace(w) && Originals(w) && index < |w.retries|
    ensures Originals(FireRetry(w, index, admission, jammed))
  {
    DropRetryKeepsOriginals(w, index, CancelledByStop);
    DropRetryKeepsOriginals(w, index, RetryAdmissionFailed);
    DropRetryKeepsOriginals(w, index, UnlinkFailed);
    RequeueKeepsOriginals(w, index);
  }

  lemma RetryKeepsOriginals(w: Worker, index: nat, admission: Admission, jammed: bool)
    requires OnePlace(w) && Originals(w)
    ensures Originals(Step(w, RetryFires(index, admission, jammed)))
  {
    if index < |w.retries| {
      FiringKeepsOriginals(w, index, admission, jammed);
    }
  }

  lemma EnqueueKeepsOriginals(w: Worker, job: Job, admission: Admission, jammed: bool)
    requires Originals(w) && Fresh(w, Enqueue(job, admission, jammed)) && w.exits.Keys <= w.accepted.Keys
    ensures Originals(Step(w, Enqueue(job, admission, jammed)))
  {
    if admission == Active && job.owner !in w.erased {
      AcceptingKeepsOriginals(w, job);
    } else {
      SameOriginals(w, Step(w, Enqueue(job, admission, jammed)));
    }
  }

  lemma AcceptingKeepsOriginals(w: Worker, job: Job)
    requires Originals(w) && Fresh(w, Enqueue(job, Active, false)) && w.exits.Keys <= w.accepted.Keys
    ensures Originals(Put(w, Work(job)).(accepted := w.accepted[job.document := job]))
  {
    var w' := Put(w, Work(job)).(accepted := w.accepted[job.document := job]);
    forall d | d in w'.accepted ensures OriginalIsWhereItShould(w', d) {
      assert d in w.accepted ==> OriginalIsWhereItShould(w, d);
    }
  }

  lemma RemovingKeepsOriginals(w: Worker, path: File)
    requires Originals(w)
    ensures Originals(Remove(w, path))
  {
    forall d | d in w.accepted ensures OriginalIsWhereItShould(Remove(w, path), d) {
      assert OriginalIsWhereItShould(w, d);
    }
  }

  lemma StepKeepsOriginals(w: Worker, ev: Event)
    requires OnePlace(w) && Originals(w) && Fresh(w, ev)
    ensures Originals(Step(w, ev))
  {
    match ev
    case Saved(_) => SameOriginals(w, Step(w, ev));
    case Start => SameOriginals(w, Step(w, ev));
    case Enqueue(job, admission, jammed) => EnqueueKeepsOriginals(w, job, admission, jammed);
    case EraseUser(u, stuck) => EraseKeepsOriginals(w, u, stuck * w.files);
    case Take => SameOriginals(w, Step(w, ev));
    case Finish(outcome, jammed) => FinishKeepsOriginals(w, outcome, jammed);
    case RetryFires(index, admission, jammed) => RetryKeepsOriginals(w, index, admission, jammed);
    case Stop => StopKeepsOriginals(w);
    case Compensate(doc) => if doc in w.accepted { RemovingKeepsOriginals(w, w.accepted[doc].path); }
    case RemovedOutside(path) => RemovingKeepsOriginals(w, path);
  }

  lemma FinishKeepsDrained(w: Worker, outcome: Outcome, jammed: bool)
    requires Drained(w)
    ensures Drained(Step(w, Finish(outcome, jammed)))
  {
    if w.inFlight.Some? && w.inFlight.value.Work? {
      var how := FinishHow(w, outcome, jammed);
    }
  }

  lemma RetryKeepsDrained(w: Worker, ev: Event)
    requires Drained(w) && ev.RetryFires?
    ensures Drained(Step(w, ev))
  {
  }

  lemma StepKeepsDrained(w: Worker, ev: Event)
    requires Drained(w)
    ensures Drained(Step(w, ev))
  {
    match ev
    case EraseUser(u, stuck) => EraseClears(w, u, stuck * w.files);
    case Finish(outcome, jammed) => FinishKeepsDrained(w, outcome, jammed);
    case RetryFires(_, _, _) => RetryKeepsDrained(w, ev);
    case _ =>
  }

  /** An erasure takes nothing up and ends no loop. */
  lemma EraseLeavesRest(w: Worker, u: Owner, stuck: set<File>)
    ensures var w' := Erase(w, u, stuck);
      && w'.inFlight == w.inFlight && w'.accepted == w.accepted && w'.erased == w.erased + {u}
      && w'.running == w.running && w'.crashed == w.crashed && w'.stopping == w.stopping
      && w.drained <= w'.drained <= w.drained + {u}
      && w'.lost == w.lost
           + if QueueStuck(w, u, stuck) then QueuedDocs(w.items[..FirstStuck(w.items, u, stuck)], u) else {}
  {
    if !QueueStuck(w, u, stuck) {
      DrainRetriesLeavesRest(DrainQueue(w.(erased := w.erased + {u}), u, stuck), u, stuck, 0);
    }
  }

  /** What is in flight was in flight before, or was queued; drained owners stay drained. */
  lemma StepTakesFromQueue(w: Worker, ev: Event)
    ensures var next := Step(w, ev).inFlight; next.Some? ==> next == w.inFlight || next.value in w.items
    ensures w.drained <= Step(w, ev).drained
  {
    match ev
    case EraseUser(u, stuck) => EraseLeavesRest(w, u, stuck * w.files);
    case Finish(outcome, jammed) =>
      if w.inFlight.Some? && w.inFlight.value.Work? {
        var how := FinishHow(w, outcome, jammed);
      }
    case _ =>
  }

  lemma StepKeepsInvariant(w: Worker, ev: Event)
    requires Invariant(w) && Fresh(w, ev)
    ensures Invariant(Step(w, ev))
  {
    StepKeepsPlaces(w, ev);
    StepKeepsAccounted(w, ev);
    StepKeepsOriginals(w, ev);
    StepKeepsDrained(w, ev);
  }

  // ---- whole runs -------------------------------------------------------------------------------

  function After(events: seq<Event>): Worker {
    if events == [] then IDLE else Step(After(events[..|events| - 1]), events[|events| - 1])
  }

  ghost predicate FreshRun(events: seq<Event>) {
    forall k :: 0 <= k < |events| ==> Fresh(After(events[..k]), events[k])
  }

  lemma AfterPrefix(events: seq<Event>, k: nat)
    requires 0 < k <= |events|
    ensures After(events[..k]) == Step(After(events[..k - 1]), events[k - 1])
  {
    assert events[..k][..k - 1] == events[..k - 1];
  }

  lemma FreshPrefix(events: seq<Event>, n: nat)
    requires FreshRun(events) && n <= |events|
    ensures FreshRun(events[..n])
  {
    forall k | 0 <= k < n ensures Fresh(After(events[..n][..k]), events[..n][k]) {
      assert events[..n][..k] == events[..k];
    }
  }

  lemma {:induction false} InvariantHolds(events: seq<Event>)
    requires FreshRun(events)
    ensures Invariant(After(events))
  {
    if events != [] {
      var last := |events| - 1;
      FreshPrefix(events, last);
      InvariantHolds(events[..last]);
      AfterPrefix(events, |events|);
      assert events[..|events|] == events && Fresh(After(events[..last]), events[last]);
      StepKeepsInvariant(After(events[..last]), events[last]);
    }
  }

  // ---- what takes an original away --------------------------------------------------------------

  /** The queued job's original is unlinked by an erasure that then fails and keeps the job queued. */
  predicate UnlinkedByStuckErasure(w: Worker, u: Owner, stuck: set<File>, d: DocId) {
    QueueStuck(w, u, stuck) && d in QueuedDocs(w.items[..FirstStuck(w.items, u, stuck)], u)
  }

  /** The event unlinks the accepted job's original without the worker letting go of the job. */
  predicate Removes(w: Worker, ev: Event, d: DocId) {
    match ev
    case Compensate(doc) => doc in w.accepted && d in w.accepted && w.accepted[d].path == w.accepted[doc].path
    case RemovedOutside(path) => d in w.accepted && w.accepted[d].path == path
    case EraseUser(u, stuck) => UnlinkedByStuckErasure(w, u, stuck * w.files, d)
    case _ => false
  }

  lemma StepLoses(w: Worker, ev: Event, d: DocId)
    ensures d in Step(w, ev).lost <==> d in w.lost || Removes(w, ev, d)
  {
    match ev
    case EraseUser(u, stuck) => EraseLeavesRest(w, u, stuck * w.files);
    case Finish(outcome, jammed) =>
      if w.inFlight.Some? && w.inFlight.value.Work? {
        var how := FinishHow(w, outcome, jammed);
      }
    case _ =>
  }

  /** Some event of the run's first n removed the original of the job, then accepted. */
  predicate RemovedBefore(events: seq<Event>, n: nat, d: DocId)
    requires n <= |events|
  {
    exists k :: 0 <= k < n && Removes(After(events[..k]), events[k], d)
  }

  lemma OneMoreRemoved(events: seq<Event>, n: nat, d: DocId)
    requires 0 < n <= |events|
    ensures RemovedBefore(events, n, d)
        <==> RemovedBefore(events, n - 1, d) || Removes(After(events[..n - 1]), events[n - 1], d)
  {
  }

  lemma {:induction false} LostIff(events: seq<Event>, n: nat, d: DocId)
    requires n <= |events|
    ensures d in After(events[..n]).lost <==> RemovedBefore(events, n, d)
  {
    if n > 0 {
      LostIff(events, n - 1, d);
      AfterPrefix(events, n);
      StepLoses(After(events[..n - 1]), events[n - 1], d);
      OneMoreRemoved(events, n, d);
    }
  }

  /** The exits that leave the original on disk. */
  predicate Abandoned(exit: Exit) {
    || exit.RetryAdmissionFailed? || exit.CancelledByStop? || exit.SuppressedByStop? || exit.StuckInErasure?
    || exit.UnlinkFailed?
  }

  lemma InvariantPlacesJob(w: Worker, d: DocId)
    requires Invariant(w) && d in w.accepted
    ensures Places(w, w.accepted[d]) == (if d in w.exits then 0 else 1)
    ensures w.accepted[d].path in w.files <==> (d in w.exits ==> Abandoned(w.exits[d])) && d !in w.lost
  {
    assert OriginalIsWhereItShould(w, d);
    assert Places(w, w.accepted[d]) == if Open(w, w.accepted[d]) then 1 else 0;
  }

  /**
   At every suspension point an accepted job is in exactly one of the queue, the active slot and
   the retry table, once, or has left by exactly one named exit; the counter never goes below zero
   and is zero only when nothing is queued or in flight. Its original is on disk exactly if the job is
   open or was abandoned, and neither the upload route, other hands nor an erasure that got stuck
   unlinked it since the job was accepted.
   */
  lemma JobsAreNeverLost(events: seq<Event>, d: DocId)
    requires FreshRun(events) && d in After(events).accepted
    ensures var w := After(events);
            var job := w.accepted[d];
      && Places(w, job) == (if d in w.exits then 0 else 1)
      && w.unfinished >= 0
      && (w.unfinished == 0 <==> w.items == [] && w.inFlight == None)
      && (job.path in w.files <==>
            (d in w.exits ==> Abandoned(w.exits[d])) && !RemovedBefore(events, |events|, d))
  {
    InvariantHolds(events);
    InvariantPlacesJob(After(events), d);
    LostIff(events, |events|, d);
    assert events[..|events|] == events;
  }

  /** `erase_user(u)` may return: its draining succeeded and the active job is not the owner's. */
  predicate EraseMayReturn(w: Worker, u: Owner) {
    u in w.drained && (w.inFlight.Some? ==> !Owned(w.inFlight.value, u))
  }

  /** None of the owner's jobs is queued, active or delayed. */
  predicate NoJobOf(w: Worker, u: Owner) {
    && (forall e :: e in w.items ==> !Owned(e, u))
    && (forall j :: j in w.retries ==> j.owner != u)
    && (w.inFlight.Some? ==> !Owned(w.inFlight.value, u))
  }

  /** Once nothing of a drained owner is in flight, nothing can be taken up again. */
  lemma StaysErased(w: Worker, ev: Event, u: Owner)
    requires Invariant(w) && EraseMayReturn(w, u)
    ensures NoJobOf(w, u) && EraseMayReturn(Step(w, ev), u)
  {
    StepTakesFromQueue(w, ev);
  }

  lemma InvariantAt(events: seq<Event>, n: nat)
    requires FreshRun(events) && n <= |events|
    ensures Invariant(After(events[..n]))
  {
    FreshPrefix(events, n);
    InvariantHolds(events[..n]);
  }

  lemma OneMoreStaysErased(events: seq<Event>, n: nat, u: Owner)
    requires FreshRun(events) && 0 < n <= |events| && EraseMayReturn(After(events[..n - 1]), u)
    ensures EraseMayReturn(After(events[..n]), u)
  {
    InvariantAt(events, n - 1);
    AfterPrefix(events, n);
    StaysErased(After(events[..n - 1]), events[n - 1], u);
  }

  lemma {:induction false} StaysErasedFrom(events: seq<Event>, m: nat, n: nat, u: Owner)
    requires FreshRun(events) && m <= n <= |events| && EraseMayReturn(After(events[..m]), u)
    ensures EraseMayReturn(After(events[..n]), u)
    decreases n
  {
    if m < n {
      StaysErasedFrom(events, m, n - 1, u);
      OneMoreStaysErased(events, n, u);
    }
  }

  /** After `erase_user` has returned normally, none of the owner's jobs is anywhere, ever again. */
  lemma ErasedOwnerHasNoJobs(events: seq<Event>, later: seq<Event>, u: Owner)
    requires FreshRun(events + later) && EraseMayReturn(After(events), u)
    ensures NoJobOf(After(events + later), u) && EraseMayReturn(After(events + later), u)
  {
    var all := events + later;
    assert all[..|events|] == events && all[..|all|] == all;
    StaysErasedFrom(all, |events|, |all|, u);
    InvariantAt(all, |all|);
    StaysErased(After(all), Stop, u);
  }
}
