/**
 One ingest job: `IngestPipeline.ingest` inside `IngestWorker._ingest_job`, and what becomes of
 the encrypted original on every way out.
 */
module IngestPipelines {
  import opened Common

  type File = nat

  /** How an awaited call ends. `CryptoDown` is PrivateDataUnavailable. */
  datatype Stage = Passed | OwnerGone | CryptoDown | Error | Cancelled

  /** The calls of one `ingest`, in order of use, and those of its two error handlers. */
  datatype Calls = Calls(
    admitStart: Stage, parse: Stage, admitParsed: Stage,
    chunk: Stage, chunks: nat,
    admitChunked: Stage, embed: Stage, embeddings: nat,
    admitEmbedded: Stage, store: Stage,
    admitOutage: Stage, markOutage: Stage,
    admitFailure: Stage, markFailure: Stage)

  /** What the document row says afterwards, if this job wrote it. */
  datatype Recorded = Unrecorded | RecordedReady | RecordedFailed | RecordedOutage

  datatype Raised = Nothing | RetryableIngestError | OwnerDataErased | OtherError | CancelledError

  /** What `ingest` meets in order: its calls, and the two tests on counts. */
  function InOrder(c: Calls): seq<Stage> {
    [c.admitStart, c.parse, c.admitParsed, c.chunk, if c.chunks == 0 then Error else Passed,
     c.admitChunked, c.embed, if c.embeddings != c.chunks then Error else Passed, c.admitEmbedded, c.store]
  }

  /** The first stage that did not pass, if one did not. */
  function FirstFailure(stages: seq<Stage>): (s: Stage)
    ensures s == Passed <==> forall k :: 0 <= k < |stages| ==> stages[k] == Passed
    ensures s != Passed ==>
      exists k :: 0 <= k < |stages| && stages[k] == s && forall j :: 0 <= j < k ==> stages[j] == Passed
  {
    if stages == [] then Passed
    else if stages[|stages| - 1] == Passed then FirstFailure(stages[..|stages| - 1])
    else
      var before := FirstFailure(stages[..|stages| - 1]);
      if before != Passed then before else stages[|stages| - 1]
  }

  /** How the body of `ingest` ends, before its handlers. */
  function Body(c: Calls): Stage {
    FirstFailure(InOrder(c))
  }

  lemma FailsFirstAt(c: Calls, k: nat)
    requires k < 10 && InOrder(c)[k] != Passed && forall j :: 0 <= j < k ==> InOrder(c)[j] == Passed
    ensures Body(c) == InOrder(c)[k]
  {
  }

  /** Admitted and parsed, with the owner still active; chunked as well; embedded as well. */
  predicate Parsed(c: Calls) {
    c.admitStart == c.parse == c.admitParsed == Passed
  }

  predicate Chunked(c: Calls) {
    Parsed(c) && c.chunk == Passed && c.chunks > 0
  }

  predicate Embedded(c: Calls) {
    Chunked(c) && c.admitChunked == c.embed == Passed && c.embeddings == c.chunks
  }

  /** Nothing went wrong, and the counts agree. */
  predicate Complete(c: Calls) {
    && c.admitStart == c.admitParsed == c.admitChunked == c.admitEmbedded == Passed
    && c.parse == c.chunk == c.embed == c.store == Passed
    && c.chunks > 0 && c.embeddings == c.chunks
  }

  /** First the handler's admission check, then its write. */
  function Handled(admit: Stage, mark: Stage): Stage {
    if admit != Passed then admit else mark
  }

  /** The owner was found erased at some check this job reached. */
  predicate FoundErased(c: Calls) {
    || Body(c) == OwnerGone
    || (Body(c) == CryptoDown && Handled(c.admitOutage, c.markOutage) == OwnerGone)
    || (Body(c) == Error && Handled(c.admitFailure, c.markFailure) == OwnerGone)
  }

  /** Cancellation reached this job at some await. */
  predicate WasCancelled(c: Calls) {
    || Body(c) == Cancelled
    || CancelledInOutage(c)
    || (Body(c) == Error && Handled(c.admitFailure, c.markFailure) == Cancelled)
  }

  /** Cancellation while the encryption outage was being recorded. */
  predicate CancelledInOutage(c: Calls) {
    Body(c) == CryptoDown && Handled(c.admitOutage, c.markOutage) == Cancelled
  }

  /** An encryption outage of a living owner, or a failure that could not be recorded. */
  predicate EndsRetryable(c: Calls) {
    || (Body(c) == CryptoDown && Handled(c.admitOutage, c.markOutage) !in {OwnerGone, Cancelled})
    || (Body(c) == Error && Handled(c.admitFailure, c.markFailure) in {CryptoDown, Error})
  }

  /** What `_ingest_job` raises: first the owner's lock and the worker's own admission check. */
  function RaisedBy(lock: Stage, admit: Stage, c: Calls): Raised {
    match Handled(lock, admit)
    case OwnerGone => OwnerDataErased
    case Cancelled => CancelledError
    case Passed =>
      if WasCancelled(c) then CancelledError else if EndsRetryable(c) then RetryableIngestError else Nothing
    case _ => OtherError
  }

  class Ingestion {
    var files: set<File>
    var recorded: Recorded

    constructor (files: set<File>)
      ensures this.files == files && recorded == Unrecorded
    {
      this.files := files;
      recorded := Unrecorded;
    }

    /** `path.unlink(missing_ok=True)`. */
    method Unlink(path: File)
      modifies this`files
      ensures files == old(files) - {path}
    {
      files := files - {path};
    }

    /** The body of `ingest`: every stage admitted, the store written last. */
    method RunStages(c: Calls) returns (s: Stage)
      modifies this`recorded
      ensures s == Passed <==> Complete(c)
      ensures s == Body(c)
      ensures c.admitStart != Passed ==> s == c.admitStart
      ensures c.admitStart == Passed != c.parse ==> s == c.parse
      ensures c.admitStart == c.parse == Passed != c.admitParsed ==> s == c.admitParsed
      ensures Parsed(c) && c.chunk != Passed ==> s == c.chunk
      ensures Parsed(c) && c.chunk == Passed && c.chunks == 0 ==> s == Error
      ensures Chunked(c) && c.admitChunked != Passed ==> s == c.admitChunked
      ensures Chunked(c) && c.admitChunked == Passed != c.embed ==> s == c.embed
      ensures Chunked(c) && c.admitChunked == c.embed == Passed && c.embeddings != c.chunks ==> s == Error
      ensures Embedded(c) && c.admitEmbedded != Passed ==> s == c.admitEmbedded
      ensures Embedded(c) && c.admitEmbedded == Passed ==> s == c.store
      ensures recorded == if Complete(c) then RecordedReady else old(recorded)
    {
      if c.admitStart != Passed {
        FailsFirstAt(c, 0);
        return c.admitStart;
      }
      if c.parse != Passed {
        FailsFirstAt(c, 1);
        return c.parse;
      }
      if c.admitParsed != Passed {
        FailsFirstAt(c, 2);
        return c.admitParsed;
      }
      if c.chunk != Passed {
        FailsFirstAt(c, 3);
        return c.chunk;
      }
      if c.chunks == 0 {
        FailsFirstAt(c, 4);
        return Error;
      }
      if c.admitChunked != Passed {
        FailsFirstAt(c, 5);
        return c.admitChunked;
      }
      if c.embed != Passed {
        FailsFirstAt(c, 6);
        return c.embed;
      }
      if c.embeddings != c.chunks {
        FailsFirstAt(c, 7);
        return Error;
      }
      if c.admitEmbedded != Passed {
        FailsFirstAt(c, 8);
        return c.admitEmbedded;
      }
      if c.store != Passed {
        FailsFirstAt(c, 9);
        return c.store;
      }
      recorded := RecordedReady;
      return Passed;
    }

    /**
     `ingest`. The original stays exactly when the retryable error is raised, or when cancellation
     hits while an encryption outage is being recorded. It is removed only after ready or failed
     was persisted, or because the owner was erased or the job cancelled.
     */
    method Ingest(path: File, c: Calls) returns (raised: Raised)
      modifies this
      ensures forall f :: f != path ==> (f in files <==> f in old(files))
      ensures path in files <==> path in old(files) && (raised == RetryableIngestError || CancelledInOutage(c))
      ensures path in old(files) && path !in files ==>
        recorded == RecordedReady || recorded == RecordedFailed || FoundErased(c) || WasCancelled(c)
      ensures raised == RetryableIngestError <==> EndsRetryable(c)
      ensures raised == CancelledError <==> WasCancelled(c)
      ensures raised == RetryableIngestError <==>
        || (Body(c) == CryptoDown
            && c.admitOutage in {Passed, CryptoDown, Error}
            && (c.admitOutage == Passed ==> c.markOutage in {Passed, CryptoDown, Error}))
        || (Body(c) == Error
            && (c.admitFailure in {CryptoDown, Error}
                || (c.admitFailure == Passed && c.markFailure in {CryptoDown, Error})))
      ensures raised == CancelledError <==>
        || Body(c) == Cancelled
        || (Body(c) == CryptoDown
            && (c.admitOutage == Cancelled || (c.admitOutage == Passed && c.markOutage == Cancelled)))
        || (Body(c) == Error
            && (c.admitFailure == Cancelled || (c.admitFailure == Passed && c.markFailure == Cancelled)))
      ensures raised in {Nothing, RetryableIngestError, CancelledError}
      ensures recorded == RecordedReady <==> Complete(c)
      ensures recorded == RecordedFailed <==> Body(c) == Error && Handled(c.admitFailure, c.markFailure) == Passed
      ensures recorded == RecordedOutage <==> Body(c) == CryptoDown && Handled(c.admitOutage, c.markOutage) == Passed
    {
      var preserve := false;
      raised := Nothing;
      recorded := Unrecorded;
      var s := RunStages(c);
      match s {
        case Passed =>
        case OwnerGone =>
        case CryptoDown =>
          preserve := true;
          var h := Handled(c.admitOutage, c.markOutage);
          if h == OwnerGone {
            preserve := false;
          } else if h == Cancelled {
            raised := CancelledError;
          } else {
            if h == Passed {
              recorded := RecordedOutage;
            }
            raised := RetryableIngestError;
          }
        case Error =>
          var h := Handled(c.admitFailure, c.markFailure);
          if h == Passed {
            recorded := RecordedFailed;
          } else if h == Cancelled {
            raised := CancelledError;
          } else if h != OwnerGone {
            preserve := true;
            raised := RetryableIngestError;
          }
        case Cancelled =>
          raised := CancelledError;
      }
      if !preserve {
        Unlink(path);
      }
    }

    /**
     `_ingest_job`: the job under the owner's shared lock. The original stays exactly when the
     retryable error comes out. It goes without a persisted outcome, an erasure or a cancellation
     exactly when taking the lock, or the worker's own admission check, raises some other error.
     */
    method IngestJob(path: File, lock: Stage, admit: Stage, c: Calls) returns (raised: Raised)
      modifies this
      ensures forall f :: f != path ==> (f in files <==> f in old(files))
      ensures path in files <==> path in old(files) && raised == RetryableIngestError
      ensures path in old(files) ==>
        (path !in files && recorded != RecordedReady && recorded != RecordedFailed
         && raised != OwnerDataErased && raised != CancelledError && !(raised == Nothing && FoundErased(c))
         <==> raised == OtherError)
      ensures raised == RaisedBy(lock, admit, c)
      ensures raised == OtherError <==>
        lock in {Error, CryptoDown} || (lock == Passed && admit in {Error, CryptoDown})
      ensures raised == OwnerDataErased <==> lock == OwnerGone || (lock == Passed && admit == OwnerGone)
      ensures raised == OtherError <==> Handled(lock, admit) in {Error, CryptoDown}
      ensures raised == OwnerDataErased <==> Handled(lock, admit) == OwnerGone
      ensures raised == CancelledError <==>
        Handled(lock, admit) == Cancelled || (Handled(lock, admit) == Passed && WasCancelled(c))
      ensures recorded == RecordedReady <==> Handled(lock, admit) == Passed && Complete(c)
      ensures raised == RetryableIngestError <==> Handled(lock, admit) == Passed && EndsRetryable(c)
    {
      var preserve := false;
      recorded := Unrecorded;
      match Handled(lock, admit) {
        case Passed =>
          raised := Ingest(path, c);
          if raised == RetryableIngestError {
            preserve := true;
          }
        case OwnerGone => raised := OwnerDataErased;
        case Cancelled => raised := CancelledError;
        case _ => raised := OtherError;
      }
      if !preserve {
        Unlink(path);
      }
    }
  }

  /**
   A failing admission check of the worker itself loses the original with nothing recorded: the
   same failure one step later, inside `ingest`, would have kept it or recorded the failure.
   */
  method WorkerAdmissionErrorLosesOriginal(path: File) returns (lost: bool, kept: bool)
    ensures lost && kept
  {
    var down := Calls(Error, Passed, Passed, Passed, 1, Passed, Passed, 1, Passed, Passed,
                      Error, Passed, Error, Passed);
    FailsFirstAt(down, 0);
    var first := new Ingestion({path});
    var raised := first.IngestJob(path, Passed, Error, down);
    lost := path !in first.files && raised == OtherError;
    var second := new Ingestion({path});
    raised := second.IngestJob(path, Passed, Passed, down);
    kept := path in second.files && raised == RetryableIngestError;
  }
}
