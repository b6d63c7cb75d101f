/** The erasure service: the order of its effects, and what each way of failing leaves behind. */
module AccountErasure {
  import opened Common
  import opened StagingDisk
  import opened UploadStorage

  datatype Failure = FenceFailed | LegacyCleanupRequired | DrainFailed | CleanupFailed | EraseFailed

  /** Whether the calls outside the storage succeed. */
  datatype Calls = Calls(fence: bool, legacyEmpty: bool, webpageDrain: bool, ingestDrain: bool, eraseRows: bool)

  class AccountErasureService {
    /** The database: committed fences, and every row's owner. */
    var fenced: set<Owner>
    var rows: map<nat, Owner>
    const storage: LocalUploadStorage

    constructor (storage: LocalUploadStorage)
      ensures this.storage == storage && fenced == {} && rows == map[]
    {
      this.storage := storage;
      fenced := {};
      rows := map[];
    }

    /**
     `erase`. A normal return means that the owner is fenced, no row of theirs is left, and their
     directory is gone from the running file system and from what a crash would restore. Any
     failure keeps every row, so the request can be repeated, and once the fence has committed
     the owner stays blocked. Other owners' rows are never touched. Which call fails decides the answer;
     `cleanup` is how the storage answered, if it got that far.
     */
    method Erase(u: Owner, calls: Calls) returns (r: Result<bool, Failure>, cleanup: Option<Outcome>)
      requires Functional(storage.disk.vol)
      modifies this, storage
      ensures r.Ok? <==>
        && calls.fence && calls.legacyEmpty && calls.webpageDrain && calls.ingestDrain && calls.eraseRows
        && cleanup == Some(Done)
      ensures r == Err(FenceFailed) <==> !calls.fence
      ensures r == Err(LegacyCleanupRequired) <==> calls.fence && !calls.legacyEmpty
      ensures r == Err(DrainFailed) <==>
        calls.fence && calls.legacyEmpty && !(calls.webpageDrain && calls.ingestDrain)
      ensures cleanup.Some? <==> calls.fence && calls.legacyEmpty && calls.webpageDrain && calls.ingestDrain
      ensures r == Err(CleanupFailed) <==> cleanup == Some(Raised)
      ensures r == Err(EraseFailed) <==> cleanup == Some(Done) && !calls.eraseRows
      ensures cleanup == Some(Raised) ==>
        storage.failures > old(storage.failures) || !Regular(old(storage.disk).vol, u)
      ensures r.Ok? ==> r.value
      ensures r.Ok? ==>
        && fenced == old(fenced) + {u}
        && rows == (map i | i in old(rows) && old(rows)[i] != u :: old(rows)[i])
        && NoOwnerDirectory(storage.disk.vol, u) && NoOwnerDirectory(storage.disk.dur, u)
      ensures r.Err? ==> rows == old(rows)
      ensures r == Err(FenceFailed) ==> fenced == old(fenced) && storage.disk == old(storage.disk)
      ensures r.Err? && r.error != FenceFailed ==> fenced == old(fenced) + {u}
      ensures r == Err(LegacyCleanupRequired) || r == Err(DrainFailed) ==> storage.disk == old(storage.disk)
      ensures r == Err(EraseFailed) ==>
        NoOwnerDirectory(storage.disk.vol, u) && NoOwnerDirectory(storage.disk.dur, u)
      ensures forall e :: e in old(storage.disk.vol) && !InOwnerTree(e, u) ==> e in storage.disk.vol
    {
      cleanup := None;
      if !calls.fence {
        return Err(FenceFailed), cleanup;
      }
      fenced := fenced + {u};
      if !calls.legacyEmpty {
        return Err(LegacyCleanupRequired), cleanup;
      }
      if !calls.webpageDrain || !calls.ingestDrain {
        return Err(DrainFailed), cleanup;
      }
      var outcome := storage.EraseOwner(u);
      cleanup := Some(outcome);
      forall e | e in old(storage.disk.vol) && !InOwnerTree(e, u) ensures e in storage.disk.vol {
        OthersAreSpared(storage.path, Erasing(u), |storage.path.ops|, e);
      }
      if outcome == Raised {
        return Err(CleanupFailed), cleanup;
      }
      if !calls.eraseRows {
        return Err(EraseFailed), cleanup;
      }
      rows := map i | i in rows && rows[i] != u :: rows[i];
      return Ok(true), cleanup;
    }
  }
}
