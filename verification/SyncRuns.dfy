/** What every run of webpage transactions keeps, whatever their order and interleaving. */
module SyncRuns {
  import opened Common
  import opened SyncModel

  type Run = seq<Op>

  /** The database after the first `n` transactions. */
  function StateAt(run: Run, n: nat): Db
    requires n <= |run|
  {
    if n == 0 then EMPTY_DB else Step(StateAt(run, n - 1), run[n - 1])
  }

  /** uuid4 never repeats a claim token within a run. */
  ghost predicate FreshTokens(run: Run) {
    forall i, j :: 0 <= i < j < |run| && run[i].Claim? && run[j].Claim? ==> run[i].token != run[j].token
  }

  // ---- the reachable rows ----------------------------------------------------------------

  /** Claim columns and the 24-hour schedule. */
  predicate WellScheduled(p: Page) {
    && (p.sync == Running <==> p.claimToken.Some?)
    && (p.sync == Running <==> p.claimedAt.Some?)
    && (!p.autoSync ==> p.nextSyncAt.None?)
    && (p.sync == Queued ==> p.reason != Automatic)
    && (p.autoSync && (p.sync == Idle || p.sync == Failed) ==> p.nextSyncAt.Some?)
    && (p.nextSyncAt.Some? && p.lastCheckedAt.Some? ==>
          p.nextSyncAt.value == p.lastCheckedAt.value + SYNC_INTERVAL)
    && (p.syncError.Some? <==> p.sync == Failed)
    && (p.lastSyncChanged.Some? ==> p.sync == Idle && p.lastCheckedAt == p.lastSyncedAt)
    && (p.sync == Failed ==> p.lastCheckedAt.Some?)
  }

  /** The published columns appear together or not at all. */
  predicate WellPublished(p: Page) {
    && (p.status == Ready <==> p.contentHash.Some?)
    && (p.chunks != [] <==> p.contentHash.Some?)
    && (p.content != "" <==> p.contentHash.Some?)
    && (p.lastSyncedAt.Some? <==> p.contentHash.Some?)
    && (p.status == Broken <==> p.error.Some?)
  }

  ghost predicate WellFormedPage(p: Page) {
    && WellScheduled(p)
    && WellPublished(p)
    && 1 <= |p.urls| <= MAX_URLS && NoDuplicates(p.urls)
  }

  ghost predicate UniqueKeys(db: Db) {
    forall d, e :: d in db.pages && e in db.pages && d != e && db.pages[d].owner == db.pages[e].owner ==>
      db.pages[d].key != db.pages[e].key
  }

  ghost predicate WellFormed(db: Db) {
    (forall d :: d in db.pages ==> WellFormedPage(db.pages[d])) && UniqueKeys(db)
  }

  lemma ClaimedKeeps(p: Page, token: Token, now: Time)
    requires WellFormedPage(p) && Due(p, now)
    ensures WellFormedPage(Claimed(p, token, now))
  {
  }

  lemma CompletedKeeps(p: Page, op: Op)
    requires WellFormedPage(p) && p.sync == Running
    requires op.Finish? && Publishable(p, op)
    ensures WellFormedPage(Completed(p, op))
  {
  }

  lemma RefusedKeeps(p: Page, message: string, now: Time)
    requires WellFormedPage(p) && p.sync == Running
    ensures WellFormedPage(Refused(p, message, now))
  {
  }

  lemma RequeuedAndToggledKeep(p: Page, autoSync: bool, now: Time)
    requires WellFormedPage(p)
    ensures p.sync != Running ==> WellFormedPage(Requeued(p, now))
    ensures WellFormedPage(Toggled(p, autoSync, now))
  {
  }

  /** The document a transaction may write, if it writes one. */
  function Target(op: Op): Option<DocId> {
    match op
    case Finish(c, _, _, _, _, _) => Some(c.id)
    case Fail(c, _, _) => Some(c.id)
    case Fence(_) => None
    case EraseRows(_) => None
    case _ => Some(op.id)
  }

  /** Rows other than the target are kept, or erased with their owner; no row changes hands. */
  lemma StepFrame(db: Db, op: Op, d: DocId)
    ensures d in Step(db, op).pages && Target(op) != Some(d) ==>
      d in db.pages && Step(db, op).pages[d] == db.pages[d]
    ensures d in Step(db, op).pages && d in db.pages ==>
      && Step(db, op).pages[d].owner == db.pages[d].owner
      && Step(db, op).pages[d].key == db.pages[d].key
    ensures d in Step(db, op).pages && d !in db.pages ==>
      op.Create? && op.id == d && Commits(db, op)
    ensures db.erased <= Step(db, op).erased
  {
  }

  lemma StepKeepsRow(db: Db, op: Op, d: DocId)
    requires d in db.pages ==> WellFormedPage(db.pages[d])
    requires d in Step(db, op).pages
    ensures WellFormedPage(Step(db, op).pages[d])
  {
    StepFrame(db, op, d);
    if Commits(db, op) && Target(op) == Some(d) {
      match op
      case Create(_, _, _, _, _, _) =>
      case Enqueue(_, _, now) => RequeuedAndToggledKeep(db.pages[d], true, now);
      case SetAutoSync(_, _, autoSync, now) => RequeuedAndToggledKeep(db.pages[d], autoSync, now);
      case Claim(_, _, token, now) => ClaimedKeeps(db.pages[d], token, now);
      case Finish(_, _, _, _, _, _) => CompletedKeeps(db.pages[d], op);
      case Fail(_, message, now) => RefusedKeeps(db.pages[d], Clip(message), now);
      case Delete(_, _) =>
    }
  }

  lemma StepKeepsUniqueKeys(db: Db, op: Op)
    requires UniqueKeys(db)
    ensures UniqueKeys(Step(db, op))
  {
    var next := Step(db, op);
    forall d, e | d in next.pages && e in next.pages && d != e && next.pages[d].owner == next.pages[e].owner
      ensures next.pages[d].key != next.pages[e].key
    {
      StepFrame(db, op, d);
      StepFrame(db, op, e);
    }
  }

  lemma StepKeepsWellFormed(db: Db, op: Op)
    requires WellFormed(db)
    ensures WellFormed(Step(db, op))
  {
    forall d | d in Step(db, op).pages ensures WellFormedPage(Step(db, op).pages[d]) {
      StepKeepsRow(db, op, d);
    }
    StepKeepsUniqueKeys(db, op);
  }

  /** Every row of every reachable state is well formed, and keys stay unique per owner. */
  lemma {:induction false} ReachableIsWellFormed(run: Run, n: nat)
    requires n <= |run|
    ensures WellFormed(StateAt(run, n))
  {
    if n > 0 {
      ReachableIsWellFormed(run, n - 1);
      StepKeepsWellFormed(StateAt(run, n - 1), run[n - 1]);
    }
  }

  // ---- claims and completions over whole runs -------------------------------------------

  /** Transaction `i` claims document `d`. */
  predicate ClaimsAt(run: Run, i: nat, d: DocId)
    requires i < |run|
  {
    run[i].Claim? && run[i].id == d && Commits(StateAt(run, i), run[i])
  }

  /** Transaction `i` is an accepted completion of document `d`. */
  predicate CompletesAt(run: Run, i: nat, d: DocId)
    requires i < |run|
  {
    (run[i].Finish? || run[i].Fail?) && run[i].claim.id == d && Commits(StateAt(run, i), run[i])
  }

  /** Transaction `i` removes document `d`. */
  predicate RemovesAt(run: Run, i: nat, d: DocId)
    requires i < |run|
  {
    d in StateAt(run, i).pages && d !in StateAt(run, i + 1).pages
  }

  /** The last claim on `d` among the first `n` transactions, or -1. */
  function LastClaim(run: Run, n: nat, d: DocId): (i: int)
    requires n <= |run|
    ensures -1 <= i < n
    ensures i >= 0 ==> ClaimsAt(run, i, d)
    ensures forall k :: i < k < n ==> !ClaimsAt(run, k, d)
  {
    if n == 0 then -1 else if ClaimsAt(run, n - 1, d) then n - 1 else LastClaim(run, n - 1, d)
  }

  /** The claim record transaction `i` returned. */
  function IssuedAt(run: Run, i: nat, d: DocId): WebpageClaim
    requires i < |run| && ClaimsAt(run, i, d)
  {
    ClaimOf(StateAt(run, i), run[i])
  }

  /** The row still carries everything the claim record says. */
  predicate Agrees(p: Page, c: WebpageClaim) {
    && p.owner == c.owner && p.claimToken == Some(c.token)
    && p.urls == c.urls && p.contentHash == c.contentHash && p.reason == c.reason
  }

  /** The columns a claim record captures. */
  predicate SameClaim(p: Page, q: Page) {
    && p.owner == q.owner && p.claimToken == q.claimToken && p.claimedAt == q.claimedAt
    && p.urls == q.urls && p.contentHash == q.contentHash && p.reason == q.reason
  }

  /** Unless it claims, a transaction that leaves a token on a row leaves the captured columns. */
  lemma UnclaimedStepKeepsClaim(run: Run, n: nat, d: DocId)
    requires n < |run| && d in StateAt(run, n + 1).pages
    requires StateAt(run, n + 1).pages[d].claimToken.Some? && !ClaimsAt(run, n, d)
    ensures d in StateAt(run, n).pages
    ensures SameClaim(StateAt(run, n).pages[d], StateAt(run, n + 1).pages[d])
    ensures !CompletesAt(run, n, d)
  {
    ReachableIsWellFormed(run, n);
    StepFrame(StateAt(run, n), run[n], d);
    assert d in StateAt(run, n).pages ==> WellFormedPage(StateAt(run, n).pages[d]);
  }

  /**
   A row that carries a token got it from the last claim on it, has not completed since, and
   agrees with the record that claim returned.
   */
  lemma {:induction false} ClaimedRowTracesBack(run: Run, n: nat, d: DocId)
    requires n <= |run| && d in StateAt(run, n).pages
    requires StateAt(run, n).pages[d].claimToken.Some?
    ensures LastClaim(run, n, d) >= 0
    ensures var i := LastClaim(run, n, d);
      && Agrees(StateAt(run, n).pages[d], IssuedAt(run, i, d))
      && StateAt(run, n).pages[d].claimedAt == Some(run[i].now)
      && (forall k :: i < k < n ==> !CompletesAt(run, k, d) && !RemovesAt(run, k, d))
  {
    if !ClaimsAt(run, n - 1, d) {
      UnclaimedStepKeepsClaim(run, n - 1, d);
      ClaimedRowTracesBack(run, n - 1, d);
    }
  }

  /**
   An accepted completion carries the token of the last claim on its document, nothing has
   claimed, completed or removed that document in between, and the row still agrees with the
   record that claim returned.
   */
  lemma AcceptedCompletionFollowsItsClaim(run: Run, j: nat, d: DocId)
    requires j < |run| && CompletesAt(run, j, d)
    ensures var i := LastClaim(run, j, d);
      && 0 <= i && run[i].token == run[j].claim.token
      && Agrees(StateAt(run, j).pages[d], IssuedAt(run, i, d))
      && (forall k :: i < k < j ==>
            !ClaimsAt(run, k, d) && !CompletesAt(run, k, d) && !RemovesAt(run, k, d))
  {
    ClaimedRowTracesBack(run, j, d);
  }

  /** No token completes twice, on one document or on two. */
  lemma TokenCompletesOnce(run: Run, j: nat, k: nat, d: DocId, e: DocId)
    requires FreshTokens(run) && j < k < |run|
    requires CompletesAt(run, j, d) && CompletesAt(run, k, e)
    ensures run[j].claim.token != run[k].claim.token
  {
    AcceptedCompletionFollowsItsClaim(run, j, d);
    AcceptedCompletionFollowsItsClaim(run, k, e);
  }

  /** Once a document is claimed again, a completion by the older claim is refused for good. */
  lemma SupersededClaimIsFenced(run: Run, i: nat, k: nat, j: nat, d: DocId)
    requires FreshTokens(run) && i < k < j < |run|
    requires ClaimsAt(run, i, d) && ClaimsAt(run, k, d)
    requires (run[j].Finish? || run[j].Fail?) && run[j].claim.token == run[i].token
    requires run[j].claim.id == d
    ensures !CompletesAt(run, j, d) && StateAt(run, j + 1) == StateAt(run, j)
  {
    if CompletesAt(run, j, d) {
      AcceptedCompletionFollowsItsClaim(run, j, d);
      assert false;
    }
  }

  /** A running claim is only overtaken after its lease: a second claim comes strictly later. */
  lemma ClaimOvertakesOnlyAfterLease(run: Run, j: nat, d: DocId)
    requires j < |run| && ClaimsAt(run, j, d) && StateAt(run, j).pages[d].sync == Running
    ensures var i := LastClaim(run, j, d); i >= 0 && run[j].now > run[i].now + CLAIM_LEASE
  {
    ReachableIsWellFormed(run, j);
    assert WellFormedPage(StateAt(run, j).pages[d]);
    ClaimedRowTracesBack(run, j, d);
  }

  /** What can end a claim before its lease does: its own completion, or the owner's doing. */
  predicate Ends(op: Op, c: WebpageClaim) {
    match op
    case SetAutoSync(id, _, autoSync, _) => id == c.id && !autoSync && c.reason == Automatic
    case Delete(id, _) => id == c.id
    case Fence(owner) => owner == c.owner
    case EraseRows(owner) => owner == c.owner
    case Finish(done, _, _, _, _, _) => done.id == c.id && done.token == c.token
    case Fail(done, _, _) => done.id == c.id && done.token == c.token
    case _ => false
  }

  /** Ten minutes, strictly inside the fifteen of the lease. */
  const JOB_TIMEOUT: Time := 600 * 1_000_000

  /**
   Until a worker's ten minutes are over, its claim stays current, whatever other claims,
   requests, completions and toggles are tried, unless one of the endings above happens.
   */
  lemma {:induction false} ClaimLastsThroughItsJob(run: Run, i: nat, n: nat, d: DocId)
    requires i < n <= |run| && ClaimsAt(run, i, d)
    requires forall k :: i < k < n ==> !Ends(run[k], IssuedAt(run, i, d))
    requires forall k :: i < k < n && run[k].Claim? ==> run[k].now <= run[i].now + JOB_TIMEOUT
    ensures IsCurrent(StateAt(run, n), IssuedAt(run, i, d))
    ensures Agrees(StateAt(run, n).pages[d], IssuedAt(run, i, d))
    ensures StateAt(run, n).pages[d].claimedAt == Some(run[i].now)
  {
    if n > i + 1 {
      ClaimLastsThroughItsJob(run, i, n - 1, d);
      StepFrame(StateAt(run, n - 1), run[n - 1], d);
    }
  }

  // ---- an accepted manual request is never lost -------------------------------------------

  predicate RequestsAt(run: Run, i: nat, d: DocId)
    requires i < |run|
  {
    run[i].Enqueue? && run[i].id == d && Commits(StateAt(run, i), run[i])
  }

  /** Queued, or running under a claim issued after transaction `i`; the reason is still manual. */
  predicate StillManual(run: Run, i: nat, n: nat, d: DocId)
    requires i < n <= |run|
  {
    && d in StateAt(run, n).pages
    && var p := StateAt(run, n).pages[d];
       && p.reason == Manual
       && (p.sync == Queued || (p.sync == Running && LastClaim(run, n, d) > i))
  }

  /** A completion after transaction `i`, by a claim that was itself issued after `i`. */
  predicate Serves(run: Run, i: nat, j: nat, d: DocId)
    requires i < j < |run|
  {
    CompletesAt(run, j, d) && LastClaim(run, j, d) > i
  }

  lemma ManualStep(run: Run, i: nat, n: nat, d: DocId)
    requires i < n < |run| && StillManual(run, i, n, d)
    ensures StillManual(run, i, n + 1, d) || RemovesAt(run, n, d) || Serves(run, i, n, d)
  {
    var db := StateAt(run, n);
    var op := run[n];
    StepFrame(db, op, d);
    ReachableIsWellFormed(run, n);
    assert WellFormedPage(db.pages[d]);
    if d in Step(db, op).pages && Target(op) == Some(d) && Commits(db, op) {
      assert LastClaim(run, n + 1, d) >= LastClaim(run, n, d);
      match op
      case Create(_, _, _, _, _, _) =>
      case Enqueue(_, _, _) =>
      case SetAutoSync(_, _, _, _) =>
      case Claim(_, _, _, _) => assert ClaimsAt(run, n, d);
      case Finish(_, _, _, _, _, _) => assert CompletesAt(run, n, d);
      case Fail(_, _, _) => assert CompletesAt(run, n, d);
      case Delete(_, _) =>
    } else if d in Step(db, op).pages {
      assert Step(db, op).pages[d] == db.pages[d];
      assert LastClaim(run, n + 1, d) >= LastClaim(run, n, d);
    }
  }

  /**
   An accepted manual request stays queued or running until a claim issued after it completes,
   or its row is removed, whatever toggles, claims and failures come between.
   */
  lemma {:induction false} ManualRequestPersists(run: Run, i: nat, n: nat, d: DocId)
    requires i < n <= |run| && RequestsAt(run, i, d)
    ensures
      || StillManual(run, i, n, d)
      || (exists j :: i < j < n && RemovesAt(run, j, d))
      || (exists j :: i < j < n && Serves(run, i, j, d))
  {
    if n > i + 1 {
      ManualRequestPersists(run, i, n - 1, d);
      if StillManual(run, i, n - 1, d) {
        ManualStep(run, i, n - 1, d);
      }
    }
  }

  // ---- a published snapshot comes from one completion -------------------------------------

  /** Transaction `i` replaces the published snapshot of `d`. */
  predicate PublishesAt(run: Run, i: nat, d: DocId)
    requires i < |run|
  {
    && run[i].Finish? && CompletesAt(run, i, d)
    && StateAt(run, i).pages[d].contentHash != Some(run[i].contentHash)
  }

  function LastPublication(run: Run, n: nat, d: DocId): (i: int)
    requires n <= |run|
    ensures -1 <= i < n
    ensures i >= 0 ==> PublishesAt(run, i, d)
  {
    if n == 0 then -1
    else if d !in StateAt(run, n).pages then -1
    else if PublishesAt(run, n - 1, d) then n - 1
    else LastPublication(run, n - 1, d)
  }

  /** The four published columns are exactly what the completion `op` carried. */
  predicate Carries(p: Page, op: Op)
    requires op.Finish?
  {
    && p.content == op.content && p.contentHash == Some(op.contentHash)
    && op.chunks.Some? && op.embeddings.Some?
    && |p.chunks| == |op.chunks.value| == |op.embeddings.value|
    && forall c :: 0 <= c < |p.chunks| ==>
         p.chunks[c].chunk == op.chunks.value[c] && p.chunks[c].embedding == op.embeddings.value[c]
  }

  /**
   Content, hash, chunks and embeddings of every reachable row all come from one completion;
   a row without one is empty.
   */
  lemma {:induction false} SnapshotIsCoherent(run: Run, n: nat, d: DocId)
    requires n <= |run| && d in StateAt(run, n).pages
    ensures var i := LastPublication(run, n, d);
            var p := StateAt(run, n).pages[d];
      if i < 0 then p.contentHash == None && p.content == "" && p.chunks == []
      else Carries(p, run[i])
  {
    var db := StateAt(run, n - 1);
    StepFrame(db, run[n - 1], d);
    if d in db.pages {
      SnapshotIsCoherent(run, n - 1, d);
    }
  }

  /** The completion brings every chunk with the embedding of its own text. */
  ghost predicate Fits(op: Op, embed: string -> Vector)
    requires op.Finish?
  {
    op.chunks.Some? && op.embeddings.Some? ==>
      && |op.chunks.value| == |op.embeddings.value|
      && forall c :: 0 <= c < |op.chunks.value| ==> op.embeddings.value[c] == embed(op.chunks.value[c].text)
  }

  /** If publications do, so does every reachable row: no chunk is stored with another one's embedding. */
  lemma StoredChunksFit(run: Run, n: nat, d: DocId, embed: string -> Vector)
    requires n <= |run| && d in StateAt(run, n).pages
    requires forall i :: 0 <= i < n && PublishesAt(run, i, d) ==> Fits(run[i], embed)
    ensures var p := StateAt(run, n).pages[d];
      forall c :: 0 <= c < |p.chunks| ==> p.chunks[c].embedding == embed(p.chunks[c].chunk.text)
  {
    SnapshotIsCoherent(run, n, d);
    var i := LastPublication(run, n, d);
    assert i >= 0 ==> PublishesAt(run, i, d) && Fits(run[i], embed);
  }

  /** Only an accepted publication changes the snapshot; every other transaction leaves it. */
  lemma OnlyPublicationChangesSnapshot(run: Run, n: nat, d: DocId)
    requires n < |run| && d in StateAt(run, n).pages && d in StateAt(run, n + 1).pages
    requires !PublishesAt(run, n, d)
    ensures var p, q := StateAt(run, n).pages[d], StateAt(run, n + 1).pages[d];
      q.content == p.content && q.contentHash == p.contentHash && q.chunks == p.chunks
    ensures StateAt(run, n).pages[d].status == Ready ==> StateAt(run, n + 1).pages[d].status == Ready
  {
    StepFrame(StateAt(run, n), run[n], d);
    ReachableIsWellFormed(run, n);
    assert WellPublished(StateAt(run, n).pages[d]);
    if Target(run[n]) == Some(d) && Commits(StateAt(run, n), run[n]) {
      assert run[n].Finish? ==> CompletesAt(run, n, d);
    }
  }

  // ---- scheduling -------------------------------------------------------------------------

  /** When a row is due: at once, from an instant on, or not until someone asks. */
  datatype Start = Now | From(at: Time) | Never

  function DueFrom(p: Page): Start {
    match p.sync
    case Queued => Now
    case Running => if p.claimedAt.Some? then From(p.claimedAt.value + CLAIM_LEASE + 1) else Never
    case _ => if p.autoSync && p.nextSyncAt.Some? then From(p.nextSyncAt.value) else Never
  }

  /**
   In every reachable state a row is due exactly from `DueFrom` on, and the only rows that
   never become due by themselves are idle or failed ones with automatic sync off.
   */
  lemma DueExactlyFrom(run: Run, n: nat, d: DocId, now: Time)
    requires n <= |run| && d in StateAt(run, n).pages
    ensures var p := StateAt(run, n).pages[d];
      && (Due(p, now) <==> match DueFrom(p) case Now => true case From(t) => t <= now case Never => false)
      && (DueFrom(p) == Never <==> !p.autoSync && (p.sync == Idle || p.sync == Failed))
  {
    ReachableIsWellFormed(run, n);
    assert WellFormedPage(StateAt(run, n).pages[d]);
  }

  // ---- erased owners ----------------------------------------------------------------------

  predicate OwnsNothing(db: Db, owner: Owner) {
    owner in db.erased && forall d :: d in db.pages ==> db.pages[d].owner != owner
  }

  /** After the fence and the row erasure, no later transaction gives the owner a row again. */
  lemma {:induction false} ErasedOwnerStaysEmpty(run: Run, i: nat, n: nat, owner: Owner)
    requires i < n <= |run| && run[i] == EraseRows(owner) && owner in StateAt(run, i).erased
    ensures OwnsNothing(StateAt(run, n), owner)
  {
    if n > i + 1 {
      ErasedOwnerStaysEmpty(run, i, n - 1, owner);
      forall d | d in StateAt(run, n).pages ensures StateAt(run, n).pages[d].owner != owner {
        StepFrame(StateAt(run, n - 1), run[n - 1], d);
      }
    }
  }
}
