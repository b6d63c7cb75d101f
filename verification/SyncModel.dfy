/**
 Webpage synchronization: the stored row and the effect of one committed transaction on it.

 A `Page` joins a document, its webpage row and its chunks. Texts are stored sealed; the row
 holds the text a reader of the row sees (see module PrivateData for the sealing itself).
 */
module SyncModel {
  import opened Common

  const SYNC_INTERVAL: Time := 24 * 60 * 60 * 1_000_000
  const CLAIM_LEASE: Time := 15 * 60 * 1_000_000
  const MAX_URLS := 100
  const MAX_ERROR := 1000

  datatype SyncStatus = Idle | Queued | Running | Failed
  datatype QueueReason = Initial | Manual | Automatic
  datatype DocumentStatus = Processing | Ready | Broken

  /** A SHA-256 of the (url, text) list, represented by that list: equal digests, equal pages. */
  type Digest = seq<(Url, string)>

  /** A stored content hash: a raw digest from before the migration, or the keyed fingerprint. */
  datatype ContentHash =
    | RawDigest(digest: Digest)
    | Fingerprint(owner: Owner, document: DocId, digest: Digest)

  datatype IngestChunk = IngestChunk(seqNo: nat, text: string, sourceUrl: Url, pageUrl: Url)
  datatype StoredChunk = StoredChunk(chunk: IngestChunk, embedding: Vector)

  datatype Page = Page(
    owner: Owner,
    key: string,
    urls: seq<Url>,
    autoSync: bool,
    sync: SyncStatus,
    reason: QueueReason,
    content: string,
    contentHash: Option<ContentHash>,
    chunks: seq<StoredChunk>,
    lastSyncedAt: Option<Time>,
    lastCheckedAt: Option<Time>,
    nextSyncAt: Option<Time>,
    syncError: Option<string>,
    lastSyncChanged: Option<bool>,
    claimToken: Option<Token>,
    claimedAt: Option<Time>,
    status: DocumentStatus,
    error: Option<string>,
    updatedAt: Time)

  /** What a successful claim hands to a worker. */
  datatype WebpageClaim = WebpageClaim(
    id: DocId, owner: Owner, token: Token, urls: seq<Url>,
    contentHash: Option<ContentHash>, reason: QueueReason)

  /** `erased` holds the owners whose erasure fence has committed. */
  datatype Db = Db(pages: map<DocId, Page>, erased: set<Owner>)

  const EMPTY_DB := Db(map[], {})

  /** One transaction, with the clock reading and the random ids it used. */
  datatype Op =
    | Create(id: DocId, owner: Owner, key: string, urls: seq<Url>, autoSync: bool, now: Time)
    | Enqueue(id: DocId, owner: Owner, now: Time)
    | SetAutoSync(id: DocId, owner: Owner, autoSync: bool, now: Time)
    | Claim(id: DocId, owner: Owner, token: Token, now: Time)
    | Finish(claim: WebpageClaim, content: string, contentHash: ContentHash,
             chunks: Option<seq<IngestChunk>>, embeddings: Option<seq<Vector>>, now: Time)
    | Fail(claim: WebpageClaim, message: string, now: Time)
    | Delete(id: DocId, owner: Owner)
    | Fence(owner: Owner)
    | EraseRows(owner: Owner)

  /** `r` has the elements of `s`, each once, in the order in which they first appear. */
  ghost predicate FirstAppearances(s: seq<Url>, r: seq<Url>) {
    && (forall u :: u in r <==> u in s)
    && NoDuplicates(r)
    && forall i, j :: 0 <= i < j < |r| ==> AppearsBefore(s, r[i], r[j])
  }

  predicate AppearsBefore(s: seq<Url>, u: Url, v: Url) {
    exists a :: 0 <= a < |s| && s[a] == u && forall b :: 0 <= b <= a ==> s[b] != v
  }

  lemma AppearsBeforeInMore(s: seq<Url>, last: Url, u: Url, v: Url)
    requires AppearsBefore(s, u, v) || (u in s && v !in s)
    ensures AppearsBefore(s + [last], u, v)
  {
    var more := s + [last];
    var a :| 0 <= a < |s| && s[a] == u && (v !in s || forall b :: 0 <= b <= a ==> s[b] != v);
    assert more[a] == u && forall b :: 0 <= b <= a ==> more[b] == s[b];
    assert v !in s ==> forall b :: 0 <= b <= a ==> more[b] != v;
  }

  /** Distinct elements of `s` in order of first appearance, as dict.fromkeys keeps them. */
  function Distinct(s: seq<Url>): (r: seq<Url>)
    ensures forall u :: u in r <==> u in s
    ensures NoDuplicates(r)
    ensures |r| <= |s| && (s != [] ==> r != [])
  {
    if s == [] then []
    else
      var front := Distinct(s[..|s| - 1]);
      var last := s[|s| - 1];
      assert s == s[..|s| - 1] + [last];
      if last in front then front else front + [last]
  }

  lemma {:induction false} DistinctKeepsOrder(s: seq<Url>)
    ensures FirstAppearances(s, Distinct(s))
  {
    if s != [] {
      var front, last := s[..|s| - 1], s[|s| - 1];
      var r := Distinct(s);
      assert s == front + [last];
      DistinctKeepsOrder(front);
      forall i, j | 0 <= i < j < |r| ensures AppearsBefore(s, r[i], r[j]) {
        assert r[i] == Distinct(front)[i];
        if j < |Distinct(front)| {
          assert AppearsBefore(front, Distinct(front)[i], Distinct(front)[j]);
        }
        AppearsBeforeInMore(front, last, r[i], r[j]);
      }
    }
  }

  // ---- single-row effects -------------------------------------------------------------

  function NewPage(owner: Owner, key: string, urls: seq<Url>, autoSync: bool, now: Time): Page {
    Page(owner, key, Distinct(urls), autoSync, Queued, Initial, "", None, [],
         None, None, None, None, None, None, None, Processing, None, now)
  }

  function Requeued(p: Page, now: Time): Page {
    var q := p.(sync := Queued, reason := Manual, syncError := None, lastSyncChanged := None,
                claimToken := None, claimedAt := None, updatedAt := now);
    if p.contentHash.None? then q.(status := Processing, error := None) else q
  }

  function Toggled(p: Page, autoSync: bool, now: Time): Page {
    if p.autoSync == autoSync then p
    else
      var base := if p.lastCheckedAt.Some? then p.lastCheckedAt.value else now;
      var next := if autoSync then Some(base + SYNC_INTERVAL) else None;
      var q := p.(autoSync := autoSync, nextSyncAt := next, updatedAt := now);
      if !autoSync && p.reason == Automatic && (p.sync == Queued || p.sync == Running)
      then q.(sync := Idle, claimToken := None, claimedAt := None)
      else q
  }

  function Claimed(p: Page, token: Token, now: Time): Page {
    p.(reason := if p.sync == Idle || p.sync == Failed then Automatic else p.reason,
       sync := Running, claimToken := Some(token), claimedAt := Some(now),
       syncError := None, lastSyncChanged := None, updatedAt := now)
  }

  /** Chunk i is stored with embedding i, and nothing else is. */
  predicate StoresEach(stored: seq<StoredChunk>, chunks: Option<seq<IngestChunk>>, embeddings: Option<seq<Vector>>) {
    && chunks.Some? && embeddings.Some? && |stored| == |chunks.value| == |embeddings.value|
    && forall i :: 0 <= i < |stored| ==>
         stored[i].chunk == chunks.value[i] && stored[i].embedding == embeddings.value[i]
  }

  function Zip(chunks: seq<IngestChunk>, embeddings: seq<Vector>): seq<StoredChunk>
    requires |chunks| == |embeddings|
  {
    seq(|chunks|, i requires 0 <= i < |chunks| => StoredChunk(chunks[i], embeddings[i]))
  }

  /** The schedule and claim columns every accepted completion writes. */
  function Checked(p: Page, now: Time): Page {
    p.(lastCheckedAt := Some(now),
       nextSyncAt := if p.autoSync then Some(now + SYNC_INTERVAL) else None,
       claimToken := None, claimedAt := None, updatedAt := now)
  }

  function Confirmed(p: Page, now: Time): Page {
    Checked(p, now).(status := Ready, error := None, sync := Idle, syncError := None,
                     lastSyncChanged := Some(false), lastSyncedAt := Some(now))
  }

  function Published(p: Page, content: string, hash: ContentHash, chunks: seq<StoredChunk>,
                     now: Time): Page {
    Confirmed(p, now).(content := content, contentHash := Some(hash), chunks := chunks,
                       lastSyncChanged := Some(true))
  }

  function Refused(p: Page, message: string, now: Time): Page {
    var q := Checked(p, now).(sync := Failed, syncError := Some(message), lastSyncChanged := None);
    if p.contentHash.None? then q.(status := Broken, error := Some(message)) else q
  }

  /** `error[:1000]`. */
  function Clip(message: string): string {
    if |message| <= MAX_ERROR then message else message[..MAX_ERROR]
  }

  // ---- guards -------------------------------------------------------------------------

  /** The row a transaction selects by id and owner. */
  predicate Has(db: Db, id: DocId, owner: Owner) {
    id in db.pages && db.pages[id].owner == owner
  }

  predicate Due(p: Page, now: Time) {
    || p.sync == Queued
    || (p.sync == Running && p.claimedAt.Some? && p.claimedAt.value < now - CLAIM_LEASE)
    || (p.autoSync && (p.sync == Idle || p.sync == Failed)
        && p.nextSyncAt.Some? && p.nextSyncAt.value <= now)
  }

  predicate IsCurrent(db: Db, c: WebpageClaim) {
    && c.owner !in db.erased
    && Has(db, c.id, c.owner)
    && db.pages[c.id].sync == Running
    && db.pages[c.id].claimToken == Some(c.token)
  }

  predicate KeyTaken(db: Db, owner: Owner, key: string) {
    exists d :: d in db.pages && db.pages[d].owner == owner && db.pages[d].key == key
  }

  /** What `_complete` demands of a successful result before it writes anything. */
  predicate Publishable(p: Page, op: Op)
    requires op.Finish?
  {
    && op.content != ""
    && (p.contentHash != Some(op.contentHash) ==>
          && op.chunks.Some? && op.chunks.value != []
          && op.embeddings.Some? && |op.embeddings.value| == |op.chunks.value|)
  }

  // ---- the transaction ----------------------------------------------------------------

  function Put(db: Db, id: DocId, p: Page): Db {
    db.(pages := db.pages[id := p])
  }

  /** Whether the transaction commits a change (a toggle to the same value commits none). */
  predicate Commits(db: Db, op: Op) {
    match op
    case Create(id, owner, key, urls, _, _) =>
      owner !in db.erased && 1 <= |urls| <= MAX_URLS && id !in db.pages && !KeyTaken(db, owner, key)
    case Enqueue(id, owner, _) =>
      && owner !in db.erased && Has(db, id, owner)
      && db.pages[id].sync != Queued && db.pages[id].sync != Running
    case SetAutoSync(id, owner, _, _) => owner !in db.erased && Has(db, id, owner)
    case Claim(id, owner, _, now) =>
      owner !in db.erased && Has(db, id, owner) && Due(db.pages[id], now)
    case Finish(c, _, _, _, _, _) => IsCurrent(db, c) && Publishable(db.pages[c.id], op)
    case Fail(c, _, _) => IsCurrent(db, c)
    case Delete(id, owner) => owner !in db.erased && Has(db, id, owner)
    case Fence(_) => true
    case EraseRows(_) => true
  }

  function Completed(p: Page, op: Op): Page
    requires op.Finish? && Publishable(p, op)
  {
    if p.contentHash == Some(op.contentHash) then Confirmed(p, op.now)
    else Published(p, op.content, op.contentHash, Zip(op.chunks.value, op.embeddings.value), op.now)
  }

  function Step(db: Db, op: Op): Db {
    if !Commits(db, op) then db
    else match op
      case Create(id, owner, key, urls, autoSync, now) =>
        Put(db, id, NewPage(owner, key, urls, autoSync, now))
      case Enqueue(id, _, now) => Put(db, id, Requeued(db.pages[id], now))
      case SetAutoSync(id, _, autoSync, now) => Put(db, id, Toggled(db.pages[id], autoSync, now))
      case Claim(id, _, token, now) => Put(db, id, Claimed(db.pages[id], token, now))
      case Finish(c, _, _, _, _, _) => Put(db, c.id, Completed(db.pages[c.id], op))
      case Fail(c, message, now) => Put(db, c.id, Refused(db.pages[c.id], Clip(message), now))
      case Delete(id, _) => db.(pages := db.pages - {id})
      case Fence(owner) => db.(erased := db.erased + {owner})
      case EraseRows(owner) =>
        db.(pages := map d | d in db.pages && db.pages[d].owner != owner :: db.pages[d])
  }

  /** The claim handed out by a committed claim transaction. */
  function ClaimOf(db: Db, op: Op): WebpageClaim
    requires op.Claim? && Commits(db, op)
  {
    var p := db.pages[op.id];
    WebpageClaim(op.id, op.owner, op.token, p.urls, p.contentHash,
                 if p.sync == Idle || p.sync == Failed then Automatic else p.reason)
  }

  /** The three transactions that no method of the repository's class stands for. */
  lemma RemovalsAndFences(db: Db, id: DocId, owner: Owner)
    ensures owner !in db.erased && id in db.pages && db.pages[id].owner == owner ==>
      Step(db, Delete(id, owner)) == Db(db.pages - {id}, db.erased)
    ensures !(owner !in db.erased && id in db.pages && db.pages[id].owner == owner) ==>
      Step(db, Delete(id, owner)) == db
    ensures Step(db, Fence(owner)) == Db(db.pages, db.erased + {owner})
    ensures var after := Step(db, EraseRows(owner));
      && after.erased == db.erased
      && (forall d :: d in after.pages <==> d in db.pages && db.pages[d].owner != owner)
      && (forall d :: d in after.pages ==> after.pages[d] == db.pages[d])
  {
  }
}
