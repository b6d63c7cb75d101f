/**
 Knowledge revisions: file chunks are frozen, re-sealed for the revision, when it is created; webpages
 are only remembered by id and searched as they are now.
 */
module Revisions {
  import opened Common
  import opened Bindings
  import opened PrivateData
  import opened TopHits

  datatype Chunk = Chunk(seqNo: nat, text: StoredText, metadata: StoredJson, embedding: Vector)

  datatype Doc = Doc(id: Uuid, owner: Uuid, ready: bool, name: StoredText, chunks: seq<Chunk>)

  datatype Frozen = Frozen(
    source: Uuid, name: StoredText, seqNo: nat, text: StoredText, metadata: StoredJson, embedding: Vector)

  datatype Revision = Revision(owner: Uuid, frozen: seq<Frozen>, live: seq<Uuid>)

  /** `webpages` are the ids of documents that have a webpage row. */
  datatype Db = Db(docs: seq<Doc>, webpages: set<Uuid>, revisions: map<Uuid, Revision>, erased: set<Uuid>)

  datatype Record = Record(id: Uuid, owner: Uuid, chunkCount: nat, live: seq<Uuid>)

  // ---- creating a revision ----------------------------------------------------------------------

  /** A document joined with one of its chunks. */
  datatype Source = Source(doc: Doc, chunk: Chunk)

  predicate Selects(doc: Doc, owner: Uuid, selected: Option<set<Uuid>>) {
    doc.owner == owner && doc.ready && (selected.Some? ==> doc.id in selected.value)
  }

  function DocRows(doc: Doc): seq<Source> {
    seq(|doc.chunks|, i requires 0 <= i < |doc.chunks| => Source(doc, doc.chunks[i]))
  }

  /** The chunks of the owner's ready documents, or of the selected ones among them. */
  function Rows(docs: seq<Doc>, owner: Uuid, selected: Option<set<Uuid>>, n: nat): seq<Source>
    requires n <= |docs|
  {
    if n == 0 then []
    else
      Rows(docs, owner, selected, n - 1)
      + if Selects(docs[n - 1], owner, selected) then DocRows(docs[n - 1]) else []
  }

  function Found(rows: seq<Source>): set<Uuid> {
    set row | row in rows :: row.doc.id
  }

  function Reseal(k: PrivateDataCipher, t: StoredText, was: StorageBinding, now: StorageBinding)
    : Result<StoredText, Failure>
  {
    var text := ReadText(k, t, was);
    if text.Err? then Err(text.error)
    else
      var sealed := k.encrypt(Text(text.value), now);
      if sealed.Err? then Err(sealed.error) else Ok(Cipher(sealed.value))
  }

  function ResealJson(k: PrivateDataCipher, v: StoredJson, was: StorageBinding, now: StorageBinding)
    : Result<StoredJson, Failure>
  {
    var json := ReadJson(k, v, was);
    if json.Err? then Err(json.error)
    else
      var sealed := k.encrypt(json.value, now);
      if sealed.Err? then Err(sealed.error) else Ok(MarkedJson(sealed.value))
  }

  function At(owner: Uuid, resource: Uuid, p: Place): StorageBinding {
    StorageBinding(owner, resource, Field(p))
  }

  function Freeze(k: PrivateDataCipher, owner: Uuid, rev: Uuid, row: Source): Result<Frozen, Failure> {
    var d, n := row.doc.id, row.chunk.seqNo;
    var name := Reseal(k, row.doc.name, At(owner, d, DocumentName), At(owner, rev, RevisionName(d)));
    var text := Reseal(k, row.chunk.text, At(owner, d, ChunkText(n)), At(owner, rev, RevisionText(d, n)));
    var metadata :=
      ResealJson(k, row.chunk.metadata, At(owner, d, ChunkMetadata(n)), At(owner, rev, RevisionMetadata(d, n)));
    if name.Err? then Err(name.error)
    else if text.Err? then Err(text.error)
    else if metadata.Err? then Err(metadata.error)
    else Ok(Frozen(d, name.value, n, text.value, metadata.value, row.chunk.embedding))
  }

  /** The rows of files, and those of webpages. */
  function Part(rows: seq<Source>, webpages: set<Uuid>, pages: bool, n: nat): seq<Source>
    requires n <= |rows|
  {
    if n == 0 then []
    else
      Part(rows, webpages, pages, n - 1)
      + if (rows[n - 1].doc.id in webpages) == pages then [rows[n - 1]] else []
  }

  /** Freezes rows one after the other; the first failure ends it. */
  function FreezeAll(freeze: Source -> Result<Frozen, Failure>, rows: seq<Source>, n: nat): Result<seq<Frozen>, Failure>
    requires n <= |rows|
  {
    if n == 0 then Ok([])
    else
      var front := FreezeAll(freeze, rows, n - 1);
      if front.Err? then front
      else
        var last := freeze(rows[n - 1]);
        if last.Err? then Err(last.error) else Ok(front.value + [last.value])
  }

  /** The documents of the rows, each once. */
  function Ids(rows: seq<Source>, n: nat): (ids: seq<Uuid>)
    requires n <= |rows|
    ensures forall i :: 0 <= i < n ==> rows[i].doc.id in ids
    ensures forall id :: id in ids ==> exists i :: 0 <= i < n && rows[i].doc.id == id
  {
    if n == 0 then []
    else
      var front := Ids(rows, n - 1);
      if rows[n - 1].doc.id in front then front else front + [rows[n - 1].doc.id]
  }

  /** The rows a creation works on. */
  function Selection(db: Db, owner: Uuid, selected: Option<set<Uuid>>): seq<Source> {
    Rows(db.docs, owner, selected, |db.docs|)
  }

  function Files(db: Db, owner: Uuid, selected: Option<set<Uuid>>): seq<Source> {
    var rows := Selection(db, owner, selected);
    Part(rows, db.webpages, false, |rows|)
  }

  function Pages(db: Db, owner: Uuid, selected: Option<set<Uuid>>): seq<Source> {
    var rows := Selection(db, owner, selected);
    Part(rows, db.webpages, true, |rows|)
  }

  /** Creation, given how a row of a file is frozen. */
  function CreateWith(
    freeze: Source -> Result<Frozen, Failure>, db: Db, owner: Uuid, selected: Option<set<Uuid>>, rev: Uuid)
    : (Db, Reply<Record>)
  {
    var rows, files, pages := Selection(db, owner, selected), Files(db, owner, selected), Pages(db, owner, selected);
    if owner in db.erased then (db, OwnerErased)
    else if selected.Some? && Found(rows) != selected.value then (db, NotFound)
    else if rev in db.revisions then (db, Conflict)
    else
      var frozen := FreezeAll(freeze, files, |files|);
      if frozen.Err? then (db, Unavailable)
      else
        var live := Ids(pages, |pages|);
        (db.(revisions := db.revisions[rev := Revision(owner, frozen.value, live)]),
         Answer(Record(rev, owner, |rows|, live)))
  }

  function Freezer(k: PrivateDataCipher, owner: Uuid, rev: Uuid): Source -> Result<Frozen, Failure> {
    row => Freeze(k, owner, rev, row)
  }

  function Create(k: PrivateDataCipher, db: Db, owner: Uuid, selected: Option<set<Uuid>>, rev: Uuid)
    : (Db, Reply<Record>)
  {
    CreateWith(Freezer(k, owner, rev), db, owner, selected, rev)
  }

  // ---- searching one ----------------------------------------------------------------------------

  /** `storage` is the revision a frozen hit is sealed for; a live hit has none. */
  datatype Hit = Hit(
    doc: Uuid, name: StoredText, seqNo: nat, text: StoredText, metadata: StoredJson, score: real,
    storage: Option<Uuid>)

  function FrozenHit(dist: Vector -> real, rev: Uuid, c: Frozen): Hit {
    Hit(c.source, c.name, c.seqNo, c.text, c.metadata, 1.0 - dist(c.embedding), Some(rev))
  }

  function LiveHit(dist: Vector -> real, row: Source): Hit {
    Hit(row.doc.id, row.doc.name, row.chunk.seqNo, row.chunk.text, row.chunk.metadata,
        1.0 - dist(row.chunk.embedding), None)
  }

  /** Frozen chunks, except those of a document that is also selected live. */
  function FrozenHits(dist: Vector -> real, rev: Uuid, r: Revision, n: nat): seq<Hit>
    requires n <= |r.frozen|
  {
    if n == 0 then []
    else
      FrozenHits(dist, rev, r, n - 1)
      + if r.frozen[n - 1].source in r.live then [] else [FrozenHit(dist, rev, r.frozen[n - 1])]
  }

  predicate IsLive(db: Db, r: Revision, doc: Doc) {
    doc.id in r.live && doc.id in db.webpages && doc.owner == r.owner && doc.ready
  }

  function LiveRows(db: Db, r: Revision, n: nat): seq<Source>
    requires n <= |db.docs|
  {
    if n == 0 then []
    else LiveRows(db, r, n - 1) + if IsLive(db, r, db.docs[n - 1]) then DocRows(db.docs[n - 1]) else []
  }

  function LiveHits(dist: Vector -> real, rows: seq<Source>): seq<Hit> {
    seq(|rows|, i requires 0 <= i < |rows| => LiveHit(dist, rows[i]))
  }

  /** What the two branches of the query offer; a stranger's or unknown revision offers nothing. */
  function Candidates(dist: Vector -> real, db: Db, owner: Uuid, rev: Uuid): (seq<Hit>, seq<Hit>) {
    if rev in db.revisions && db.revisions[rev].owner == owner then
      var r := db.revisions[rev];
      (FrozenHits(dist, rev, r, |r.frozen|), LiveHits(dist, LiveRows(db, r, |db.docs|)))
    else ([], [])
  }

  /** What a hit shows: its columns opened under the bindings of where it is stored. */
  datatype Seen = Seen(
    doc: Uuid, seqNo: nat, name: Result<string, Failure>, text: Result<string, Failure>,
    metadata: Result<Json, Failure>, score: real)

  function Show(k: PrivateDataCipher, owner: Uuid, hit: Hit): Seen {
    var d, n := hit.doc, hit.seqNo;
    match hit.storage
    case None =>
      Seen(d, n, ReadText(k, hit.name, At(owner, d, DocumentName)),
           ReadText(k, hit.text, At(owner, d, ChunkText(n))),
           ReadJson(k, hit.metadata, At(owner, d, ChunkMetadata(n))), hit.score)
    case Some(rev) =>
      Seen(d, n, ReadText(k, hit.name, At(owner, rev, RevisionName(d))),
           ReadText(k, hit.text, At(owner, rev, RevisionText(d, n))),
           ReadJson(k, hit.metadata, At(owner, rev, RevisionMetadata(d, n))), hit.score)
  }

  /** The number of chunks a revision is listed with. */
  function ChunkCount(db: Db, r: Revision): nat {
    |r.frozen| + |LiveRows(db, r, |db.docs|)|
  }

  // ---- what creation captures -------------------------------------------------------------------

  /**
   What a chunk of a document is: its name, text and metadata as they read where they are stored, its
   number, and one minus its distance.
   */
  ghost predicate IsShownAs(k: PrivateDataCipher, dist: Vector -> real, owner: Uuid, row: Source, seen: Seen) {
    && seen.doc == row.doc.id && seen.seqNo == row.chunk.seqNo
    && seen.name == ReadText(k, row.doc.name, StorageBinding(owner, row.doc.id, Field(DocumentName)))
    && seen.text == ReadText(k, row.chunk.text, StorageBinding(owner, row.doc.id, Field(ChunkText(row.chunk.seqNo))))
    && seen.metadata
         == ReadJson(k, row.chunk.metadata, StorageBinding(owner, row.doc.id, Field(ChunkMetadata(row.chunk.seqNo))))
    && seen.score == 1.0 - dist(row.chunk.embedding)
  }

  /** A live hit shows the chunk it was made from, and so does the frozen one of a revision of it. */
  lemma HitsShowTheirChunk(k: PrivateDataCipher, dist: Vector -> real, owner: Uuid, rev: Uuid, row: Source)
    requires KeepsFaith(k)
    ensures IsShownAs(k, dist, owner, row, Show(k, owner, LiveHit(dist, row)))
    ensures Freeze(k, owner, rev, row).Ok? ==>
      IsShownAs(k, dist, owner, row, Show(k, owner, FrozenHit(dist, rev, Freeze(k, owner, rev, row).value)))
  {
    if Freeze(k, owner, rev, row).Ok? {
      FrozenShowsItsSource(k, dist, owner, rev, row);
    }
  }

  /** A frozen chunk shows what its source showed when it was captured. */
  lemma FrozenShowsItsSource(
    k: PrivateDataCipher, dist: Vector -> real, owner: Uuid, rev: Uuid, row: Source)
    requires KeepsFaith(k) && Freeze(k, owner, rev, row).Ok?
    ensures Show(k, owner, FrozenHit(dist, rev, Freeze(k, owner, rev, row).value))
         == Show(k, owner, LiveHit(dist, row))
  {
    var d, n := row.doc.id, row.chunk.seqNo;
    ResealedReadsTheSame(k, row.doc.name, At(owner, d, DocumentName), At(owner, rev, RevisionName(d)));
    ResealedReadsTheSame(k, row.chunk.text, At(owner, d, ChunkText(n)), At(owner, rev, RevisionText(d, n)));
  }

  lemma ResealedReadsTheSame(k: PrivateDataCipher, t: StoredText, was: StorageBinding, now: StorageBinding)
    requires KeepsFaith(k) && Reseal(k, t, was, now).Ok?
    ensures ReadText(k, Reseal(k, t, was, now).value, now) == ReadText(k, t, was)
  {
  }

  lemma {:induction false} FrozenAt(freeze: Source -> Result<Frozen, Failure>, rows: seq<Source>, n: nat)
    requires n <= |rows| && FreezeAll(freeze, rows, n).Ok?
    ensures |FreezeAll(freeze, rows, n).value| == n
    ensures forall i :: 0 <= i < n ==> freeze(rows[i]) == Ok(FreezeAll(freeze, rows, n).value[i])
  {
    if n > 0 {
      FrozenAt(freeze, rows, n - 1);
    }
  }

  lemma {:induction false} PartsAddUp(rows: seq<Source>, webpages: set<Uuid>, n: nat)
    requires n <= |rows|
    ensures |Part(rows, webpages, false, n)| + |Part(rows, webpages, true, n)| == n
  {
    if n > 0 {
      PartsAddUp(rows, webpages, n - 1);
    }
  }

  lemma {:induction false} PartHas(rows: seq<Source>, webpages: set<Uuid>, pages: bool, n: nat, row: Source)
    requires n <= |rows|
    ensures row in Part(rows, webpages, pages, n)
      <==> row in rows[..n] && ((row.doc.id in webpages) == pages)
  {
    if n > 0 {
      PartHas(rows, webpages, pages, n - 1, row);
      assert rows[..n] == rows[..n - 1] + [rows[n - 1]];
    }
  }

  /** Adding rows of one kind adds them all to their own part and none to the other. */
  lemma {:induction false} PartGrows(
    a: seq<Source>, b: seq<Source>, webpages: set<Uuid>, pages: bool, kind: bool, n: nat)
    requires |a| <= n <= |a| + |b|
    requires forall i :: 0 <= i < |b| ==> (b[i].doc.id in webpages) == kind
    ensures Part(a + b, webpages, pages, n)
         == Part(a, webpages, pages, |a|) + if kind == pages then b[..n - |a|] else []
  {
    if n == |a| {
      PartOfPrefix(a, b, webpages, pages, n);
    } else {
      PartGrows(a, b, webpages, pages, kind, n - 1);
      assert (a + b)[n - 1] == b[n - 1 - |a|];
      assert b[..n - |a|] == b[..n - 1 - |a|] + [b[n - 1 - |a|]];
    }
  }

  lemma {:induction false} PartOfPrefix(a: seq<Source>, b: seq<Source>, webpages: set<Uuid>, pages: bool, n: nat)
    requires n <= |a|
    ensures Part(a + b, webpages, pages, n) == Part(a, webpages, pages, n)
  {
    if n > 0 {
      PartOfPrefix(a, b, webpages, pages, n - 1);
      assert (a + b)[n - 1] == a[n - 1];
    }
  }

  /** Some ready document of the owner with that id, and selected if there is a selection, has a chunk. */
  ghost predicate Offered(docs: seq<Doc>, owner: Uuid, selected: Option<set<Uuid>>, n: nat, id: Uuid)
    requires n <= |docs|
  {
    exists i :: 0 <= i < n && docs[i].id == id && docs[i].owner == owner && docs[i].ready && docs[i].chunks != []
      && (selected.Some? ==> id in selected.value)
  }

  lemma {:induction false} FoundIffOffered(
    docs: seq<Doc>, owner: Uuid, selected: Option<set<Uuid>>, n: nat, id: Uuid)
    requires n <= |docs|
    ensures id in Found(Rows(docs, owner, selected, n)) <==> Offered(docs, owner, selected, n, id)
  {
    if n > 0 {
      FoundIffOffered(docs, owner, selected, n - 1, id);
      var front, last := Rows(docs, owner, selected, n - 1), docs[n - 1];
      if Selects(last, owner, selected) && last.id == id && last.chunks != [] {
        assert DocRows(last)[0] in Rows(docs, owner, selected, n);
      }
      if id in Found(Rows(docs, owner, selected, n)) {
        var row :| row in Rows(docs, owner, selected, n) && row.doc.id == id;
        assert row in front || row in DocRows(last);
      }
      if id in Found(front) {
        var row :| row in front && row.doc.id == id;
        assert row in Rows(docs, owner, selected, n);
      }
    }
  }

  lemma OfferedIsSelected(docs: seq<Doc>, owner: Uuid, selected: set<Uuid>, id: Uuid)
    ensures Offered(docs, owner, Some(selected), |docs|, id)
      <==> id in selected && Offered(docs, owner, None, |docs|, id)
  {
  }

  /**
   Creation refuses a selection exactly when one of its documents is missing, another owner's, not
   ready, or without a chunk.
   */
  lemma NotFoundIff(k: PrivateDataCipher, db: Db, owner: Uuid, selected: set<Uuid>, rev: Uuid)
    requires owner !in db.erased
    ensures Create(k, db, owner, Some(selected), rev).1 == NotFound
      <==> exists id :: id in selected && !Offered(db.docs, owner, None, |db.docs|, id)
  {
    var found := Found(Rows(db.docs, owner, Some(selected), |db.docs|));
    forall id: Uuid ensures id in found <==> id in selected && Offered(db.docs, owner, None, |db.docs|, id) {
      FoundIffOffered(db.docs, owner, Some(selected), |db.docs|, id);
      OfferedIsSelected(db.docs, owner, selected, id);
    }
    if found != selected {
      var id :| id in selected && id !in found;
      assert !Offered(db.docs, owner, None, |db.docs|, id);
    }
  }

  // ---- what a new revision offers ---------------------------------------------------------------

  lemma {:induction false} NothingExcluded(dist: Vector -> real, rev: Uuid, r: Revision, n: nat)
    requires n <= |r.frozen| && forall i :: 0 <= i < |r.frozen| ==> r.frozen[i].source !in r.live
    ensures |FrozenHits(dist, rev, r, n)| == n
    ensures forall i :: 0 <= i < n ==> FrozenHits(dist, rev, r, n)[i] == FrozenHit(dist, rev, r.frozen[i])
  {
    if n > 0 {
      NothingExcluded(dist, rev, r, n - 1);
    }
  }

  /** Which documents a revision will search live. */
  ghost predicate LiveMeans(db: Db, r: Revision, selected: Option<set<Uuid>>) {
    forall id :: id in r.live <==> id in db.webpages && Offered(db.docs, r.owner, selected, |db.docs|, id)
  }

  lemma OfferedIsInSelection(docs: seq<Doc>, owner: Uuid, selected: Option<set<Uuid>>, id: Uuid)
    requires Offered(docs, owner, selected, |docs|, id)
    ensures selected.Some? ==> id in selected.value
  {
  }

  lemma PagesGrow(front: seq<Source>, doc: Doc, webpages: set<Uuid>)
    ensures var rows := front + DocRows(doc);
      Part(rows, webpages, true, |rows|)
      == Part(front, webpages, true, |front|) + if doc.id in webpages then DocRows(doc) else []
  {
    var more := DocRows(doc);
    PartGrows(front, more, webpages, true, doc.id in webpages, |front| + |more|);
    assert more[..|more|] == more;
  }

  /** Which of a document's rows are searched live does not depend on whether it is looked up by id. */
  lemma LiveIffSelectedPage(db: Db, r: Revision, selected: Option<set<Uuid>>, doc: Doc)
    requires LiveMeans(db, r, selected) && doc in db.docs && doc.chunks != []
    ensures IsLive(db, r, doc) <==> Selects(doc, r.owner, selected) && doc.id in db.webpages
  {
    if IsLive(db, r, doc) {
      OfferedIsInSelection(db.docs, r.owner, selected, doc.id);
    }
    if Selects(doc, r.owner, selected) && doc.id in db.webpages {
      assert Offered(db.docs, r.owner, selected, |db.docs|, doc.id);
    }
  }

  lemma {:induction false} LiveRowsArePages(db: Db, r: Revision, selected: Option<set<Uuid>>, n: nat)
    requires n <= |db.docs| && LiveMeans(db, r, selected)
    ensures var rows := Rows(db.docs, r.owner, selected, n);
      LiveRows(db, r, n) == Part(rows, db.webpages, true, |rows|)
  {
    if n > 0 {
      LiveRowsArePages(db, r, selected, n - 1);
      var front, doc := Rows(db.docs, r.owner, selected, n - 1), db.docs[n - 1];
      PagesGrow(front, doc, db.webpages);
      if doc.chunks != [] {
        LiveIffSelectedPage(db, r, selected, doc);
      } else {
        assert DocRows(doc) == [];
      }
      assert front + [] == front;
    }
  }

  lemma CreatedLiveMeans(db: Db, owner: Uuid, selected: Option<set<Uuid>>)
    ensures var pages := Pages(db, owner, selected);
      forall frozen :: LiveMeans(db, Revision(owner, frozen, Ids(pages, |pages|)), selected)
  {
    var rows, pages := Selection(db, owner, selected), Pages(db, owner, selected);
    var live := Ids(pages, |pages|);
    assert rows[..|rows|] == rows;
    forall id: Uuid
      ensures id in live <==> id in db.webpages && Offered(db.docs, owner, selected, |db.docs|, id)
    {
      FoundIffOffered(db.docs, owner, selected, |db.docs|, id);
      if id in live {
        var i :| 0 <= i < |pages| && pages[i].doc.id == id;
        PartHas(rows, db.webpages, true, |rows|, pages[i]);
        assert pages[i] in rows;
      }
      if id in db.webpages && id in Found(rows) {
        var row :| row in rows && row.doc.id == id;
        PartHas(rows, db.webpages, true, |rows|, row);
        var i :| 0 <= i < |pages| && pages[i] == row;
      }
    }
  }

  ghost predicate KeepsSource(freeze: Source -> Result<Frozen, Failure>) {
    forall row :: freeze(row).Ok? ==> freeze(row).value.source == row.doc.id
  }

  lemma CreatedRevision(
    freeze: Source -> Result<Frozen, Failure>, db: Db, owner: Uuid, selected: Option<set<Uuid>>, rev: Uuid)
    requires KeepsSource(freeze) && CreateWith(freeze, db, owner, selected, rev).1.Answer?
    ensures var after, files := CreateWith(freeze, db, owner, selected, rev).0, Files(db, owner, selected);
      && rev in after.revisions
      && var r := after.revisions[rev];
      && r.owner == owner && |r.frozen| == |files| && LiveMeans(db, r, selected)
      && (forall i :: 0 <= i < |files| ==> freeze(files[i]) == Ok(r.frozen[i]))
      && (forall i :: 0 <= i < |files| ==> r.frozen[i].source !in r.live)
  {
    var rows, files := Selection(db, owner, selected), Files(db, owner, selected);
    FrozenAt(freeze, files, |files|);
    CreatedLiveMeans(db, owner, selected);
    forall i | 0 <= i < |files| ensures files[i].doc.id !in db.webpages {
      PartHas(rows, db.webpages, false, |rows|, files[i]);
    }
  }

  /** Creating a revision changes nothing but adding it, for an owner that is not erased. */
  lemma CreateOnlyAdds(
    freeze: Source -> Result<Frozen, Failure>, db: Db, owner: Uuid, selected: Option<set<Uuid>>, rev: Uuid)
    ensures var (after, reply) := CreateWith(freeze, db, owner, selected, rev);
      if reply.Answer? then
        && rev !in db.revisions && owner !in db.erased && rev in after.revisions
        && after == db.(revisions := db.revisions[rev := after.revisions[rev]])
        && after.revisions[rev].owner == owner
        && reply.value == Record(rev, owner, |Selection(db, owner, selected)|, after.revisions[rev].live)
      else after == db
  {
  }

  ghost predicate AreFrozenFrom(
    freeze: Source -> Result<Frozen, Failure>, dist: Vector -> real, rev: Uuid, hits: seq<Hit>, rows: seq<Source>)
  {
    && |hits| == |rows|
    && forall i :: 0 <= i < |rows| ==> freeze(rows[i]).Ok? && hits[i] == FrozenHit(dist, rev, freeze(rows[i]).value)
  }

  lemma FreezerKeepsSource(k: PrivateDataCipher, owner: Uuid, rev: Uuid)
    ensures KeepsSource(Freezer(k, owner, rev))
  {
  }

  lemma NewRevisionCandidates(
    freeze: Source -> Result<Frozen, Failure>, dist: Vector -> real,
    db: Db, owner: Uuid, selected: Option<set<Uuid>>, rev: Uuid)
    requires KeepsSource(freeze) && CreateWith(freeze, db, owner, selected, rev).1.Answer?
    ensures var (after, reply) := CreateWith(freeze, db, owner, selected, rev);
      var (frozen, live) := Candidates(dist, after, owner, rev);
      var files, pages := Files(db, owner, selected), Pages(db, owner, selected);
      && AreFrozenFrom(freeze, dist, rev, frozen, files)
      && live == LiveHits(dist, pages)
      && reply.value.chunkCount == |frozen| + |live| == |Selection(db, owner, selected)|
  {
    var after := CreateWith(freeze, db, owner, selected, rev).0;
    CreateOnlyAdds(freeze, db, owner, selected, rev);
    CreatedRevision(freeze, db, owner, selected, rev);
    var r := after.revisions[rev];
    NothingExcluded(dist, rev, r, |r.frozen|);
    LiveRowsArePages(db, r, selected, |db.docs|);
    LiveRowsIgnoreRevisions(db, after, r, |db.docs|);
    PartsAddUp(Selection(db, owner, selected), db.webpages, |Selection(db, owner, selected)|);
  }

  /** Hits that show the chunks themselves, in the same order. */
  ghost predicate ShowAlike(
    k: PrivateDataCipher, dist: Vector -> real, owner: Uuid, hits: seq<Hit>, rows: seq<Source>)
  {
    && |hits| == |rows|
    && forall i :: 0 <= i < |rows| ==> IsShownAs(k, dist, owner, rows[i], Show(k, owner, hits[i]))
  }

  lemma FrozenShowAlike(
    k: PrivateDataCipher, dist: Vector -> real, owner: Uuid, rev: Uuid, hits: seq<Hit>, rows: seq<Source>)
    requires KeepsFaith(k) && AreFrozenFrom(Freezer(k, owner, rev), dist, rev, hits, rows)
    ensures ShowAlike(k, dist, owner, hits, rows)
  {
    forall i | 0 <= i < |rows| ensures IsShownAs(k, dist, owner, rows[i], Show(k, owner, hits[i])) {
      assert Freezer(k, owner, rev)(rows[i]) == Freeze(k, owner, rev, rows[i]);
      HitsShowTheirChunk(k, dist, owner, rev, rows[i]);
    }
  }

  /**
   A new revision offers exactly the chunks of the selected ready documents: the frozen hits are those
   of files, in order, showing what their sources showed; the live hits are those of webpages; and its
   chunk count is the number of both.
   */
  lemma NewRevisionOffersItsSelection(
    k: PrivateDataCipher, dist: Vector -> real, db: Db, owner: Uuid, selected: Option<set<Uuid>>, rev: Uuid)
    requires KeepsFaith(k) && Create(k, db, owner, selected, rev).1.Answer?
    ensures var (after, reply) := Create(k, db, owner, selected, rev);
      var (frozen, live) := Candidates(dist, after, owner, rev);
      && ShowAlike(k, dist, owner, frozen, Files(db, owner, selected))
      && live == LiveHits(dist, Pages(db, owner, selected))
      && ShowAlike(k, dist, owner, live, Pages(db, owner, selected))
      && reply.value.chunkCount == |frozen| + |live| == |Selection(db, owner, selected)|
  {
    var freeze := Freezer(k, owner, rev);
    FreezerKeepsSource(k, owner, rev);
    NewRevisionCandidates(freeze, dist, db, owner, selected, rev);
    var (frozen, live) := Candidates(dist, CreateWith(freeze, db, owner, selected, rev).0, owner, rev);
    FrozenShowAlike(k, dist, owner, rev, frozen, Files(db, owner, selected));
    LiveShowAlike(k, dist, owner, rev, Pages(db, owner, selected));
  }

  lemma LiveShowAlike(k: PrivateDataCipher, dist: Vector -> real, owner: Uuid, rev: Uuid, rows: seq<Source>)
    requires KeepsFaith(k)
    ensures ShowAlike(k, dist, owner, LiveHits(dist, rows), rows)
  {
    forall i | 0 <= i < |rows| ensures IsShownAs(k, dist, owner, rows[i], Show(k, owner, LiveHits(dist, rows)[i])) {
      HitsShowTheirChunk(k, dist, owner, rev, rows[i]);
    }
  }

  lemma {:induction false} LiveRowsIgnoreRevisions(db: Db, db': Db, r: Revision, n: nat)
    requires db'.docs == db.docs && db'.webpages == db.webpages && n <= |db.docs|
    ensures LiveRows(db', r, n) == LiveRows(db, r, n)
  {
    if n > 0 {
      LiveRowsIgnoreRevisions(db, db', r, n - 1);
    }
  }

  // ---- over whole runs --------------------------------------------------------------------------

  /** Everything else that changes the tables a revision is searched in. */
  datatype Op =
    | PutDoc(doc: Doc, webpage: bool)
    | DropDoc(id: Uuid)
    | CreateRevision(owner: Uuid, selected: Option<set<Uuid>>, rev: Uuid)
    | EraseOwner(owner: Uuid)

  /** The documents without those of an id or an owner. */
  function Keep(docs: seq<Doc>, id: Option<Uuid>, owner: Option<Uuid>): seq<Doc> {
    if docs == [] then []
    else (if Some(docs[0].id) == id || Some(docs[0].owner) == owner then [] else [docs[0]]) + Keep(docs[1..], id, owner)
  }

  function Step(k: PrivateDataCipher, db: Db, op: Op): Db {
    match op
    case PutDoc(doc, webpage) =>
      if doc.owner in db.erased then db
      else db.(docs := Keep(db.docs, Some(doc.id), None) + [doc],
               webpages := if webpage then db.webpages + {doc.id} else db.webpages - {doc.id})
    case DropDoc(id) => db.(docs := Keep(db.docs, Some(id), None), webpages := db.webpages - {id})
    case CreateRevision(owner, selected, rev) => Create(k, db, owner, selected, rev).0
    case EraseOwner(owner) =>
      db.(docs := Keep(db.docs, None, Some(owner)),
          revisions := map rev | rev in db.revisions && db.revisions[rev].owner != owner :: db.revisions[rev],
          erased := db.erased + {owner})
  }

  function StateAt(k: PrivateDataCipher, ops: seq<Op>, n: nat): Db
    requires n <= |ops|
  {
    if n == 0 then Db([], {}, map[], {}) else Step(k, StateAt(k, ops, n - 1), ops[n - 1])
  }

  ghost predicate ErasedOwnNothing(db: Db) {
    forall rev :: rev in db.revisions ==> db.revisions[rev].owner !in db.erased
  }

  /** A revision outlives a step unchanged, unless the step erases its owner. */
  lemma StepKeepsRevisions(k: PrivateDataCipher, db: Db, op: Op)
    requires ErasedOwnNothing(db)
    ensures var after := Step(k, db, op);
      && ErasedOwnNothing(after) && db.erased <= after.erased
      && forall rev :: rev in db.revisions && db.revisions[rev].owner !in after.erased ==>
           rev in after.revisions && after.revisions[rev] == db.revisions[rev]
  {
    if op.CreateRevision? {
      CreateOnlyAdds(Freezer(k, op.owner, op.rev), db, op.owner, op.selected, op.rev);
    }
  }

  lemma {:induction false} ErasedOwnNothingEver(k: PrivateDataCipher, ops: seq<Op>, n: nat)
    requires n <= |ops|
    ensures ErasedOwnNothing(StateAt(k, ops, n))
  {
    if n > 0 {
      ErasedOwnNothingEver(k, ops, n - 1);
      StepKeepsRevisions(k, StateAt(k, ops, n - 1), ops[n - 1]);
    }
  }

  /** The revision is there as it was; or its owner is erased, and has none. */
  ghost predicate KeptOrErased(db: Db, rev: Uuid, r: Revision) {
    if r.owner in db.erased then forall other :: other in db.revisions ==> db.revisions[other].owner != r.owner
    else rev in db.revisions && db.revisions[rev] == r
  }

  lemma StepKeepsRevision(k: PrivateDataCipher, db: Db, op: Op, rev: Uuid, r: Revision)
    requires ErasedOwnNothing(db) && KeptOrErased(db, rev, r)
    ensures KeptOrErased(Step(k, db, op), rev, r)
  {
    StepKeepsRevisions(k, db, op);
    var after := Step(k, db, op);
    if r.owner in after.erased {
      forall other | other in after.revisions ensures after.revisions[other].owner != r.owner {
        assert after.revisions[other].owner !in after.erased;
      }
    } else {
      assert rev in db.revisions;
    }
  }

  lemma {:induction false} KeptEver(k: PrivateDataCipher, ops: seq<Op>, i: nat, j: nat, rev: Uuid, r: Revision)
    requires i <= j <= |ops| && KeptOrErased(StateAt(k, ops, i), rev, r)
    ensures KeptOrErased(StateAt(k, ops, j), rev, r)
  {
    if i < j {
      KeptEver(k, ops, i, j - 1, rev, r);
      ErasedOwnNothingEver(k, ops, j - 1);
      StepKeepsRevision(k, StateAt(k, ops, j - 1), ops[j - 1], rev, r);
    }
  }

  lemma KeptAtFirst(db: Db, rev: Uuid)
    requires ErasedOwnNothing(db) && rev in db.revisions
    ensures KeptOrErased(db, rev, db.revisions[rev])
  {
    assert db.revisions[rev].owner !in db.erased;
  }

  /**
   Once created, a revision stays as it is, frozen chunks and live membership alike, whatever happens to
   its documents, until its owner is erased; then the owner has none.
   */
  lemma RevisionsNeverChange(k: PrivateDataCipher, ops: seq<Op>, i: nat, j: nat, rev: Uuid)
    requires i <= j <= |ops| && rev in StateAt(k, ops, i).revisions
    ensures KeptOrErased(StateAt(k, ops, j), rev, StateAt(k, ops, i).revisions[rev])
  {
    ErasedOwnNothingEver(k, ops, i);
    KeptAtFirst(StateAt(k, ops, i), rev);
    KeptEver(k, ops, i, j, rev, StateAt(k, ops, i).revisions[rev]);
  }

  ghost predicate Disjoint(r: Revision) {
    forall i :: 0 <= i < |r.frozen| ==> r.frozen[i].source !in r.live
  }

  ghost predicate AllDisjoint(db: Db) {
    forall rev :: rev in db.revisions ==> Disjoint(db.revisions[rev])
  }

  lemma CreateKeepsDisjoint(
    freeze: Source -> Result<Frozen, Failure>, db: Db, owner: Uuid, selected: Option<set<Uuid>>, rev: Uuid)
    requires AllDisjoint(db) && KeepsSource(freeze)
    ensures AllDisjoint(CreateWith(freeze, db, owner, selected, rev).0)
  {
    CreateOnlyAdds(freeze, db, owner, selected, rev);
    if CreateWith(freeze, db, owner, selected, rev).1.Answer? {
      CreatedRevision(freeze, db, owner, selected, rev);
    }
  }

  lemma StepKeepsDisjoint(k: PrivateDataCipher, db: Db, op: Op)
    requires AllDisjoint(db)
    ensures AllDisjoint(Step(k, db, op))
  {
    if op.CreateRevision? {
      var freeze := Freezer(k, op.owner, op.rev);
      FreezerKeepsSource(k, op.owner, op.rev);
      CreateKeepsDisjoint(freeze, db, op.owner, op.selected, op.rev);
    }
  }

  /** In every run, no revision both froze a document and searches it live. */
  lemma {:induction false} BranchesAreDisjoint(k: PrivateDataCipher, ops: seq<Op>, n: nat)
    requires n <= |ops|
    ensures AllDisjoint(StateAt(k, ops, n))
  {
    if n > 0 {
      BranchesAreDisjoint(k, ops, n - 1);
      StepKeepsDisjoint(k, StateAt(k, ops, n - 1), ops[n - 1]);
    }
  }

  /** The frozen hits at any later time are those captured, and the count covers all candidates. */
  lemma CandidatesOverRuns(k: PrivateDataCipher, dist: Vector -> real, ops: seq<Op>, i: nat, j: nat, rev: Uuid)
    requires i <= j <= |ops| && rev in StateAt(k, ops, i).revisions
    requires StateAt(k, ops, i).revisions[rev].owner !in StateAt(k, ops, j).erased
    ensures var then', now := StateAt(k, ops, i), StateAt(k, ops, j);
      var owner := then'.revisions[rev].owner;
      && Candidates(dist, now, owner, rev).0 == Candidates(dist, then', owner, rev).0
      && rev in now.revisions
      && |Candidates(dist, now, owner, rev).0| + |Candidates(dist, now, owner, rev).1|
           == ChunkCount(now, now.revisions[rev])
  {
    RevisionsNeverChange(k, ops, i, j, rev);
    BranchesAreDisjoint(k, ops, j);
    var r := StateAt(k, ops, j).revisions[rev];
    NothingExcluded(dist, rev, r, |r.frozen|);
  }

  /** Live hits are exactly the present chunks of ready webpages of the owner that were selected. */
  lemma {:induction false} LiveHitsAreCurrent(db: Db, r: Revision, n: nat, row: Source)
    requires n <= |db.docs|
    ensures row in LiveRows(db, r, n)
      <==>
      && row.doc in db.docs[..n] && row.chunk in row.doc.chunks
      && row.doc.id in r.live && row.doc.id in db.webpages && row.doc.owner == r.owner && row.doc.ready
  {
    if n > 0 {
      LiveHitsAreCurrent(db, r, n - 1, row);
      var doc := db.docs[n - 1];
      assert db.docs[..n] == db.docs[..n - 1] + [doc];
      assert row in DocRows(doc) <==> row.doc == doc && row.chunk in doc.chunks by {
        if row.doc == doc && row.chunk in doc.chunks {
          var c :| 0 <= c < |doc.chunks| && doc.chunks[c] == row.chunk;
          assert DocRows(doc)[c] == row;
        }
      }
    }
  }

  /**
   Searching a revision at any point of any run: limiting each branch and then their union returns as
   many hits as the count and the limit allow, and none of the revision's chunks beats a returned one.
   */
  lemma RevisionSearchIsExact(
    k: PrivateDataCipher, dist: Vector -> real, ops: seq<Op>, n: nat, rev: Uuid, limit: nat,
    f: seq<Hit>, l: seq<Hit>, result: seq<Hit>)
    requires n <= |ops| && rev in StateAt(k, ops, n).revisions
    requires
      var db := StateAt(k, ops, n);
      var (frozen, live) := Candidates(dist, db, db.revisions[rev].owner, rev);
      var score := (h: Hit) => h.score;
      && IsTop(f, multiset(frozen), limit, score) && IsTop(l, multiset(live), limit, score)
      && IsTop(result, multiset(f) + multiset(l), limit, score)
    ensures
      var db := StateAt(k, ops, n);
      var (frozen, live) := Candidates(dist, db, db.revisions[rev].owner, rev);
      && |result| == Min(limit, ChunkCount(db, db.revisions[rev]))
      && IsTop(result, multiset(frozen) + multiset(live), limit, (h: Hit) => h.score)
  {
    var db := StateAt(k, ops, n);
    var (frozen, live) := Candidates(dist, db, db.revisions[rev].owner, rev);
    ErasedOwnNothingEver(k, ops, n);
    CandidatesOverRuns(k, dist, ops, n, n, rev);
    TopOfTops(result, f, l, multiset(frozen), multiset(live), limit, (h: Hit) => h.score);
    assert |multiset(frozen) + multiset(live)| == |frozen| + |live|;
    assert |multiset(result)| == |result|;
  }

  // ---- who gets what ----------------------------------------------------------------------------

  /** The rows of a selection: the chunks of the owner's ready documents, or of the selected among them. */
  lemma {:induction false} RowsAreTheSelected(
    docs: seq<Doc>, owner: Uuid, selected: Option<set<Uuid>>, n: nat, row: Source)
    requires n <= |docs|
    ensures row in Rows(docs, owner, selected, n) <==>
      && row.doc in docs[..n] && row.chunk in row.doc.chunks
      && row.doc.owner == owner && row.doc.ready && (selected.Some? ==> row.doc.id in selected.value)
  {
    if n > 0 {
      RowsAreTheSelected(docs, owner, selected, n - 1, row);
      var doc := docs[n - 1];
      assert docs[..n] == docs[..n - 1] + [doc];
      assert row in DocRows(doc) <==> row.doc == doc && row.chunk in doc.chunks by {
        if row.doc == doc && row.chunk in doc.chunks {
          var c :| 0 <= c < |doc.chunks| && doc.chunks[c] == row.chunk;
          assert DocRows(doc)[c] == row;
        }
      }
    }
  }

  /** Files are frozen, webpages are not. */
  lemma FilesAndPages(db: Db, owner: Uuid, selected: Option<set<Uuid>>, row: Source)
    ensures row in Files(db, owner, selected) || row in Pages(db, owner, selected) <==>
      && row.doc in db.docs && row.chunk in row.doc.chunks
      && row.doc.owner == owner && row.doc.ready && (selected.Some? ==> row.doc.id in selected.value)
    ensures row in Files(db, owner, selected) ==> row.doc.id !in db.webpages
    ensures row in Pages(db, owner, selected) ==> row.doc.id in db.webpages
  {
    var rows := Selection(db, owner, selected);
    RowsAreTheSelected(db.docs, owner, selected, |db.docs|, row);
    PartHas(rows, db.webpages, false, |rows|, row);
    PartHas(rows, db.webpages, true, |rows|, row);
    assert rows[..|rows|] == rows && db.docs[..|db.docs|] == db.docs;
  }

  lemma {:induction false} FrozenHitsAre(dist: Vector -> real, rev: Uuid, r: Revision, n: nat, h: Hit)
    requires n <= |r.frozen|
    ensures h in FrozenHits(dist, rev, r, n) <==>
      exists i :: 0 <= i < n && r.frozen[i].source !in r.live && h == FrozenHit(dist, rev, r.frozen[i])
  {
    if n > 0 {
      FrozenHitsAre(dist, rev, r, n - 1, h);
    }
  }

  /** A revision is searched by its owner only: for anybody else it has no candidates. */
  lemma StrangersFindNothing(dist: Vector -> real, db: Db, owner: Uuid, rev: Uuid)
    ensures !(rev in db.revisions && db.revisions[rev].owner == owner) ==>
      Candidates(dist, db, owner, rev) == ([], [])
    ensures rev in db.revisions && db.revisions[rev].owner == owner ==>
      |Candidates(dist, db, owner, rev).1| == |LiveRows(db, db.revisions[rev], |db.docs|)|
  {
  }

  lemma {:induction false} FreezesAll(freeze: Source -> Result<Frozen, Failure>, rows: seq<Source>, n: nat)
    requires n <= |rows|
    ensures FreezeAll(freeze, rows, n).Ok? <==> forall i :: 0 <= i < n ==> freeze(rows[i]).Ok?
  {
    if n > 0 {
      FreezesAll(freeze, rows, n - 1);
    }
  }

  /** Why a creation is refused, in the order of its checks. */
  lemma CreationAnswers(k: PrivateDataCipher, db: Db, owner: Uuid, selected: Option<set<Uuid>>, rev: Uuid)
    ensures var (after, reply) := Create(k, db, owner, selected, rev);
      var missing :=
        selected.Some? && exists id :: id in selected.value && !Offered(db.docs, owner, None, |db.docs|, id);
      var files := Files(db, owner, selected);
      && (reply == OwnerErased <==> owner in db.erased)
      && (reply == NotFound <==> owner !in db.erased && missing)
      && (reply == Conflict <==> owner !in db.erased && !missing && rev in db.revisions)
      && (reply.Answer? <==>
            && owner !in db.erased && !missing && rev !in db.revisions
            && forall i :: 0 <= i < |files| ==> Freeze(k, owner, rev, files[i]).Ok?)
      && (!reply.Answer? ==> after == db)
  {
    if selected.Some? && owner !in db.erased {
      NotFoundIff(k, db, owner, selected.value, rev);
    }
    var freeze, files := Freezer(k, owner, rev), Files(db, owner, selected);
    FreezesAll(freeze, files, |files|);
    assert forall i :: 0 <= i < |files| ==> freeze(files[i]) == Freeze(k, owner, rev, files[i]);
  }

  lemma {:induction false} KeepsOthers(docs: seq<Doc>, id: Option<Uuid>, owner: Option<Uuid>, doc: Doc)
    ensures doc in Keep(docs, id, owner) <==> doc in docs && Some(doc.id) != id && Some(doc.owner) != owner
  {
    if docs != [] {
      KeepsOthers(docs[1..], id, owner, doc);
      assert docs == [docs[0]] + docs[1..];
    }
  }

  /** What the other writes do to the documents. */
  lemma WritesOnDocuments(k: PrivateDataCipher, db: Db, d: Doc, webpage: bool, id: Uuid, owner: Uuid, doc: Doc)
    ensures d.owner !in db.erased ==>
      && (doc in Step(k, db, PutDoc(d, webpage)).docs <==> doc == d || (doc in db.docs && doc.id != d.id))
      && (d.id in Step(k, db, PutDoc(d, webpage)).webpages <==> webpage)
    ensures d.owner in db.erased ==> Step(k, db, PutDoc(d, webpage)) == db
    ensures doc in Step(k, db, DropDoc(id)).docs <==> doc in db.docs && doc.id != id
    ensures doc in Step(k, db, EraseOwner(owner)).docs <==> doc in db.docs && doc.owner != owner
    ensures owner in Step(k, db, EraseOwner(owner)).erased
  {
    KeepsOthers(db.docs, Some(d.id), None, doc);
    KeepsOthers(db.docs, Some(id), None, doc);
    KeepsOthers(db.docs, None, Some(owner), doc);
  }
}
