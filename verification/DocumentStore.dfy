/**
 The ingest store as fenced transactions, and re-embedding: chunks are read in one transaction,
 embedded outside any, and the embeddings written in a third step that only compares their number.
 */
module DocumentStores {
  import opened Common

  datatype Status = Processing | Ready | Failed

  datatype Kind = Upload | Webpage

  datatype Stored = Stored(text: string, embedding: Vector)

  /** A document with its chunks in sequence order. */
  datatype Row = Row(owner: Owner, kind: Kind, status: Status, chunks: seq<Stored>)

  datatype Db = Db(docs: map<DocId, Row>, erased: set<Owner>)

  /** The transactions on documents. `texts` and `embeddings` are zipped strictly. */
  datatype Op =
    | Create(doc: DocId, owner: Owner, kind: Kind)
    | Delete(doc: DocId, owner: Owner)
    | ReplaceChunks(doc: DocId, texts: seq<string>, embeddings: seq<Vector>)
    | MarkFailed(doc: DocId)
    | ReplaceEmbeddings(doc: DocId, owner: Owner, embeddings: seq<Vector>)
    | MarkReindexFailed(doc: DocId, owner: Owner)
    | EraseOwner(owner: Owner)

  function Zip(texts: seq<string>, embeddings: seq<Vector>): seq<Stored>
    requires |texts| == |embeddings|
  {
    seq(|texts|, i requires 0 <= i < |texts| => Stored(texts[i], embeddings[i]))
  }

  function Texts(chunks: seq<Stored>): seq<string> {
    seq(|chunks|, i requires 0 <= i < |chunks| => chunks[i].text)
  }

  predicate Owns(db: Db, doc: DocId, owner: Owner) {
    doc in db.docs && db.docs[doc].owner == owner
  }

  /** A document the store re-embeds: its owner's, and not being processed. */
  predicate Reindexable(db: Db, doc: DocId, owner: Owner) {
    Owns(db, doc, owner) && db.docs[doc].status != Processing
  }

  function Step(db: Db, op: Op): (Db, Reply<bool>) {
    match op
    case Create(doc, owner, kind) =>
      if owner in db.erased then (db, OwnerErased)
      else if doc in db.docs then (db, Conflict)
      else (db.(docs := db.docs[doc := Row(owner, kind, Processing, [])]), Answer(true))
    case Delete(doc, owner) =>
      if owner in db.erased then (db, OwnerErased)
      else if !Owns(db, doc, owner) then (db, Answer(false))
      else (db.(docs := db.docs - {doc}), Answer(true))
    case ReplaceChunks(doc, texts, embeddings) =>
      if doc !in db.docs then (db, NotFound)
      else if db.docs[doc].owner in db.erased then (db, OwnerErased)
      else if |texts| != |embeddings| then (db, Invalid)
      else (db.(docs := db.docs[doc := db.docs[doc].(status := Ready, chunks := Zip(texts, embeddings))]), Answer(true))
    case MarkFailed(doc) =>
      if doc !in db.docs then (db, NotFound)
      else if db.docs[doc].owner in db.erased then (db, OwnerErased)
      else (db.(docs := db.docs[doc := db.docs[doc].(status := Failed)]), Answer(true))
    case ReplaceEmbeddings(doc, owner, embeddings) =>
      if owner in db.erased then (db, OwnerErased)
      else if !Reindexable(db, doc, owner) then (db, Answer(false))
      else if |db.docs[doc].chunks| != |embeddings| then (db, Invalid)
      else
        var chunks := Zip(Texts(db.docs[doc].chunks), embeddings);
        (db.(docs := db.docs[doc := db.docs[doc].(status := Ready, chunks := chunks)]), Answer(true))
    case MarkReindexFailed(doc, owner) =>
      if owner in db.erased then (db, OwnerErased)
      else if !Reindexable(db, doc, owner) then (db, Answer(false))
      else (db.(docs := db.docs[doc := db.docs[doc].(status := Failed)]), Answer(true))
    case EraseOwner(owner) =>
      (Db(map d | d in db.docs && db.docs[d].owner != owner :: db.docs[d], db.erased + {owner}), Answer(true))
  }

  function Steps(db: Db, ops: seq<Op>): Db {
    if ops == [] then db else Step(Steps(db, ops[..|ops| - 1]), ops[|ops| - 1]).0
  }

  // ---- what each write does ---------------------------------------------------------------------

  /** Chunk i has text i and embedding i, and nothing else is stored. */
  predicate HoldsEach(chunks: seq<Stored>, texts: seq<string>, embeddings: seq<Vector>) {
    && |chunks| == |texts| == |embeddings|
    && forall i :: 0 <= i < |chunks| ==> chunks[i].text == texts[i] && chunks[i].embedding == embeddings[i]
  }

  /** Nothing but the row of this document changed. */
  predicate OnlyRow(db: Db, after: Db, doc: DocId) {
    && after.erased == db.erased && after.docs.Keys == db.docs.Keys
    && forall d :: d in db.docs && d != doc ==> after.docs[d] == db.docs[d]
  }

  /** `replace_chunks_and_mark_ready`. */
  lemma ReplacingChunks(db: Db, doc: DocId, texts: seq<string>, embeddings: seq<Vector>)
    ensures var (after, reply) := Step(db, ReplaceChunks(doc, texts, embeddings));
      && (reply == NotFound <==> doc !in db.docs)
      && (reply == OwnerErased <==> doc in db.docs && db.docs[doc].owner in db.erased)
      && (reply == Invalid <==> doc in db.docs && db.docs[doc].owner !in db.erased && |texts| != |embeddings|)
      && (reply == Answer(true) || after == db)
      && (reply == Answer(true) || reply == NotFound || reply == OwnerErased || reply == Invalid)
      && (reply == Answer(true) ==>
            && OnlyRow(db, after, doc) && doc in after.docs
            && HoldsEach(after.docs[doc].chunks, texts, embeddings)
            && after.docs[doc] == db.docs[doc].(status := Ready, chunks := after.docs[doc].chunks))
  {
  }

  /** `replace_embeddings_and_mark_ready`: the texts stay, chunk i gets embedding i. */
  lemma ReplacingEmbeddings(db: Db, doc: DocId, owner: Owner, embeddings: seq<Vector>)
    ensures var (after, reply) := Step(db, ReplaceEmbeddings(doc, owner, embeddings));
      var mine := doc in db.docs && db.docs[doc].owner == owner && db.docs[doc].status != Processing;
      && (reply == OwnerErased <==> owner in db.erased)
      && (reply == Answer(false) <==> owner !in db.erased && !mine)
      && (reply == Invalid <==> owner !in db.erased && mine && |db.docs[doc].chunks| != |embeddings|)
      && (reply == Answer(true) || after == db)
      && (reply == Answer(true) || reply == Answer(false) || reply == OwnerErased || reply == Invalid)
      && (reply == Answer(true) ==>
            && OnlyRow(db, after, doc) && doc in after.docs
            && HoldsEach(after.docs[doc].chunks, Texts(db.docs[doc].chunks), embeddings)
            && (forall i :: 0 <= i < |db.docs[doc].chunks| ==>
                  after.docs[doc].chunks[i].text == db.docs[doc].chunks[i].text)
            && after.docs[doc] == db.docs[doc].(status := Ready, chunks := after.docs[doc].chunks))
  {
  }

  /** `mark_failed` and `mark_reindex_failed`: the chunks stay. */
  lemma MarkingFailed(db: Db, doc: DocId, owner: Owner)
    ensures var (after, reply) := Step(db, MarkFailed(doc));
      && (reply == Answer(true) <==> doc in db.docs && db.docs[doc].owner !in db.erased)
      && (reply == NotFound <==> doc !in db.docs)
      && after == if reply == Answer(true) then db.(docs := db.docs[doc := db.docs[doc].(status := Failed)]) else db
    ensures var (after, reply) := Step(db, MarkReindexFailed(doc, owner));
      && (reply == Answer(true) <==>
            && owner !in db.erased && doc in db.docs && db.docs[doc].owner == owner
            && db.docs[doc].status != Processing)
      && (reply == OwnerErased <==> owner in db.erased)
      && after == if reply == Answer(true) then db.(docs := db.docs[doc := db.docs[doc].(status := Failed)]) else db
  {
  }

  /** Creation, deletion and erasure. */
  lemma ComingAndGoing(db: Db, doc: DocId, owner: Owner, kind: Kind)
    ensures owner !in db.erased && doc !in db.docs ==>
      Step(db, Create(doc, owner, kind)).0 == db.(docs := db.docs[doc := Row(owner, kind, Processing, [])])
    ensures owner !in db.erased && doc in db.docs && db.docs[doc].owner == owner ==>
      Step(db, Delete(doc, owner)) == (db.(docs := db.docs - {doc}), Answer(true))
    ensures owner in db.erased || doc !in db.docs || db.docs[doc].owner != owner ==>
      Step(db, Delete(doc, owner)).0 == db
    ensures var after := Step(db, EraseOwner(owner)).0;
      && after.erased == db.erased + {owner}
      && (forall d :: d in after.docs <==> d in db.docs && db.docs[d].owner != owner)
      && (forall d :: d in after.docs ==> after.docs[d] == db.docs[d])
  {
  }

  // ---- coherence --------------------------------------------------------------------------------

  /** Every chunk carries the embedding of its own text. */
  ghost predicate Coherent(embed: string -> Vector, chunks: seq<Stored>) {
    forall i :: 0 <= i < |chunks| ==> chunks[i].embedding == embed(chunks[i].text)
  }

  ghost predicate AllCoherent(embed: string -> Vector, db: Db) {
    forall d :: d in db.docs ==> Coherent(embed, db.docs[d].chunks)
  }

  function Embedded(embed: string -> Vector, texts: seq<string>): seq<Vector> {
    seq(|texts|, i requires 0 <= i < |texts| => embed(texts[i]))
  }

  ghost predicate ErasedOwnNothing(db: Db) {
    forall d :: d in db.docs ==> db.docs[d].owner !in db.erased
  }

  lemma StepKeepsErasedEmpty(db: Db, op: Op)
    requires ErasedOwnNothing(db)
    ensures ErasedOwnNothing(Step(db, op).0) && db.erased <= Step(db, op).0.erased
  {
  }

  lemma {:induction false} StepsKeepErased(db: Db, ops: seq<Op>)
    ensures db.erased <= Steps(db, ops).erased
  {
    if ops != [] {
      StepsKeepErased(db, ops[..|ops| - 1]);
    }
  }

  /** The texts at the time of writing still have the embeddings of those that were read. */
  ghost predicate StillFits(embed: string -> Vector, chunks: seq<Stored>, texts: seq<string>) {
    |chunks| == |texts| && forall i :: 0 <= i < |texts| ==> embed(chunks[i].text) == embed(texts[i])
  }

  /**
   Writing embeddings made from texts read earlier succeeds whenever their number still matches, and
   leaves the document coherent exactly if the texts now stored have the same embeddings.
   */
  lemma LateEmbeddingsFitIff(embed: string -> Vector, db: Db, doc: DocId, owner: Owner, texts: seq<string>)
    requires owner !in db.erased && Reindexable(db, doc, owner)
    ensures var (after, reply) := Step(db, ReplaceEmbeddings(doc, owner, Embedded(embed, texts)));
      && (reply == Answer(true) <==> |db.docs[doc].chunks| == |texts|)
      && (reply == Answer(true) ==>
            && doc in after.docs && Texts(after.docs[doc].chunks) == Texts(db.docs[doc].chunks)
            && (Coherent(embed, after.docs[doc].chunks) <==> StillFits(embed, db.docs[doc].chunks, texts)))
      && (reply != Answer(true) ==> after == db)
  {
    var (after, reply) := Step(db, ReplaceEmbeddings(doc, owner, Embedded(embed, texts)));
    if |db.docs[doc].chunks| == |texts| {
      var was, now := db.docs[doc].chunks, after.docs[doc].chunks;
      assert forall i :: 0 <= i < |texts| ==> now[i] == Stored(was[i].text, embed(texts[i]));
      assert Texts(now) == Texts(was);
    }
  }

  // ---- the service's runs -----------------------------------------------------------------------

  type TaskId = nat

  /** A re-embedding that the route let in, before and after it has read the texts. */
  datatype Task = Admitted(doc: DocId, owner: Owner) | Embedding(doc: DocId, owner: Owner, texts: seq<string>)

  /** `used` are the document ids ever given. */
  datatype Service = Service(db: Db, used: set<DocId>, tasks: map<TaskId, Task>)

  /**
   `Ingests`: the one job of an upload stores the texts parsed from its one original, however often it
   is tried. `Publishes`: a webpage's completion stores whatever texts it collected.
   */
  datatype Event =
    | Creates(doc: DocId, owner: Owner, kind: Kind)
    | Deletes(doc: DocId, owner: Owner)
    | Ingests(doc: DocId)
    | Publishes(doc: DocId, texts: seq<string>)
    | Fails(doc: DocId)
    | LetsIn(task: TaskId, doc: DocId, owner: Owner)
    | Reads(task: TaskId)
    | Writes(task: TaskId)
    | GivesUp(task: TaskId)
    | Erases(owner: Owner)

  predicate IsKind(db: Db, doc: DocId, kind: Kind) {
    doc in db.docs && db.docs[doc].kind == kind
  }

  /** The route refuses owners that are erased, missing documents, webpages, and work in progress. */
  function RouteReply(db: Db, doc: DocId, owner: Owner): Reply<bool> {
    if owner in db.erased then OwnerErased
    else if !Owns(db, doc, owner) then NotFound
    else if db.docs[doc].kind == Webpage || db.docs[doc].status == Processing then Conflict
    else Answer(true)
  }

  lemma RouteLetsInIff(db: Db, doc: DocId, owner: Owner)
    ensures RouteReply(db, doc, owner).Answer? <==>
      && owner !in db.erased && doc in db.docs && db.docs[doc].owner == owner
      && db.docs[doc].kind == Upload && db.docs[doc].status != Processing
  {
  }

  function Commit(s: Service, op: Op): Service {
    s.(db := Step(s.db, op).0)
  }

  function Next(parse: DocId -> seq<string>, embed: string -> Vector, s: Service, ev: Event): Service {
    match ev
    case Creates(doc, owner, kind) =>
      if doc in s.used then s else Commit(s, Create(doc, owner, kind)).(used := s.used + {doc})
    case Deletes(doc, owner) => Commit(s, Delete(doc, owner))
    case Ingests(doc) =>
      if IsKind(s.db, doc, Upload) then Commit(s, ReplaceChunks(doc, parse(doc), Embedded(embed, parse(doc)))) else s
    case Publishes(doc, texts) =>
      if IsKind(s.db, doc, Webpage) then Commit(s, ReplaceChunks(doc, texts, Embedded(embed, texts))) else s
    case Fails(doc) => Commit(s, MarkFailed(doc))
    case LetsIn(t, doc, owner) =>
      if t !in s.tasks && RouteReply(s.db, doc, owner).Answer?
      then s.(tasks := s.tasks[t := Admitted(doc, owner)]) else s
    case Reads(t) =>
      if t in s.tasks && s.tasks[t].Admitted? && s.tasks[t].owner !in s.db.erased
         && Reindexable(s.db, s.tasks[t].doc, s.tasks[t].owner)
      then s.(tasks := s.tasks[t :=
             Embedding(s.tasks[t].doc, s.tasks[t].owner, Texts(s.db.docs[s.tasks[t].doc].chunks))])
      else s
    case Writes(t) =>
      if t in s.tasks && s.tasks[t].Embedding?
      then Commit(s, ReplaceEmbeddings(s.tasks[t].doc, s.tasks[t].owner, Embedded(embed, s.tasks[t].texts)))
             .(tasks := s.tasks - {t})
      else s
    case GivesUp(t) =>
      if t in s.tasks
      then Commit(s, MarkReindexFailed(s.tasks[t].doc, s.tasks[t].owner)).(tasks := s.tasks - {t})
      else s
    case Erases(owner) => Commit(s, EraseOwner(owner))
  }

  const START := Service(Db(map[], {}), {}, map[])

  function After(parse: DocId -> seq<string>, embed: string -> Vector, events: seq<Event>): Service {
    if events == [] then START
    else Next(parse, embed, After(parse, embed, events[..|events| - 1]), events[|events| - 1])
  }

  /** An upload has no chunks yet, or those parsed from its original. */
  predicate FromItsOriginal(parse: DocId -> seq<string>, row: Row, d: DocId) {
    row.kind == Upload ==> row.chunks == [] || Texts(row.chunks) == parse(d)
  }

  predicate TaskSound(parse: DocId -> seq<string>, s: Service, task: Task) {
    && task.doc in s.used && !IsKind(s.db, task.doc, Webpage)
    && (task.Embedding? ==> task.texts == [] || task.texts == parse(task.doc))
  }

  ghost predicate Sound(parse: DocId -> seq<string>, embed: string -> Vector, s: Service) {
    && AllCoherent(embed, s.db) && ErasedOwnNothing(s.db) && s.db.docs.Keys <= s.used
    && (forall d :: d in s.db.docs ==> FromItsOriginal(parse, s.db.docs[d], d))
    && (forall t :: t in s.tasks ==> TaskSound(parse, s, s.tasks[t]))
  }

  lemma ZipIsCoherent(embed: string -> Vector, texts: seq<string>)
    ensures Coherent(embed, Zip(texts, Embedded(embed, texts)))
    ensures Texts(Zip(texts, Embedded(embed, texts))) == texts
  {
  }

  lemma StoringKeepsSound(
    parse: DocId -> seq<string>, embed: string -> Vector, s: Service, doc: DocId, texts: seq<string>)
    requires Sound(parse, embed, s) && doc in s.db.docs
    requires s.db.docs[doc].kind == Upload ==> texts == parse(doc)
    ensures Sound(parse, embed, Commit(s, ReplaceChunks(doc, texts, Embedded(embed, texts))))
  {
    ZipIsCoherent(embed, texts);
    forall t | t in s.tasks
      ensures TaskSound(parse, Commit(s, ReplaceChunks(doc, texts, Embedded(embed, texts))), s.tasks[t])
    {
      assert TaskSound(parse, s, s.tasks[t]);
    }
  }

  /** Texts read from an upload fit whatever the upload holds when they are written, if the counts do. */
  lemma WritingKeepsSound(parse: DocId -> seq<string>, embed: string -> Vector, s: Service, t: TaskId)
    requires Sound(parse, embed, s) && t in s.tasks && s.tasks[t].Embedding?
    ensures Sound(parse, embed, Next(parse, embed, s, Writes(t)))
  {
    var task := s.tasks[t];
    assert TaskSound(parse, s, task);
    var op := ReplaceEmbeddings(task.doc, task.owner, Embedded(embed, task.texts));
    StepKeepsErasedEmpty(s.db, op);
    if task.owner !in s.db.erased && Reindexable(s.db, task.doc, task.owner) {
      LateEmbeddingsFitIff(embed, s.db, task.doc, task.owner, task.texts);
      SameCountSameTexts(parse, s, task);
    }
    var s' := Next(parse, embed, s, Writes(t));
    forall o | o in s'.tasks ensures TaskSound(parse, s', s'.tasks[o]) {
      assert TaskSound(parse, s, s.tasks[o]);
    }
  }

  lemma SameCountSameTexts(parse: DocId -> seq<string>, s: Service, task: Task)
    requires TaskSound(parse, s, task) && task.Embedding? && task.doc in s.db.docs
    requires FromItsOriginal(parse, s.db.docs[task.doc], task.doc)
    ensures var chunks := s.db.docs[task.doc].chunks;
      |chunks| == |task.texts| ==> forall i :: 0 <= i < |chunks| ==> chunks[i].text == task.texts[i]
  {
    var chunks := s.db.docs[task.doc].chunks;
    if chunks != [] && |chunks| == |task.texts| {
      assert Texts(chunks) == task.texts;
      assert forall i :: 0 <= i < |chunks| ==> Texts(chunks)[i] == chunks[i].text;
    }
  }

  /** Transactions that store no text and no embedding. */
  lemma OtherCommitsKeepSound(parse: DocId -> seq<string>, embed: string -> Vector, s: Service, op: Op)
    requires Sound(parse, embed, s)
    requires op.Delete? || op.MarkFailed? || op.MarkReindexFailed? || op.EraseOwner?
    ensures Sound(parse, embed, Commit(s, op))
  {
    var s' := Commit(s, op);
    forall t | t in s.tasks ensures TaskSound(parse, s', s.tasks[t]) {
      assert TaskSound(parse, s, s.tasks[t]);
    }
  }

  lemma CreatingKeepsSound(
    parse: DocId -> seq<string>, embed: string -> Vector, s: Service, doc: DocId, owner: Owner, kind: Kind)
    requires Sound(parse, embed, s)
    ensures Sound(parse, embed, Next(parse, embed, s, Creates(doc, owner, kind)))
  {
    var s' := Next(parse, embed, s, Creates(doc, owner, kind));
    forall t | t in s.tasks ensures TaskSound(parse, s', s.tasks[t]) {
      assert TaskSound(parse, s, s.tasks[t]);
    }
  }

  lemma TakingTasksKeepsSound(parse: DocId -> seq<string>, embed: string -> Vector, s: Service, ev: Event)
    requires Sound(parse, embed, s) && (ev.LetsIn? || ev.Reads?)
    ensures Sound(parse, embed, Next(parse, embed, s, ev))
  {
    if ev.Reads? && ev.task in s.tasks {
      assert TaskSound(parse, s, s.tasks[ev.task]);
    }
  }

  lemma FewerTasksStaySound(parse: DocId -> seq<string>, embed: string -> Vector, s: Service, t: TaskId)
    requires Sound(parse, embed, s)
    ensures Sound(parse, embed, s.(tasks := s.tasks - {t}))
  {
    var s' := s.(tasks := s.tasks - {t});
    forall o | o in s'.tasks ensures TaskSound(parse, s', s'.tasks[o]) {
      assert TaskSound(parse, s, s.tasks[o]);
    }
  }

  lemma NextKeepsSound(parse: DocId -> seq<string>, embed: string -> Vector, s: Service, ev: Event)
    requires Sound(parse, embed, s)
    ensures Sound(parse, embed, Next(parse, embed, s, ev))
  {
    match ev
    case Creates(doc, owner, kind) => CreatingKeepsSound(parse, embed, s, doc, owner, kind);
    case Deletes(doc, owner) => OtherCommitsKeepSound(parse, embed, s, Delete(doc, owner));
    case Ingests(doc) => if IsKind(s.db, doc, Upload) { StoringKeepsSound(parse, embed, s, doc, parse(doc)); }
    case Publishes(doc, texts) => if IsKind(s.db, doc, Webpage) { StoringKeepsSound(parse, embed, s, doc, texts); }
    case Fails(doc) => OtherCommitsKeepSound(parse, embed, s, MarkFailed(doc));
    case LetsIn(_, _, _) => TakingTasksKeepsSound(parse, embed, s, ev);
    case Reads(_) => TakingTasksKeepsSound(parse, embed, s, ev);
    case Writes(t) => if t in s.tasks && s.tasks[t].Embedding? { WritingKeepsSound(parse, embed, s, t); }
    case GivesUp(t) =>
      if t in s.tasks {
        OtherCommitsKeepSound(parse, embed, s, MarkReindexFailed(s.tasks[t].doc, s.tasks[t].owner));
        FewerTasksStaySound(parse, embed, Commit(s, MarkReindexFailed(s.tasks[t].doc, s.tasks[t].owner)), t);
      }
    case Erases(owner) => OtherCommitsKeepSound(parse, embed, s, EraseOwner(owner));
  }

  lemma {:induction false} SoundInEveryRun(parse: DocId -> seq<string>, embed: string -> Vector, events: seq<Event>)
    ensures Sound(parse, embed, After(parse, embed, events))
  {
    if events != [] {
      SoundInEveryRun(parse, embed, events[..|events| - 1]);
      NextKeepsSound(parse, embed, After(parse, embed, events[..|events| - 1]), events[|events| - 1]);
    }
  }

  /**
   In every run of uploads, ingests, publications, deletions, erasures and re-embeddings, whose texts
   may have been read at any earlier point, every chunk has the embedding of its own text; and erased
   owners have no document.
   */
  lemma EmbeddingsStayWithTheirTexts(parse: DocId -> seq<string>, embed: string -> Vector, events: seq<Event>)
    ensures AllCoherent(embed, After(parse, embed, events).db)
    ensures ErasedOwnNothing(After(parse, embed, events).db)
  {
    SoundInEveryRun(parse, embed, events);
  }

  /** A job that is through has stored every text parsed from the upload, in order, each with its embedding. */
  lemma IngestedIsParsed(parse: DocId -> seq<string>, embed: string -> Vector, s: Service, doc: DocId)
    requires doc in s.db.docs && s.db.docs[doc].kind == Upload && s.db.docs[doc].owner !in s.db.erased
    ensures var after := Next(parse, embed, s, Ingests(doc)).db;
      && doc in after.docs && after.docs[doc].status == Ready && |after.docs[doc].chunks| == |parse(doc)|
      && forall i :: 0 <= i < |parse(doc)| ==>
           after.docs[doc].chunks[i] == Stored(parse(doc)[i], embed(parse(doc)[i]))
  {
    ReplacingChunks(s.db, doc, parse(doc), Embedded(embed, parse(doc)));
  }

  /** Re-embedding never touches a webpage, neither when it succeeds nor when it gives up. */
  lemma WebpagesAreNotReembedded(
    parse: DocId -> seq<string>, embed: string -> Vector, events: seq<Event>, ev: Event, d: DocId)
    requires IsKind(After(parse, embed, events).db, d, Webpage) && (ev.Writes? || ev.GivesUp?)
    ensures var s := After(parse, embed, events);
      && d in Next(parse, embed, s, ev).db.docs && Next(parse, embed, s, ev).db.docs[d] == s.db.docs[d]
  {
    SoundInEveryRun(parse, embed, events);
    var s := After(parse, embed, events);
    if ev.task in s.tasks {
      assert TaskSound(parse, s, s.tasks[ev.task]);
    }
  }

  // ---- the call itself --------------------------------------------------------------------------

  datatype Outcome = Done(found: bool) | ErasedMeanwhile | ReindexFailed

  class DocumentStore {
    var db: Db

    constructor (db: Db)
      ensures this.db == db
    {
      this.db := db;
    }

    /** One transaction. */
    method Do(op: Op) returns (reply: Reply<bool>)
      modifies this
      ensures (db, reply) == Step(old(db), op)
    {
      var (after, r) := Step(db, op);
      db := after;
      reply := r;
    }

    /** Whatever other tasks commit while this one is suspended. */
    method Others(ops: seq<Op>)
      modifies this
      ensures db == Steps(old(db), ops)
    {
      var i := 0;
      ghost var start := db;
      assert ops[..0] == [];
      while i < |ops|
        invariant i <= |ops| && db == Steps(start, ops[..i])
      {
        assert ops[..i + 1][..i] == ops[..i];
        var reply := Do(ops[i]);
        i := i + 1;
      }
      assert ops[..i] == ops;
    }

    /** The chunks' texts in order, under admission; nothing for a document that may not be re-embedded. */
    method ReadChunks(doc: DocId, owner: Owner) returns (r: Reply<Option<seq<string>>>)
      ensures r.OwnerErased? <==> owner in db.erased
      ensures r.Answer? <==> owner !in db.erased
      ensures r.Answer? ==> (r.value.Some? <==> Reindexable(db, doc, owner))
      ensures r.Answer? && r.value.Some? ==>
        && |r.value.value| == |db.docs[doc].chunks|
        && forall i :: 0 <= i < |r.value.value| ==> r.value.value[i] == db.docs[doc].chunks[i].text
    {
      if owner in db.erased {
        return OwnerErased;
      }
      if doc !in db.docs || db.docs[doc].owner != owner || db.docs[doc].status == Processing {
        return Answer(None);
      }
      var texts: seq<string> := [];
      for i := 0 to |db.docs[doc].chunks|
        invariant |texts| == i && forall j :: 0 <= j < i ==> texts[j] == db.docs[doc].chunks[j].text
      {
        texts := texts + [db.docs[doc].chunks[i].text];
      }
      r := Answer(Some(texts));
    }

    /** The failure path: recorded on a document that is still there, else reported as not found. */
    method FailReindex(doc: DocId, owner: Owner) returns (outcome: Outcome)
      modifies this
      ensures db == Step(old(db), MarkReindexFailed(doc, owner)).0
      ensures outcome ==
        if owner in old(db).erased then ErasedMeanwhile
        else if Reindexable(old(db), doc, owner) then ReindexFailed
        else Done(false)
    {
      var reply := Do(MarkReindexFailed(doc, owner));
      if reply == OwnerErased {
        return ErasedMeanwhile;
      }
      outcome := if reply == Answer(true) then ReindexFailed else Done(false);
    }

    /**
     `reindex`, with what other tasks commit before it reads, before and while it embeds, and before it
     writes. It reports success exactly if the owner is not erased by the time of the write, the document
     was re-embeddable when read and is so when written, it had chunks, embedding worked and the number
     of chunks is what it was; it then wrote the embeddings of the texts it had read.
     */
    method Reindex(embed: string -> Vector, works: bool, doc: DocId, owner: Owner,
                   before: seq<Op>, between: seq<Op>, during: seq<Op>, after: seq<Op>)
      returns (outcome: Outcome)
      modifies this
      ensures
        var atRead := Steps(old(db), before);
        var atWrite := Steps(Steps(Steps(atRead, between), during), after);
        outcome == Done(true) <==>
          && owner !in atWrite.erased && Reindexable(atRead, doc, owner) && Reindexable(atWrite, doc, owner)
          && atRead.docs[doc].chunks != [] && works
          && |atWrite.docs[doc].chunks| == |atRead.docs[doc].chunks|
      ensures outcome == Done(true) ==>
        var atRead := Steps(old(db), before);
        var atWrite := Steps(Steps(Steps(atRead, between), during), after);
        && doc in atRead.docs
        && db == Step(atWrite, ReplaceEmbeddings(doc, owner, Embedded(embed, Texts(atRead.docs[doc].chunks)))).0
      ensures
        var atRead := Steps(old(db), before);
        var embedded := Steps(Steps(atRead, between), during);
        outcome == ErasedMeanwhile <==>
          || owner in atRead.erased
          || (Reindexable(atRead, doc, owner) && atRead.docs[doc].chunks != []
              && (owner in embedded.erased || (works && owner in Steps(embedded, after).erased)))
      ensures
        var atRead := Steps(old(db), before);
        var embedded := Steps(Steps(atRead, between), during);
        var atWrite := Steps(embedded, after);
        outcome == ReindexFailed <==>
          && owner !in atRead.erased && Reindexable(atRead, doc, owner)
          && (|| atRead.docs[doc].chunks == []
              || (!works && owner !in embedded.erased && Reindexable(embedded, doc, owner))
              || (works && owner !in atWrite.erased && Reindexable(atWrite, doc, owner)
                  && |atWrite.docs[doc].chunks| != |atRead.docs[doc].chunks|))
      ensures outcome == ReindexFailed ==> doc in db.docs && db.docs[doc].status == Failed
      ensures outcome == ErasedMeanwhile ==> owner in db.erased
    {
      ghost var atRead := Steps(db, before);
      ghost var between' := Steps(atRead, between);
      ghost var during' := Steps(between', during);
      StepsKeepErased(db, before);
      StepsKeepErased(atRead, between);
      StepsKeepErased(between', during);
      StepsKeepErased(during', after);
      if owner in db.erased {
        return ErasedMeanwhile;
      }
      Others(before);
      var read := ReadChunks(doc, owner);
      if read.OwnerErased? {
        return ErasedMeanwhile;
      }
      if read.value.None? {
        return Done(false);
      }
      var texts := read.value.value;
      assert texts == Texts(atRead.docs[doc].chunks);
      if texts == [] {
        outcome := FailReindex(doc, owner);
        return;
      }
      Others(between);
      if owner in db.erased {
        return ErasedMeanwhile;
      }
      Others(during);
      if !works {
        outcome := FailReindex(doc, owner);
        return;
      }
      if owner in db.erased {
        return ErasedMeanwhile;
      }
      Others(after);
      var reply := Do(ReplaceEmbeddings(doc, owner, Embedded(embed, texts)));
      if reply == OwnerErased {
        return ErasedMeanwhile;
      }
      if reply == Invalid {
        outcome := FailReindex(doc, owner);
      } else {
        outcome := Done(reply == Answer(true));
      }
    }
  }
}
