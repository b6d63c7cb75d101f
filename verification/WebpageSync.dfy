/** One synchronization job from its claim to the stored row: the worker and the repository together. */
module WebpageSync {
  import opened Common
  import opened SyncModel
  import opened Windows
  import opened WebpageWorkers
  import opened WebpageRepositories
  import Embedder

  /** The row holds the chunks of these pages, in order, each with the embedding of its own text. */
  ghost predicate HoldsChunks(p: Page, sources: seq<Source>, embed: string -> Vector) {
    && |p.chunks| == |Chunks(sources)|
    && forall c :: 0 <= c < |p.chunks| ==>
         p.chunks[c].chunk == Chunks(sources)[c] && p.chunks[c].embedding == embed(Chunks(sources)[c].text)
  }

  /** `_process` with its `finish`, and the `fail` that follows a report or a `finish` that raises. */
  method RunJob(
    repository: WebpageRepository, worker: WebpageWorker, world: World, providers: nat -> Embedder.Provider,
    claim: WebpageClaim, now: Time, cipherUp: bool, ghost embed: string -> Vector, ghost expected: seq<Source>)
    returns (request: Request, reply: Reply<bool>, ghost sources: seq<Source>)
    requires forall k :: Embedder.Faithful(providers(k), embed)
    modifies repository
    ensures repository.erased == old(repository.erased)
    ensures forall d :: d != claim.id ==>
      && (d in repository.pages <==> d in old(repository.pages))
      && (d in repository.pages ==> repository.pages[d] == old(repository.pages)[d])
    ensures request.Publish? && reply == Answer(true) ==>
      && claim.id in old(repository.pages) && claim.id in repository.pages
      && FetchedFrom(world, claim.urls, sources) && |sources| == |claim.urls|
      && var was, p := old(repository.pages)[claim.id], repository.pages[claim.id];
      && p.status == Ready && p.sync == Idle
      && p.contentHash.Some? && p.contentHash.value.Fingerprint? && SamePages(p.contentHash.value.digest, sources)
      && (p.lastSyncChanged == Some(true) ==> p.content == Joined(sources) && HoldsChunks(p, sources, embed))
      && (p.lastSyncChanged != Some(true) ==>
            p.content == was.content && p.chunks == was.chunks && p.contentHash == was.contentHash)
    ensures !(request.Publish? && reply == Answer(true)) && claim.id in old(repository.pages) ==>
      && claim.id in repository.pages
      && var was, p := old(repository.pages)[claim.id], repository.pages[claim.id];
         p.content == was.content && p.chunks == was.chunks && p.contentHash == was.contentHash
    ensures request == Nothing ==> repository.pages == old(repository.pages)
  {
    var afterwards;
    request, afterwards, sources := worker.ProcessOverEmbedder(world, providers, claim, embed, expected);
    match request {
      case Nothing => reply := Answer(false);
      case Report(message) => reply := repository.Fail(claim, message, now, cipherUp);
      case Publish(content, contentHash, chunks, embeddings) =>
        reply := repository.Finish(claim, content, contentHash, chunks, embeddings, now, cipherUp);
        if reply.Invalid? || reply.Unavailable? {
          var reported := repository.Fail(claim, "webpage synchronization failed", now, cipherUp);
        }
    }
  }
}
