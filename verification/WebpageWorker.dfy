/** The webpage worker: fetch, compare digests, chunk, embed, and ask the repository to publish. */
module WebpageWorkers {
  import opened Common
  import opened SyncModel
  import opened SyncRuns
  import opened Windows
  import Embedder

  const MAX_DOCUMENT_BYTES := 4 * 1024 * 1024
  const EMBED_BATCH := 32

  /** What an awaited call yields: a value, or the exception it raises. */
  datatype Await<+T> =
    | Got(value: T)
    | FetchRefused(message: string)
    | EmbeddingRefused(message: string)
    | TimedOut
    | Broke
    | Cancelled

  /** Everything outside the worker: the n-th admission check, page and batch, and the publication. */
  datatype World = World(
    current: nat -> Await<bool>,
    fetch: nat -> Await<WebpagePage>,
    lookup: Await<bool>,
    embed: (nat, seq<string>) -> Await<seq<Vector>>,
    publish: Await<bool>)

  /** What the worker asks of the repository in the end. */
  datatype Request =
    | Publish(content: string, contentHash: ContentHash,
              chunks: Option<seq<IngestChunk>>, embeddings: Option<seq<Vector>>)
    | Report(message: string)
    | Nothing

  /** How an exception leaves `_process`: cancellation propagates, the rest is reported. */
  function Reported<T>(a: Await<T>): Request
    requires !a.Got?
  {
    match a
    case FetchRefused(m) => Report(m)
    case EmbeddingRefused(m) => Report(m)
    case TimedOut => Report("webpage synchronization timed out")
    case Broke => Report("webpage synchronization failed")
    case Cancelled => Nothing
  }

  lemma ReportedMessages<T>(a: Await<T>)
    requires !a.Got?
    ensures a == TimedOut ==> Reported(a) == Report("webpage synchronization timed out")
    ensures a == Broke ==> Reported(a) == Report("webpage synchronization failed")
    ensures a.FetchRefused? || a.EmbeddingRefused? ==> Reported(a) == Report(a.message)
    ensures a == Cancelled <==> Reported(a) == Nothing
  {
  }

  function TotalBytes(sources: seq<Source>): nat {
    if sources == [] then 0
    else TotalBytes(sources[..|sources| - 1]) + Utf8Length(sources[|sources| - 1].page.text)
  }

  /** `"\n\n".join(texts)`. */
  function Joined(sources: seq<Source>): string {
    if sources == [] then ""
    else if |sources| == 1 then sources[0].page.text
    else Joined(sources[..|sources| - 1]) + "\n\n" + sources[|sources| - 1].page.text
  }

  function DigestOf(sources: seq<Source>): Digest {
    seq(|sources|, i requires 0 <= i < |sources| => (sources[i].url, sources[i].page.text))
  }

  /** A digest's pages are these, address by address and text by text. */
  predicate SamePages(pages: Digest, sources: seq<Source>) {
    && |pages| == |sources|
    && forall i :: 0 <= i < |pages| ==> pages[i].0 == sources[i].url && pages[i].1 == sources[i].page.text
  }

  /** The captured hash was made from exactly these pages, for this owner and document if it is keyed. */
  predicate Recalls(claim: WebpageClaim, sources: seq<Source>) {
    match claim.contentHash
    case None => false
    case Some(RawDigest(pages)) => SamePages(pages, sources)
    case Some(Fingerprint(owner, document, pages)) =>
      owner == claim.owner && document == claim.id && SamePages(pages, sources)
  }

  lemma DigestIsOfThePages(pages: Digest, sources: seq<Source>)
    ensures pages == DigestOf(sources) <==> SamePages(pages, sources)
  {
    if SamePages(pages, sources) {
      assert forall i :: 0 <= i < |pages| ==> pages[i] == DigestOf(sources)[i];
    }
  }

  /** Read from the front: the first text, an empty line, and what follows. */
  lemma {:induction false} JoinedFromTheFront(sources: seq<Source>)
    ensures sources == [] ==> Joined(sources) == ""
    ensures |sources| == 1 ==> Joined(sources) == sources[0].page.text
    ensures |sources| > 1 ==> Joined(sources) == sources[0].page.text + "\n\n" + Joined(sources[1..])
  {
    if |sources| > 2 {
      var last := |sources| - 1;
      var front, text := sources[..last], sources[last].page.text;
      JoinedFromTheFront(front);
      assert front[1..] == sources[1..][..last - 1];
      assert Joined(sources[1..]) == Joined(front[1..]) + "\n\n" + text;
      var a, gap, b := sources[0].page.text, "\n\n", Joined(front[1..]);
      assert (a + gap + b) + gap + text == a + gap + (b + gap + text);
    } else if |sources| == 2 {
      assert sources[..1] == [sources[0]] && sources[1..] == [sources[1]];
    }
  }

  function Texts(chunks: seq<IngestChunk>): (r: seq<string>)
    ensures |r| == |chunks|
  {
    seq(|chunks|, i requires 0 <= i < |chunks| => chunks[i].text)
  }

  /** The page source answered every URL of the claim, in order. */
  predicate FetchedFrom(world: World, urls: seq<Url>, sources: seq<Source>) {
    && |sources| <= |urls|
    && forall i :: 0 <= i < |sources| ==>
         sources[i].url == urls[i] && world.fetch(i) == Got(sources[i].page)
  }

  predicate AllVisible(sources: seq<Source>) {
    forall i :: 0 <= i < |sources| ==> !Blank(sources[i].page.text)
  }

  /** The claim's captured hash says the pages have not changed. */
  predicate LooksUnchanged(claim: WebpageClaim, digest: Digest) {
    || claim.contentHash == Some(RawDigest(digest))
    || claim.contentHash == Some(Fingerprint(claim.owner, claim.id, digest))
  }

  /** The request `_process` makes for pages it collected completely. */
  ghost predicate PublishesPages(claim: WebpageClaim, sources: seq<Source>, request: Request) {
    && request.Publish?
    && |sources| == |claim.urls| && AllVisible(sources) && TotalBytes(sources) <= MAX_DOCUMENT_BYTES
    && request.content == Joined(sources)
    && request.contentHash == Fingerprint(claim.owner, claim.id, DigestOf(sources))
    && (if LooksUnchanged(claim, DigestOf(sources)) then request.chunks == None && request.embeddings == None
        else request.chunks == Some(Chunks(sources)) && request.embeddings.Some?
             && |request.embeddings.value| == |Chunks(sources)|)
  }

  /** The vectors are those `embed` gives for each text whenever the count is right. */
  ghost predicate FaithfulWorld(world: World, embed: string -> Vector) {
    forall k, texts :: world.embed(k, texts).Got? && |world.embed(k, texts).value| == |texts| ==>
      forall i :: 0 <= i < |texts| ==> world.embed(k, texts).value[i] == embed(texts[i])
  }

  /** Every admission check passes, and every page of the claim is there, visible and within the limit. */
  ghost predicate PagesAreThere(world: World, claim: WebpageClaim, sources: seq<Source>) {
    && (forall n :: 0 <= n < |claim.urls| ==> world.current(n) == Got(true))
    && FetchedFrom(world, claim.urls, sources) && |sources| == |claim.urls|
    && AllVisible(sources) && TotalBytes(sources) <= 4_194_304
  }

  /** Every batch of 32 chunks is admitted and answered with as many vectors. */
  ghost predicate BatchesAreAnswered(world: World, chunks: seq<IngestChunk>, checksSoFar: nat) {
    forall k :: 0 <= k && 32 * k < |chunks| ==>
      && world.current(checksSoFar + k) == Got(true)
      && world.embed(k, BatchTexts(chunks, k)).Got?
      && |world.embed(k, BatchTexts(chunks, k)).value| == |BatchTexts(chunks, k)|
  }

  /** Nothing goes wrong outside the worker. */
  ghost predicate Smooth(world: World, claim: WebpageClaim, sources: seq<Source>) {
    && (forall n :: world.current(n) == Got(true))
    && FetchedFrom(world, claim.urls, sources) && |sources| == |claim.urls|
    && AllVisible(sources) && TotalBytes(sources) <= MAX_DOCUMENT_BYTES
    && world.lookup.Got?
    && (forall k, texts :: world.embed(k, texts).Got? && |world.embed(k, texts).value| == |texts|)
  }

  lemma {:induction false} BytesGrow(sources: seq<Source>, n: nat)
    requires n <= |sources|
    ensures TotalBytes(sources[..n]) <= TotalBytes(sources)
    decreases |sources|
  {
    if n < |sources| {
      var front := sources[..|sources| - 1];
      BytesGrow(front, n);
      assert front[..n] == sources[..n];
    } else {
      assert sources[..n] == sources;
    }
  }

  lemma LooksUnchangedIff(claim: WebpageClaim, sources: seq<Source>)
    ensures LooksUnchanged(claim, DigestOf(sources)) <==> Recalls(claim, sources)
  {
    if claim.contentHash.Some? {
      DigestIsOfThePages(claim.contentHash.value.digest, sources);
    }
  }

  lemma FetchedAlike(world: World, urls: seq<Url>, sources: seq<Source>, expected: seq<Source>)
    requires FetchedFrom(world, urls, sources) && FetchedFrom(world, urls, expected) && |sources| <= |expected|
    ensures sources == expected[..|sources|]
  {
  }

  lemma BytesOfOneMore(sources: seq<Source>, source: Source)
    ensures TotalBytes(sources + [source]) == TotalBytes(sources) + Utf8Length(source.page.text)
  {
    assert (sources + [source])[..|sources|] == sources;
  }

  lemma VisibleOneMore(sources: seq<Source>, source: Source)
    requires AllVisible(sources) && !Blank(source.page.text)
    ensures AllVisible(sources + [source])
  {
  }

  lemma FetchedOneMore(world: World, urls: seq<Url>, sources: seq<Source>, page: WebpagePage)
    requires FetchedFrom(world, urls, sources) && |sources| < |urls| && world.fetch(|sources|) == Got(page)
    ensures FetchedFrom(world, urls, sources + [Source(urls[|sources|], page)])
  {
  }

  /** Why a turn of the loop over the URLs ends the job, if it does. */
  function TurnEnds(current: Await<bool>, answer: Await<WebpagePage>, bytes: nat): Option<Request> {
    if current == Got(false) then Some(Nothing)
    else if !current.Got? then Some(Reported(current))
    else if !answer.Got? then Some(Reported(answer))
    else if Blank(answer.value.text) then Some(Report("webpage has no readable server-rendered text"))
    else if bytes + Utf8Length(answer.value.text) > 4_194_304 then Some(Report("selected webpage content is too large"))
    else None
  }

  lemma TurnEndsWithNothing(world: World, n: nat, bytes: nat)
    requires TurnEnds(world.current(n), world.fetch(n), bytes) == Some(Nothing)
    ensures
      || (exists n :: world.current(n) == Got(false) || world.current(n) == Cancelled)
      || (exists n :: world.fetch(n) == Cancelled)
  {
  }

  /** One turn of that loop: admission, fetch, readable text, size. `stop` is set when the job ends here. */
  method NextPage(world: World, n: nat, check: nat, bytes: nat)
    returns (page: WebpagePage, total: nat, stop: Option<Request>)
    ensures stop.None? ==>
      && world.current(check) == Got(true) && world.fetch(n) == Got(page) && !Blank(page.text)
      && total == bytes + Utf8Length(page.text) <= MAX_DOCUMENT_BYTES
    ensures stop == TurnEnds(world.current(check), world.fetch(n), bytes)
    ensures stop.Some? ==> !stop.value.Publish?
    ensures stop == Some(Nothing) ==> world.current(check) in {Got(false), Cancelled} || world.fetch(n) == Cancelled
    ensures stop.Some? ==>
      || world.current(check) != Got(true) || !world.fetch(n).Got? || Blank(world.fetch(n).value.text)
      || bytes + Utf8Length(world.fetch(n).value.text) > MAX_DOCUMENT_BYTES
  {
    page, total := WebpagePage("", ""), bytes;
    var current := world.current(check);
    if !current.Got? {
      return page, total, Some(Reported(current));
    }
    if !current.value {
      return page, total, Some(Nothing);
    }
    var answer := world.fetch(n);
    if !answer.Got? {
      return page, total, Some(Reported(answer));
    }
    page := answer.value;
    StripEmptyIffBlank(page.text);
    if Strip(page.text) == "" {
      return page, total, Some(Report("webpage has no readable server-rendered text"));
    }
    total := bytes + Utf8Length(page.text);
    if total > MAX_DOCUMENT_BYTES {
      return page, total, Some(Report("selected webpage content is too large"));
    }
    stop := None;
  }

  lemma OneMoreCollected(world: World, claim: WebpageClaim, sources: seq<Source>, page: WebpagePage)
    requires FetchedFrom(world, claim.urls, sources) && AllVisible(sources) && |sources| < |claim.urls|
    requires world.fetch(|sources|) == Got(page) && !Blank(page.text)
    ensures var more := sources + [Source(claim.urls[|sources|], page)];
      && FetchedFrom(world, claim.urls, more) && AllVisible(more)
      && TotalBytes(more) == TotalBytes(sources) + Utf8Length(page.text)
  {
    var source := Source(claim.urls[|sources|], page);
    BytesOfOneMore(sources, source);
    FetchedOneMore(world, claim.urls, sources, page);
    VisibleOneMore(sources, source);
  }

  lemma BytesUpTo(sources: seq<Source>, n: nat)
    requires n < |sources|
    ensures TotalBytes(sources[..n]) + Utf8Length(sources[n].page.text) <= TotalBytes(sources)
  {
    BytesGrow(sources, n + 1);
    assert sources[..n + 1] == sources[..n] + [sources[n]];
    BytesOfOneMore(sources[..n], sources[n]);
  }

  /** Where all pages are there, no turn ends the job. */
  lemma ThereMeansNoEnd(world: World, claim: WebpageClaim, sources: seq<Source>, expected: seq<Source>)
    requires PagesAreThere(world, claim, expected)
    requires FetchedFrom(world, claim.urls, sources) && |sources| < |claim.urls|
    ensures TurnEnds(world.current(|sources|), world.fetch(|sources|), TotalBytes(sources)).None?
  {
    var n := |sources|;
    FetchedAlike(world, claim.urls, sources, expected);
    BytesUpTo(expected, n);
  }

  /** The loop of `_process` over the URLs. */
  method Collect(world: World, claim: WebpageClaim, ghost expected: seq<Source>)
    returns (sources: seq<Source>, checks: nat, stop: Option<Request>)
    ensures FetchedFrom(world, claim.urls, sources)
    ensures stop.None? ==>
      |sources| == |claim.urls| && AllVisible(sources) && TotalBytes(sources) <= MAX_DOCUMENT_BYTES
    ensures stop.Some? ==> !stop.value.Publish?
    ensures stop.None? ==> checks == |claim.urls| && PagesAreThere(world, claim, sources)
    ensures stop.Some? ==>
      && |sources| < |claim.urls|
      && stop == TurnEnds(world.current(|sources|), world.fetch(|sources|), TotalBytes(sources))
    ensures PagesAreThere(world, claim, expected) ==> stop.None? && sources == expected
  {
    sources := [];
    var bytes := 0;
    checks := 0;
    while |sources| < |claim.urls|
      invariant FetchedFrom(world, claim.urls, sources)
      invariant AllVisible(sources) && checks == |sources|
      invariant forall n :: 0 <= n < checks ==> world.current(n) == Got(true)
      invariant bytes == TotalBytes(sources) <= MAX_DOCUMENT_BYTES
    {
      var page, total;
      page, total, stop := NextPage(world, |sources|, checks, bytes);
      if stop.Some? {
        if PagesAreThere(world, claim, expected) {
          ThereMeansNoEnd(world, claim, sources, expected);
        }
        return;
      }
      OneMoreCollected(world, claim, sources, page);
      checks := checks + 1;
      sources := sources + [Source(claim.urls[|sources|], page)];
      bytes := total;
    }
    stop := None;
    if PagesAreThere(world, claim, expected) {
      FetchedAlike(world, claim.urls, sources, expected);
    }
  }

  /** The windowing loops: pages in order, windows in order, consecutive sequence numbers. */
  method ChunkPages(sources: seq<Source>) returns (chunks: seq<IngestChunk>)
    ensures chunks == Chunks(sources)
  {
    chunks := [];
    var p := 0;
    while p < |sources|
      invariant p <= |sources|
      invariant chunks == Chunks(sources[..p])
    {
      chunks := ChunkPage(sources[p], chunks);
      assert sources[..p + 1][..p] == sources[..p];
      p := p + 1;
    }
    assert sources[..p] == sources;
  }

  /** The chunks of the windows from `start` on, numbered from `first`. */
  function ChunksFrom(source: Source, start: nat, first: nat): seq<IngestChunk> {
    var spans := WindowsFrom(source.page.text, start);
    seq(|spans|, i requires 0 <= i < |spans| =>
      IngestChunk(first + i, Cut(source.page.text, spans[i]), source.url, source.page.url))
  }

  lemma NextChunk(source: Source, start: nat, first: nat)
    requires start < |source.page.text|
    ensures var text := source.page.text; var span := StrippedWindow(text, start);
      ChunksFrom(source, start, first) ==
        if span.lo == span.hi then ChunksFrom(source, start + STRIDE, first)
        else [IngestChunk(first, Cut(text, span), source.url, source.page.url)]
               + ChunksFrom(source, start + STRIDE, first + 1)
  {
  }

  /** What one turn of the loop adds to the chunks so far. */
  function WithPiece(source: Source, chunks: seq<IngestChunk>, piece: string): seq<IngestChunk> {
    if piece == "" then chunks else chunks + [IngestChunk(|chunks|, piece, source.url, source.page.url)]
  }

  lemma OneWindow(source: Source, start: nat, chunks: seq<IngestChunk>, piece: string)
    requires start < |source.page.text|
    requires piece == Strip(source.page.text[start..Min(start + WINDOW, |source.page.text|)])
    ensures var next := WithPiece(source, chunks, piece);
      next + ChunksFrom(source, start + STRIDE, |next|) == chunks + ChunksFrom(source, start, |chunks|)
  {
    StripOfWindow(source.page.text, start);
    NextChunk(source, start, |chunks|);
    if piece != "" {
      var one := [IngestChunk(|chunks|, piece, source.url, source.page.url)];
      var rest := ChunksFrom(source, start + STRIDE, |chunks| + 1);
      assert (chunks + one) + rest == chunks + (one + rest);
    }
  }

  method ChunkPage(source: Source, before: seq<IngestChunk>) returns (chunks: seq<IngestChunk>)
    ensures chunks == before + PageChunks(source, |before|)
  {
    chunks := before;
    var text := source.page.text;
    var start := 0;
    assert PageChunks(source, |before|) == ChunksFrom(source, 0, |before|);
    while start < |text|
      invariant chunks + ChunksFrom(source, start, |chunks|) == before + PageChunks(source, |before|)
    {
      var piece := Strip(text[start..Min(start + WINDOW, |text|)]);
      OneWindow(source, start, chunks, piece);
      if piece != "" {
        chunks := chunks + [IngestChunk(|chunks|, piece, source.url, source.page.url)];
      }
      start := start + STRIDE;
    }
  }

  ghost predicate Aligned(chunks: seq<IngestChunk>, embeddings: seq<Vector>, embed: string -> Vector) {
    |embeddings| <= |chunks| && forall i :: 0 <= i < |embeddings| ==> embeddings[i] == embed(chunks[i].text)
  }

  /** The k-th batch of 32 chunks, the last one with what is left. */
  function BatchTexts(chunks: seq<IngestChunk>, k: nat): seq<string>
    requires 32 * k < |chunks|
  {
    Texts(chunks[32 * k..Min(32 * k + 32, |chunks|)])
  }

  /** The vectors of the k-th batch stand at its chunks' places. */
  ghost predicate AnsweredBatch(world: World, chunks: seq<IngestChunk>, embeddings: seq<Vector>, k: nat) {
    && 32 * k < |chunks| && Min(32 * k + 32, |chunks|) <= |embeddings|
    && world.embed(k, BatchTexts(chunks, k)) == Got(embeddings[32 * k..Min(32 * k + 32, |chunks|)])
  }

  /** Why the k-th batch ends the job, if it does. */
  function BatchEnds(world: World, chunks: seq<IngestChunk>, checksSoFar: nat, k: nat): Option<Request>
    requires 32 * k < |chunks|
  {
    var current, answer := world.current(checksSoFar + k), world.embed(k, BatchTexts(chunks, k));
    if current == Got(false) then Some(Nothing)
    else if !current.Got? then Some(Reported(current))
    else if !answer.Got? then Some(Reported(answer))
    else if |answer.value| != |BatchTexts(chunks, k)| then Some(Report("webpage synchronization failed"))
    else None
  }

  lemma AnsweredStay(world: World, chunks: seq<IngestChunk>, embeddings: seq<Vector>, more: seq<Vector>, n: nat)
    requires 32 * n < |chunks| && |embeddings| == 32 * n
    requires forall k :: 0 <= k < n ==> AnsweredBatch(world, chunks, embeddings, k)
    requires world.embed(n, BatchTexts(chunks, n)) == Got(more) && |more| == |BatchTexts(chunks, n)|
    ensures forall k :: 0 <= k <= n ==> AnsweredBatch(world, chunks, embeddings + more, k)
  {
    forall k | 0 <= k < n ensures AnsweredBatch(world, chunks, embeddings + more, k) {
      assert AnsweredBatch(world, chunks, embeddings, k);
      assert (embeddings + more)[32 * k..32 * k + 32] == embeddings[32 * k..32 * k + 32];
    }
    assert (embeddings + more)[32 * n..Min(32 * n + 32, |chunks|)] == more;
  }

  lemma AnsweredAreAligned(world: World, chunks: seq<IngestChunk>, embeddings: seq<Vector>, embed: string -> Vector)
    requires |embeddings| <= |chunks| && FaithfulWorld(world, embed)
    requires forall k :: 0 <= k && 32 * k < |embeddings| ==> AnsweredBatch(world, chunks, embeddings, k)
    ensures Aligned(chunks, embeddings, embed)
  {
    forall i | 0 <= i < |embeddings| ensures embeddings[i] == embed(chunks[i].text) {
      var k := i / 32;
      assert AnsweredBatch(world, chunks, embeddings, k);
      var answer := world.embed(k, BatchTexts(chunks, k)).value;
      assert answer[i - 32 * k] == embed(BatchTexts(chunks, k)[i - 32 * k]);
    }
  }

  /** One turn of the embedding loop. */
  method NextBatch(world: World, chunks: seq<IngestChunk>, checksSoFar: nat, k: nat)
    returns (vectors: seq<Vector>, stop: Option<Request>)
    requires 32 * k < |chunks|
    ensures stop == BatchEnds(world, chunks, checksSoFar, k)
    ensures stop.Some? ==> !stop.value.Publish?
    ensures stop.None? ==>
      world.embed(k, BatchTexts(chunks, k)) == Got(vectors) && |vectors| == |BatchTexts(chunks, k)|
    ensures stop == Some(Nothing) ==>
      || world.current(checksSoFar + k) in {Got(false), Cancelled}
      || world.embed(k, BatchTexts(chunks, k)) == Cancelled
  {
    vectors := [];
    var current := world.current(checksSoFar + k);
    if !current.Got? {
      return vectors, Some(Reported(current));
    }
    if !current.value {
      return vectors, Some(Nothing);
    }
    var batch := chunks[k * EMBED_BATCH..Min(k * EMBED_BATCH + EMBED_BATCH, |chunks|)];
    var answer := world.embed(k, Texts(batch));
    if !answer.Got? {
      return vectors, Some(Reported(answer));
    }
    if |answer.value| != |batch| {
      return vectors, Some(Report("webpage synchronization failed"));
    }
    return answer.value, None;
  }

  /** The embedding loop: admission is checked before every batch, and counts must match. */
  method EmbedChunks(world: World, chunks: seq<IngestChunk>, checksSoFar: nat, ghost embed: string -> Vector)
    returns (embeddings: seq<Vector>, calls: nat, stop: Option<Request>)
    ensures stop.None? ==> |embeddings| == |chunks|
    ensures FaithfulWorld(world, embed) ==> Aligned(chunks, embeddings, embed)
    ensures stop.Some? ==> !stop.value.Publish?
    ensures stop == Some(Nothing) ==>
      || (exists n :: world.current(n) == Got(false) || world.current(n) == Cancelled)
      || (exists k, texts :: world.embed(k, texts) == Cancelled)
    ensures stop.None? <==> BatchesAreAnswered(world, chunks, checksSoFar)
    ensures stop.None? ==> 32 * calls < |chunks| + 32 && |chunks| <= 32 * calls
    ensures forall k :: 0 <= k && 32 * k < |embeddings| ==> AnsweredBatch(world, chunks, embeddings, k)
    ensures stop.Some? ==>
      && |embeddings| % 32 == 0 && |embeddings| < |chunks|
      && stop == BatchEnds(world, chunks, checksSoFar, |embeddings| / 32)
  {
    embeddings := [];
    calls := 0;
    while calls * EMBED_BATCH < |chunks|
      invariant |embeddings| == Min(32 * calls, |chunks|) && 32 * calls < |chunks| + 32
      invariant forall k :: 0 <= k < calls ==> BatchEnds(world, chunks, checksSoFar, k).None?
      invariant forall k :: 0 <= k < calls ==> AnsweredBatch(world, chunks, embeddings, k)
    {
      var vectors;
      vectors, stop := NextBatch(world, chunks, checksSoFar, calls);
      if stop.Some? {
        EndedBatchIsNotAnswered(world, chunks, checksSoFar, calls);
        EmbeddedSoFar(world, chunks, embeddings, embed);
        return;
      }
      AnsweredStay(world, chunks, embeddings, vectors, calls);
      embeddings := embeddings + vectors;
      calls := calls + 1;
    }
    stop := None;
    EndlessBatchesAreAnswered(world, chunks, checksSoFar);
    EmbeddedSoFar(world, chunks, embeddings, embed);
  }

  lemma EmbeddedSoFar(world: World, chunks: seq<IngestChunk>, embeddings: seq<Vector>, embed: string -> Vector)
    requires |embeddings| <= |chunks|
    requires forall k :: 0 <= k && 32 * k < |embeddings| ==> AnsweredBatch(world, chunks, embeddings, k)
    ensures FaithfulWorld(world, embed) ==> Aligned(chunks, embeddings, embed)
  {
    if FaithfulWorld(world, embed) {
      AnsweredAreAligned(world, chunks, embeddings, embed);
    }
  }

  lemma AdmittedIsTrue(current: Await<bool>)
    requires current.Got? && current != Got(false)
    ensures current == Got(true)
  {
    assert current.value;
  }

  lemma EndlessBatchesAreAnswered(world: World, chunks: seq<IngestChunk>, checksSoFar: nat)
    requires forall k :: 0 <= k && 32 * k < |chunks| ==> BatchEnds(world, chunks, checksSoFar, k).None?
    ensures BatchesAreAnswered(world, chunks, checksSoFar)
  {
    forall k | 0 <= k && 32 * k < |chunks|
      ensures world.current(checksSoFar + k) == Got(true)
      ensures world.embed(k, BatchTexts(chunks, k)).Got?
      ensures |world.embed(k, BatchTexts(chunks, k)).value| == |BatchTexts(chunks, k)|
    {
      assert BatchEnds(world, chunks, checksSoFar, k).None?;
      AdmittedIsTrue(world.current(checksSoFar + k));
    }
  }

  lemma EndedBatchIsNotAnswered(world: World, chunks: seq<IngestChunk>, checksSoFar: nat, k: nat)
    requires 32 * k < |chunks| && BatchEnds(world, chunks, checksSoFar, k).Some?
    ensures !BatchesAreAnswered(world, chunks, checksSoFar)
  {
  }

  class WebpageWorker {
    /** Owners erased while this process lives; their claims are not processed any more. */
    var erasedOwners: set<Owner>
    /** Jobs under way, by claim token. */
    var active: map<Token, Owner>

    constructor ()
      ensures erasedOwners == {} && active == map[]
    {
      erasedOwners := {};
      active := map[];
    }

    /** The first part of `process`: a claim of an erased owner is dropped, others are registered. */
    method Begin(claim: WebpageClaim) returns (accepted: bool)
      modifies this`active
      ensures accepted <==> claim.owner !in erasedOwners
      ensures active == if accepted then old(active)[claim.token := claim.owner] else old(active)
    {
      if claim.owner in erasedOwners {
        return false;
      }
      active := active[claim.token := claim.owner];
      return true;
    }

    method End(claim: WebpageClaim)
      modifies this`active
      ensures active == old(active) - {claim.token}
    {
      active := active - {claim.token};
    }

    /** `erase_user`: the owner's jobs are cancelled and awaited; other owners' jobs go on. */
    method EraseUser(owner: Owner)
      modifies this
      ensures erasedOwners == old(erasedOwners) + {owner}
      ensures forall t :: t in active <==> t in old(active) && old(active)[t] != owner
      ensures forall t :: t in active ==> active[t] == old(active)[t]
    {
      erasedOwners := erasedOwners + {owner};
      active := map t | t in active && active[t] != owner :: active[t];
    }

    /**
     `_process`: either the complete publication of all collected pages, or a report, or nothing
     at all. Pages that look unchanged reach no embedder. A publication that raises is reported
     afterwards like any other failure.
     */
    method Process(world: World, claim: WebpageClaim, ghost embed: string -> Vector, ghost expected: seq<Source>)
      returns (request: Request, afterwards: Request, ghost sources: seq<Source>, embedCalls: nat)
      ensures request.Publish? ==>
        (&& PublishesPages(claim, sources, request) && FetchedFrom(world, claim.urls, sources)
         && (LooksUnchanged(claim, DigestOf(sources)) ==> embedCalls == 0)
         && (FaithfulWorld(world, embed) && request.embeddings.Some? ==>
               Aligned(Chunks(sources), request.embeddings.value, embed)))
      ensures Smooth(world, claim, expected) ==> request.Publish? && sources == expected
      ensures request.Publish? ==>
        && request.contentHash.Fingerprint?
        && request.contentHash.owner == claim.owner && request.contentHash.document == claim.id
        && SamePages(request.contentHash.digest, sources)
        && (request.chunks.None? <==> Recalls(claim, sources))
        && (request.embeddings.None? <==> Recalls(claim, sources))
      ensures request.Publish? <==>
        && PagesAreThere(world, claim, sources) && world.lookup.Got?
        && (Recalls(claim, sources) || BatchesAreAnswered(world, Chunks(sources), |claim.urls|))
      ensures PagesAreThere(world, claim, expected) ==> sources == expected
      ensures PagesAreThere(world, claim, sources) && !world.lookup.Got? ==> request == Reported(world.lookup)
      ensures request.Publish? && !Recalls(claim, sources) ==>
        && 32 * embedCalls < |Chunks(sources)| + 32 && |Chunks(sources)| <= 32 * embedCalls
      ensures |sources| < |claim.urls| ==>
        Some(request) == TurnEnds(world.current(|sources|), world.fetch(|sources|), TotalBytes(sources))
      ensures afterwards == if request.Publish? && !world.publish.Got? then Reported(world.publish) else Nothing
      ensures request == Nothing ==>
        || (exists n :: world.current(n) == Got(false) || world.current(n) == Cancelled)
        || (exists n :: world.fetch(n) == Cancelled)
        || world.lookup == Cancelled
        || (exists k, texts :: world.embed(k, texts) == Cancelled)
    {
      var pages, checks, stop := Collect(world, claim, expected);
      sources := pages;
      embedCalls := 0;
      if stop.Some? {
        if stop == Some(Nothing) {
          TurnEndsWithNothing(world, |sources|, TotalBytes(sources));
        }
        return stop.value, Nothing, sources, 0;
      }
      var digest := DigestOf(pages);
      LooksUnchangedIff(claim, pages);
      DigestIsOfThePages(digest, pages);
      if !world.lookup.Got? {
        return Reported(world.lookup), Nothing, sources, 0;
      }
      var fingerprint := Fingerprint(claim.owner, claim.id, digest);
      var content := Joined(pages);
      var chunks: Option<seq<IngestChunk>> := None;
      var embeddings: Option<seq<Vector>> := None;
      if claim.contentHash != Some(RawDigest(digest)) && claim.contentHash != Some(fingerprint) {
        var made := ChunkPages(pages);
        chunks := Some(made);
        var vectors, calls, halt := EmbedChunks(world, made, checks, embed);
        embedCalls := calls;
        if halt.Some? {
          return halt.value, Nothing, sources, embedCalls;
        }
        embeddings := Some(vectors);
      }
      request := Publish(content, fingerprint, chunks, embeddings);
      afterwards := if world.publish.Got? then Nothing else Reported(world.publish);
    }

    /** `_process` over the embedder's own batches: 32 chunks a call, of up to 128 texts a request. */
    method ProcessOverEmbedder(
      world: World, providers: nat -> Embedder.Provider, claim: WebpageClaim,
      ghost embed: string -> Vector, ghost expected: seq<Source>)
      returns (request: Request, afterwards: Request, ghost sources: seq<Source>)
      requires forall k :: Embedder.Faithful(providers(k), embed)
      ensures request.Publish? ==>
        (&& PublishesPages(claim, sources, request) && FetchedFrom(world, claim.urls, sources)
         && (request.embeddings.Some? ==> Aligned(Chunks(sources), request.embeddings.value, embed)))
      ensures request.Publish? ==>
        && request.contentHash.Fingerprint? && SamePages(request.contentHash.digest, sources)
        && request.contentHash.owner == claim.owner && request.contentHash.document == claim.id
        && (request.chunks.None? <==> Recalls(claim, sources))
      ensures request.Publish? && request.embeddings.Some? ==>
        (&& request.chunks.Some? && |request.embeddings.value| == |request.chunks.value|
         && Aligned(request.chunks.value, request.embeddings.value, embed))
    {
      NestedBatchesAreFaithful(world, providers, embed);
      var calls;
      request, afterwards, sources, calls := Process(OverEmbedder(world, providers), claim, embed, expected);
    }
  }

  function FromEmbedder(r: Result<seq<Vector>, Embedder.ErrorCode>): Await<seq<Vector>> {
    match r
    case Ok(vectors) => Got(vectors)
    case Err(code) => EmbeddingRefused(Embedder.Message(code))
  }

  /** The world whose n-th embedding call is the embedder's, with the provider as it is by then. */
  function OverEmbedder(world: World, providers: nat -> Embedder.Provider): World {
    world.(embed := (k: nat, texts: seq<string>) => FromEmbedder(Embedder.EmbeddedFrom(providers(k), texts, 0)))
  }

  lemma NestedBatchesAreFaithful(world: World, providers: nat -> Embedder.Provider, embed: string -> Vector)
    requires forall k :: Embedder.Faithful(providers(k), embed)
    ensures FaithfulWorld(OverEmbedder(world, providers), embed)
  {
    var w := OverEmbedder(world, providers);
    forall k: nat, texts | w.embed(k, texts).Got?
      ensures w.embed(k, texts).value == Embedder.EmbedAll(embed, texts)
    {
      Embedder.FaithfulIsAligned(providers(k), embed, texts, 0);
      assert Embedder.Rest(texts, 0) == texts;
    }
  }

  // ---- the worker and the repository agree ------------------------------------------------

  lemma {:induction false} JoinedHasText(sources: seq<Source>)
    requires sources != [] && AllVisible(sources)
    ensures Joined(sources) != ""
  {
    assert !Blank(sources[0].page.text);
  }

  /** A token that is current belongs to the claim that was issued it, and the row still agrees. */
  lemma CurrentClaimAgrees(run: Run, i: nat, n: nat, d: DocId)
    requires FreshTokens(run) && i < n <= |run| && ClaimsAt(run, i, d)
    requires IsCurrent(StateAt(run, n), IssuedAt(run, i, d))
    ensures Agrees(StateAt(run, n).pages[d], IssuedAt(run, i, d))
  {
    ClaimedRowTracesBack(run, n, d);
  }

  function FinishOp(claim: WebpageClaim, request: Request, now: Time): Op
    requires request.Publish?
  {
    Finish(claim, request.content, request.contentHash, request.chunks, request.embeddings, now)
  }

  /**
   A worker that reaches `finish` with a current claim is refused exactly when the captured hash
   is the raw digest of the very pages it collected: such a row, not yet migrated and unchanged,
   is the one case where worker and repository disagree about "unchanged".
   */
  lemma FinishRefusedOnlyForRawDigest(run: Run, i: nat, n: nat, d: DocId, sources: seq<Source>,
                                      request: Request, now: Time)
    requires FreshTokens(run) && i < n <= |run| && ClaimsAt(run, i, d)
    requires var claim := IssuedAt(run, i, d);
      IsCurrent(StateAt(run, n), claim) && PublishesPages(claim, sources, request)
    ensures var claim := IssuedAt(run, i, d);
      Commits(StateAt(run, n), FinishOp(claim, request, now)) <==>
        claim.contentHash != Some(RawDigest(DigestOf(sources)))
  {
    var claim := IssuedAt(run, i, d);
    CurrentClaimAgrees(run, i, n, d);
    ReachableIsWellFormed(run, n);
    assert WellFormedPage(StateAt(run, n).pages[d]);
    JoinedHasText(sources);
    VisibleTextYieldsChunks(sources, 0);
  }

  /** Pages with the captured fingerprint replace nothing: only the check columns change. */
  lemma IdenticalPagesReplaceNothing(run: Run, i: nat, n: nat, d: DocId, sources: seq<Source>,
                                     request: Request, now: Time)
    requires FreshTokens(run) && i < n <= |run| && ClaimsAt(run, i, d)
    requires var claim := IssuedAt(run, i, d);
      && IsCurrent(StateAt(run, n), claim) && PublishesPages(claim, sources, request)
      && claim.contentHash == Some(Fingerprint(claim.owner, d, DigestOf(sources)))
    ensures var claim := IssuedAt(run, i, d);
      var p := StateAt(run, n).pages[d];
      && request.chunks == None && request.embeddings == None
      && Commits(StateAt(run, n), FinishOp(claim, request, now))
      && Step(StateAt(run, n), FinishOp(claim, request, now)).pages[d] == Confirmed(p, now)
  {
    CurrentClaimAgrees(run, i, n, d);
    FinishRefusedOnlyForRawDigest(run, i, n, d, sources, request, now);
  }

  /**
   Changed pages are published: a worker that found other pages than the captured hash was made of asks
   with all their chunks, the commit is a publication, and the row then holds exactly those chunks.
   */
  lemma ChangedPagesArePublished(run: Run, i: nat, n: nat, d: DocId, sources: seq<Source>,
                                 request: Request, now: Time)
    requires FreshTokens(run) && i < n <= |run| && ClaimsAt(run, i, d)
    requires var claim := IssuedAt(run, i, d);
      && IsCurrent(StateAt(run, n), claim) && PublishesPages(claim, sources, request)
      && !Recalls(claim, sources)
    ensures var claim := IssuedAt(run, i, d); var op := FinishOp(claim, request, now);
      && request.chunks == Some(Chunks(sources)) && request.chunks.value != []
      && Commits(StateAt(run, n), op) && d in StateAt(run, n).pages
      && StateAt(run, n).pages[d].contentHash != Some(request.contentHash)
      && var after := Step(StateAt(run, n), op).pages;
         && d in after && after[d].lastSyncChanged == Some(true) && after[d].content == request.content
         && after[d].contentHash == Some(request.contentHash)
         && |after[d].chunks| == |Chunks(sources)|
         && forall c :: 0 <= c < |Chunks(sources)| ==> after[d].chunks[c].chunk == Chunks(sources)[c]
  {
    var claim := IssuedAt(run, i, d);
    LooksUnchangedIff(claim, sources);
    CurrentClaimAgrees(run, i, n, d);
    ReachableIsWellFormed(run, n);
    assert WellFormedPage(StateAt(run, n).pages[d]);
    VisibleTextYieldsChunks(sources, 0);
    FinishRefusedOnlyForRawDigest(run, i, n, d, sources, request, now);
  }

  // ---- the disagreement, in a run ---------------------------------------------------------------

  /** One page is registered, claimed and published under its raw digest, requested and claimed again. */
  function RawRun(owner: Owner, d: DocId, url: Url, page: WebpagePage, vectors: seq<Vector>): Run {
    var sources := [Source(url, page)];
    var first := WebpageClaim(d, owner, 1, [url], None, Initial);
    [
      Create(d, owner, "page", [url], false, 0),
      Claim(d, owner, 1, 1),
      Finish(first, page.text, RawDigest(DigestOf(sources)), Some(Chunks(sources)), Some(vectors), 2),
      Enqueue(d, owner, 3),
      Claim(d, owner, 2, 4)]
  }

  ghost predicate Suits(url: Url, page: WebpagePage, vectors: seq<Vector>) {
    && !Blank(page.text) && Utf8Length(page.text) <= MAX_DOCUMENT_BYTES
    && |vectors| == |Chunks([Source(url, page)])|
  }

  lemma RawRunIsClaimed(owner: Owner, d: DocId, url: Url, page: WebpagePage, vectors: seq<Vector>)
    requires Suits(url, page, vectors)
    ensures var run := RawRun(owner, d, url, page, vectors);
      StateAt(run, 2) == Db(map[d := Claimed(NewPage(owner, "page", [url], false, 0), 1, 1)], {})
  {
    var run := RawRun(owner, d, url, page, vectors);
    assert StateAt(run, 0) == EMPTY_DB;
    assert StateAt(run, 1) == Db(map[d := NewPage(owner, "page", [url], false, 0)], {});
    assert Due(NewPage(owner, "page", [url], false, 0), 1);
  }

  lemma DistinctOfOne(url: Url)
    ensures Distinct([url]) == [url]
  {
    assert [url][..0] == [];
  }

  lemma RawRunIsPublished(owner: Owner, d: DocId, url: Url, page: WebpagePage, vectors: seq<Vector>)
    requires Suits(url, page, vectors)
    ensures var run := RawRun(owner, d, url, page, vectors);
      && d in StateAt(run, 3).pages && StateAt(run, 3).erased == {}
      && var p := StateAt(run, 3).pages[d];
      && p.owner == owner && p.sync == Idle && p.urls == [url]
      && p.contentHash == Some(RawDigest(DigestOf([Source(url, page)])))
  {
    var run := RawRun(owner, d, url, page, vectors);
    RawRunIsClaimed(owner, d, url, page, vectors);
    DistinctOfOne(url);
    VisibleTextYieldsChunks([Source(url, page)], 0);
    assert Commits(StateAt(run, 2), run[2]);
  }

  lemma RawRunIsClaimedAgain(owner: Owner, d: DocId, url: Url, page: WebpagePage, vectors: seq<Vector>)
    requires Suits(url, page, vectors)
    ensures var run := RawRun(owner, d, url, page, vectors);
      && FreshTokens(run) && ClaimsAt(run, 4, d)
      && IssuedAt(run, 4, d)
           == WebpageClaim(d, owner, 2, [url], Some(RawDigest(DigestOf([Source(url, page)]))), Manual)
      && IsCurrent(StateAt(run, 5), IssuedAt(run, 4, d))
  {
    var run := RawRun(owner, d, url, page, vectors);
    RawRunIsPublished(owner, d, url, page, vectors);
    assert Commits(StateAt(run, 3), run[3]);
    assert StateAt(run, 4).pages[d].sync == Queued && StateAt(run, 4).pages[d].reason == Manual;
    assert Commits(StateAt(run, 4), run[4]);
  }

  /**
   The unmigrated, unchanged page in a run: at its end the claim is current and the worker, having found
   the very same page, asks for a publication that the repository refuses.
   */
  lemma RawDigestOfSamePagesIsRefused(
    owner: Owner, d: DocId, url: Url, page: WebpagePage, vectors: seq<Vector>, now: Time)
    requires Suits(url, page, vectors)
    ensures var run, sources := RawRun(owner, d, url, page, vectors), [Source(url, page)];
      var request := Publish(page.text, Fingerprint(owner, d, DigestOf(sources)), None, None);
      && ClaimsAt(run, 4, d) && IsCurrent(StateAt(run, 5), IssuedAt(run, 4, d))
      && PublishesPages(IssuedAt(run, 4, d), sources, request)
      && !Commits(StateAt(run, 5), FinishOp(IssuedAt(run, 4, d), request, now))
  {
    var run, sources := RawRun(owner, d, url, page, vectors), [Source(url, page)];
    var request := Publish(page.text, Fingerprint(owner, d, DigestOf(sources)), None, None);
    RawRunIsClaimedAgain(owner, d, url, page, vectors);
    OnePageIsPublished(IssuedAt(run, 4, d), url, page);
    FinishRefusedOnlyForRawDigest(run, 4, 5, d, sources, request, now);
  }

  lemma OnePageIsPublished(claim: WebpageClaim, url: Url, page: WebpagePage)
    requires !Blank(page.text) && Utf8Length(page.text) <= MAX_DOCUMENT_BYTES
    requires claim.urls == [url] && claim.contentHash == Some(RawDigest(DigestOf([Source(url, page)])))
    ensures var sources := [Source(url, page)];
      PublishesPages(claim, sources,
        Publish(page.text, Fingerprint(claim.owner, claim.id, DigestOf(sources)), None, None))
  {
    var sources := [Source(url, page)];
    assert sources[..0] == [];
    assert TotalBytes(sources) == Utf8Length(page.text);
  }
}
