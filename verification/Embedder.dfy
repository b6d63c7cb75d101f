/** Embedding provider client: batches of 128, three attempts per batch with doubling delays. */
module Embedder {
  import opened Common

  const BATCH_SIZE := 128
  const MAX_ATTEMPTS := 3
  const INITIAL_BACKOFF := 0.5

  datatype ErrorCode =
    | AuthenticationFailed | PermissionDenied | RateLimitExceeded
    | ProviderUnavailable | CredentialUnavailable | RequestFailed

  /** One provider call: vectors in request order, or the failure it raises. */
  datatype Attempt =
    | Vectors(vectors: seq<Vector>)
    | CredentialError(code: ErrorCode)
    | HttpStatus(status: int)
    | ConnectionError
    | OtherError

  /** The provider's answer to a batch (numbered from 0) on attempt 1, 2 or 3. */
  type Provider = (nat, nat, seq<string>) -> Attempt

  function Classify(a: Attempt): ErrorCode
    requires !a.Vectors?
  {
    match a
    case CredentialError(code) => code
    case HttpStatus(s) =>
      if s == 401 then AuthenticationFailed
      else if s == 403 then PermissionDenied
      else if s == 429 then RateLimitExceeded
      else if 500 <= s < 600 then ProviderUnavailable
      else RequestFailed
    case ConnectionError => ProviderUnavailable
    case OtherError => RequestFailed
  }

  /** Which failures are told apart. */
  lemma ClassifyByCause(a: Attempt)
    requires !a.Vectors?
    ensures a.CredentialError? ==> Classify(a) == a.code
    ensures a == ConnectionError ==> Classify(a) == ProviderUnavailable
    ensures a == OtherError ==> Classify(a) == RequestFailed
    ensures a.HttpStatus? ==>
      && (Classify(a) == AuthenticationFailed <==> a.status == 401)
      && (Classify(a) == PermissionDenied <==> a.status == 403)
      && (Classify(a) == RateLimitExceeded <==> a.status == 429)
      && (Classify(a) == ProviderUnavailable <==> 500 <= a.status <= 599)
      && Classify(a) != CredentialUnavailable
  {
  }

  /** What a user is told of a failure. */
  function Message(code: ErrorCode): string {
    match code
    case AuthenticationFailed =>
      "Embedding provider authentication failed. Contact an administrator to check the API key."
    case PermissionDenied => "Embedding provider access was denied. Contact an administrator to check permissions."
    case RateLimitExceeded => "Embedding provider rate limit or quota was exceeded. Please try again later."
    case ProviderUnavailable => "Embedding provider is temporarily unavailable. Please try again later."
    case CredentialUnavailable => "Embedding credentials are unavailable. Contact an administrator."
    case RequestFailed => "Embedding request failed. Please try again later."
  }

  function Backoff(attempt: nat): real
    requires attempt >= 1
  {
    if attempt == 1 then INITIAL_BACKOFF else 2.0 * Backoff(attempt - 1)
  }

  /** Attempts `1 .. n` of this batch all failed. */
  predicate AllFail(provider: Provider, batch: nat, texts: seq<string>, n: nat) {
    forall a :: 1 <= a <= n ==> !provider(batch, a, texts).Vectors?
  }

  /** The answer of the first attempt from `a` on that succeeds, or the failure of the last. */
  function AnswerFrom(provider: Provider, batch: nat, texts: seq<string>, a: nat): Result<seq<Vector>, ErrorCode>
    requires 1 <= a <= MAX_ATTEMPTS
    decreases MAX_ATTEMPTS - a
  {
    var answer := provider(batch, a, texts);
    if answer.Vectors? then Ok(answer.vectors)
    else if a == MAX_ATTEMPTS then Err(Classify(answer))
    else AnswerFrom(provider, batch, texts, a + 1)
  }

  function BatchAnswer(provider: Provider, batch: nat, texts: seq<string>): Result<seq<Vector>, ErrorCode> {
    AnswerFrom(provider, batch, texts, 1)
  }

  /**
   The first successful attempt decides; only after the last failure is an error raised, with
   that failure's code. `slept` lists the pauses, one after each failure but the last.
   */
  method EmbedBatchWithRetry(provider: Provider, batch: nat, texts: seq<string>)
    returns (r: Result<seq<Vector>, ErrorCode>, slept: seq<real>)
    ensures r == BatchAnswer(provider, batch, texts)
    ensures r.Ok? ==> exists a :: (1 <= a <= MAX_ATTEMPTS && AllFail(provider, batch, texts, a - 1)
      && provider(batch, a, texts) == Vectors(r.value) && |slept| == a - 1)
    ensures r.Err? ==> (AllFail(provider, batch, texts, MAX_ATTEMPTS)
      && r.error == Classify(provider(batch, MAX_ATTEMPTS, texts)) && |slept| == MAX_ATTEMPTS - 1)
    ensures forall k :: 0 <= k < |slept| ==> slept[k] == Backoff(k + 1)
    ensures slept == [] || slept == [0.5] || slept == [0.5, 1.0]
    ensures r.Ok? <==> exists a :: 1 <= a <= 3 && provider(batch, a, texts).Vectors?
    ensures r.Ok? ==>
      && provider(batch, |slept| + 1, texts) == Vectors(r.value)
      && forall a :: 1 <= a <= |slept| ==> !provider(batch, a, texts).Vectors?
    ensures r.Err? ==> slept == [0.5, 1.0] && r.error == Classify(provider(batch, 3, texts))
  {
    var delay := INITIAL_BACKOFF;
    var code := RequestFailed;
    slept := [];
    var attempt := 1;
    while attempt <= MAX_ATTEMPTS
      invariant 1 <= attempt <= MAX_ATTEMPTS + 1
      invariant AllFail(provider, batch, texts, attempt - 1)
      invariant attempt <= MAX_ATTEMPTS ==>
        BatchAnswer(provider, batch, texts) == AnswerFrom(provider, batch, texts, attempt)
      invariant attempt > MAX_ATTEMPTS ==> BatchAnswer(provider, batch, texts) == Err(code)
      invariant delay == Backoff(Min(attempt, MAX_ATTEMPTS))
      invariant attempt > 1 ==> code == Classify(provider(batch, attempt - 1, texts))
      invariant |slept| == Min(attempt, MAX_ATTEMPTS) - 1
      invariant forall k :: 0 <= k < |slept| ==> slept[k] == Backoff(k + 1)
    {
      var answer := provider(batch, attempt, texts);
      if answer.Vectors? {
        return Ok(answer.vectors), slept;
      }
      code := Classify(answer);
      if attempt < MAX_ATTEMPTS {
        slept := slept + [delay];
        delay := 2.0 * delay;
      }
      attempt := attempt + 1;
    }
    r := Err(code);
  }

  function EmbedAll(embed: string -> Vector, texts: seq<string>): (r: seq<Vector>)
    ensures |r| == |texts|
  {
    seq(|texts|, i requires 0 <= i < |texts| => embed(texts[i]))
  }

  /** When the provider answers at all, vector i is the embedding of input i. */
  ghost predicate Faithful(provider: Provider, embed: string -> Vector) {
    forall b, a, texts :: provider(b, a, texts).Vectors? ==>
      provider(b, a, texts).vectors == EmbedAll(embed, texts)
  }

  /** The b-th 128 texts, the last ones with what is left, get no answer on three attempts. */
  predicate NeverAnswered(provider: Provider, texts: seq<string>, b: nat) {
    && 128 * b < |texts|
    && var piece := texts[128 * b..Min(128 * b + 128, |texts|)];
       forall a :: 1 <= a <= 3 ==> !provider(b, a, piece).Vectors?
  }

  function Slice(texts: seq<string>, batch: nat): seq<string> {
    var lo := Min(batch * BATCH_SIZE, |texts|);
    texts[lo..Min(lo + BATCH_SIZE, |texts|)]
  }

  /** The batches from `batch` on, each answered in turn; the first that fails ends it. */
  function EmbeddedFrom(provider: Provider, texts: seq<string>, batch: nat): Result<seq<Vector>, ErrorCode>
    decreases |texts| - batch * BATCH_SIZE
  {
    if batch * BATCH_SIZE >= |texts| then Ok([])
    else
      var first := BatchAnswer(provider, batch, Slice(texts, batch));
      if first.Err? then first
      else
        var rest := EmbeddedFrom(provider, texts, batch + 1);
        if rest.Err? then rest else Ok(first.value + rest.value)
  }

  /** What the provider is asked for, whatever the number of vectors it answers a batch with. */
  method Embed(provider: Provider, texts: seq<string>) returns (r: Result<seq<Vector>, ErrorCode>)
    ensures r == EmbeddedFrom(provider, texts, 0)
    ensures r.Err? <==> exists b ::
      (0 <= b && b * BATCH_SIZE < |texts| && AllFail(provider, b, Slice(texts, b), MAX_ATTEMPTS))
    ensures r.Err? <==> exists b: nat :: NeverAnswered(provider, texts, b)
  {
    var embeddings: seq<Vector> := [];
    var batch := 0;
    var start := 0;
    PrependedNothing(EmbeddedFrom(provider, texts, 0));
    while start < |texts|
      invariant start == batch * BATCH_SIZE
      invariant EmbeddedFrom(provider, texts, 0) == Prepended(embeddings, EmbeddedFrom(provider, texts, batch))
      invariant forall b :: 0 <= b < batch ==> !AllFail(provider, b, Slice(texts, b), MAX_ATTEMPTS)
    {
      var piece := texts[start..Min(start + BATCH_SIZE, |texts|)];
      assert piece == Slice(texts, batch);
      var answer, _ := EmbedBatchWithRetry(provider, batch, piece);
      if answer.Err? {
        NeverAnsweredIsAllFail(provider, texts);
        return Err(answer.error);
      }
      PrependedTwice(embeddings, answer.value, EmbeddedFrom(provider, texts, batch + 1));
      embeddings := embeddings + answer.value;
      batch := batch + 1;
      start := start + BATCH_SIZE;
    }
    assert embeddings + [] == embeddings;
    r := Ok(embeddings);
    NeverAnsweredIsAllFail(provider, texts);
  }

  lemma NeverAnsweredIsAllFail(provider: Provider, texts: seq<string>)
    ensures (exists b: nat :: NeverAnswered(provider, texts, b))
        <==> exists b :: (0 <= b && b * BATCH_SIZE < |texts| && AllFail(provider, b, Slice(texts, b), MAX_ATTEMPTS))
  {
    forall b | 0 <= b && b * BATCH_SIZE < |texts|
      ensures AllFail(provider, b, Slice(texts, b), MAX_ATTEMPTS) <==> NeverAnswered(provider, texts, b)
    {
      assert Slice(texts, b) == texts[128 * b..Min(128 * b + 128, |texts|)];
    }
  }

  function Prepended(front: seq<Vector>, r: Result<seq<Vector>, ErrorCode>): Result<seq<Vector>, ErrorCode> {
    if r.Err? then r else Ok(front + r.value)
  }

  lemma PrependedNothing(r: Result<seq<Vector>, ErrorCode>)
    ensures Prepended([], r) == r
  {
    if r.Ok? {
      assert [] + r.value == r.value;
    }
  }

  lemma PrependedTwice(a: seq<Vector>, b: seq<Vector>, r: Result<seq<Vector>, ErrorCode>)
    ensures Prepended(a, Prepended(b, r)) == Prepended(a + b, r)
  {
    if r.Ok? {
      assert a + (b + r.value) == (a + b) + r.value;
    }
  }

  // ---- alignment --------------------------------------------------------------------------------

  /** An answer with one vector per text has them in order. Nothing is said of other answers. */
  ghost predicate Honest(provider: Provider, embed: string -> Vector) {
    forall b, a, texts :: provider(b, a, texts).Vectors? && |provider(b, a, texts).vectors| == |texts| ==>
      provider(b, a, texts).vectors == EmbedAll(embed, texts)
  }

  function BatchCount(provider: Provider, texts: seq<string>, batch: nat): nat {
    var r := BatchAnswer(provider, batch, Slice(texts, batch));
    if r.Ok? then |r.value| else 0
  }

  /** No batch from `batch` on is answered with more vectors than it has texts. */
  predicate NoneLong(provider: Provider, texts: seq<string>, batch: nat) {
    forall b: nat :: batch <= b < |texts| && b * BATCH_SIZE < |texts| ==>
      BatchCount(provider, texts, b) <= |Slice(texts, b)|
  }

  predicate EachRight(provider: Provider, texts: seq<string>, batch: nat) {
    forall b: nat :: batch <= b < |texts| && b * BATCH_SIZE < |texts| ==>
      BatchCount(provider, texts, b) == |Slice(texts, b)|
  }

  lemma {:induction false} AnswerComesFromAnAttempt(provider: Provider, batch: nat, texts: seq<string>, a: nat)
    requires 1 <= a <= MAX_ATTEMPTS && AnswerFrom(provider, batch, texts, a).Ok?
    ensures exists k :: provider(batch, k, texts) == Vectors(AnswerFrom(provider, batch, texts, a).value)
    decreases MAX_ATTEMPTS - a
  {
    if !provider(batch, a, texts).Vectors? {
      AnswerComesFromAnAttempt(provider, batch, texts, a + 1);
    } else {
      assert provider(batch, a, texts) == Vectors(AnswerFrom(provider, batch, texts, a).value);
    }
  }

  function Rest(texts: seq<string>, batch: nat): seq<string> {
    texts[Min(batch * BATCH_SIZE, |texts|)..]
  }

  lemma RestSplits(texts: seq<string>, batch: nat)
    requires batch * BATCH_SIZE < |texts|
    ensures Rest(texts, batch) == Slice(texts, batch) + Rest(texts, batch + 1)
  {
  }

  /** With a faithful provider the result is aligned with the texts, vector by vector, across batches. */
  lemma {:induction false} FaithfulIsAligned(
    provider: Provider, embed: string -> Vector, texts: seq<string>, batch: nat)
    requires Faithful(provider, embed) && EmbeddedFrom(provider, texts, batch).Ok?
    ensures EmbeddedFrom(provider, texts, batch).value == EmbedAll(embed, Rest(texts, batch))
    decreases |texts| - batch * BATCH_SIZE
  {
    if batch * BATCH_SIZE < |texts| {
      AnswerComesFromAnAttempt(provider, batch, Slice(texts, batch), 1);
      FaithfulIsAligned(provider, embed, texts, batch + 1);
      RestSplits(texts, batch);
    }
  }

  lemma {:induction false} NoneLongInAll(provider: Provider, texts: seq<string>, batch: nat)
    requires NoneLong(provider, texts, batch) && EmbeddedFrom(provider, texts, batch).Ok?
    ensures |EmbeddedFrom(provider, texts, batch).value| <= |Rest(texts, batch)|
    decreases |texts| - batch * BATCH_SIZE
  {
    if batch * BATCH_SIZE < |texts| {
      assert BatchCount(provider, texts, batch) <= |Slice(texts, batch)|;
      NoneLongInAll(provider, texts, batch + 1);
      RestSplits(texts, batch);
    }
  }

  /** Given a right total, every batch was right exactly if none was answered with too many vectors. */
  lemma {:induction false} TotalCountSuffices(provider: Provider, texts: seq<string>, batch: nat)
    requires EmbeddedFrom(provider, texts, batch).Ok?
    requires |EmbeddedFrom(provider, texts, batch).value| == |Rest(texts, batch)|
    ensures EachRight(provider, texts, batch) <==> NoneLong(provider, texts, batch)
    decreases |texts| - batch * BATCH_SIZE
  {
    if batch * BATCH_SIZE < |texts| && NoneLong(provider, texts, batch) {
      assert BatchCount(provider, texts, batch) <= |Slice(texts, batch)|;
      NoneLongInAll(provider, texts, batch + 1);
      RestSplits(texts, batch);
      TotalCountSuffices(provider, texts, batch + 1);
    }
  }

  /** An honest provider whose every batch was right has given each text its own vector. */
  lemma {:induction false} RightBatchesAreAligned(
    provider: Provider, embed: string -> Vector, texts: seq<string>, batch: nat)
    requires Honest(provider, embed) && EmbeddedFrom(provider, texts, batch).Ok?
    requires EachRight(provider, texts, batch)
    ensures EmbeddedFrom(provider, texts, batch).value == EmbedAll(embed, Rest(texts, batch))
    decreases |texts| - batch * BATCH_SIZE
  {
    if batch * BATCH_SIZE < |texts| {
      assert BatchCount(provider, texts, batch) == |Slice(texts, batch)|;
      AnswerComesFromAnAttempt(provider, batch, Slice(texts, batch), 1);
      RestSplits(texts, batch);
      RightBatchesAreAligned(provider, embed, texts, batch + 1);
    }
  }

  /** Up to 128 texts make one batch, for which the total is its count. */
  lemma OneBatchTotalSuffices(provider: Provider, embed: string -> Vector, texts: seq<string>)
    requires Honest(provider, embed) && |texts| <= BATCH_SIZE && EmbeddedFrom(provider, texts, 0).Ok?
    requires |EmbeddedFrom(provider, texts, 0).value| == |texts|
    ensures EmbeddedFrom(provider, texts, 0).value == EmbedAll(embed, texts)
  {
    if texts != [] {
      assert Slice(texts, 0) == texts;
      AnswerComesFromAnAttempt(provider, 0, texts, 1);
      assert EmbeddedFrom(provider, texts, 1) == Ok([]);
    }
  }

  // ---- a right total with wrong batches ---------------------------------------------------------

  function ByLength(s: string): Vector {
    [|s| as real]
  }

  /** The first batch loses its last vector, every other one gets one too many. */
  function Shifting(batch: nat, attempt: nat, texts: seq<string>): Attempt {
    if batch == 0 then Vectors(EmbedAll(ByLength, if texts == [] then [] else texts[..|texts| - 1]))
    else Vectors(EmbedAll(ByLength, texts) + [[]])
  }

  function ManyTexts(): seq<string> {
    seq(BATCH_SIZE, i => "") + ["a"]
  }

  /** An honest provider that answers one batch short and the next long: the total does not show it. */
  lemma TotalCountCanDeceive()
    ensures Honest(Shifting, ByLength) && EmbeddedFrom(Shifting, ManyTexts(), 0).Ok?
    ensures |EmbeddedFrom(Shifting, ManyTexts(), 0).value| == |ManyTexts()|
    ensures EmbeddedFrom(Shifting, ManyTexts(), 0).value != EmbedAll(ByLength, ManyTexts())
  {
    var texts := ManyTexts();
    var first, second := Slice(texts, 0), Slice(texts, 1);
    assert |first| == BATCH_SIZE && second == ["a"];
    assert EmbeddedFrom(Shifting, texts, 2) == Ok([]);
    assert EmbedAll(ByLength, second) == [[1.0]];
    assert EmbedAll(ByLength, second) + [[]] == [[1.0], []];
    assert BatchAnswer(Shifting, 1, second) == Ok([[1.0], []]);
    var all := EmbeddedFrom(Shifting, texts, 0).value;
    assert BatchAnswer(Shifting, 0, first) == Ok(EmbedAll(ByLength, first[..BATCH_SIZE - 1]));
    assert EmbeddedFrom(Shifting, texts, 1) == Ok([[1.0], []] + []);
    assert all[BATCH_SIZE - 1] == [1.0];
    assert EmbedAll(ByLength, texts)[BATCH_SIZE - 1] == ByLength("") == [0.0];
  }
}
