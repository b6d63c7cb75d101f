/**
 The private-data codec over an ideal cipher: a seal opens only under the associated data it was made
 with. Values above 256 KiB are cut into chunks that a sealed manifest counts, measures and digests.
 */
module PrivateData {
  import opened Common
  import opened Base64
  import opened Bindings

  const MAX_JSON := 262144
  const MAX_VALUE := 33554432
  const CHUNK := 65536
  const MANIFEST_BOUND := 256

  datatype Json =
    | Null
    | Number(n: int)
    | Text(s: string)
    | List(items: seq<Json>)
    | Object(fields: map<string, Json>)

  /** JSON text and SHA-256, as the functions the codec calls. */
  datatype Format = Format(render: Json -> Bytes, parse: Bytes -> Option<Json>, digest: Bytes -> string)

  datatype Failure = Unreadable | BadBinding | TooLarge | Malformed

  /** Ciphertext text: one seal, a chunked envelope, or text that is neither. */
  datatype Ciphertext =
    | Sealed(aad: string, raw: Bytes)
    | Envelope(manifest: Ciphertext, chunks: seq<Ciphertext>)
    | Junk

  function ManifestRecord(bytes: nat, count: nat, digest: string): Json {
    Object(map["bytes" := Number(bytes), "count" := Number(count), "sha256" := Text(digest)])
  }

  /**
   What the codec relies on: text parses back to its value, manifests are short, and text in the
   base64 alphabet takes two characters more than its length.
   */
  ghost predicate Lawful(f: Format) {
    && (forall j :: f.parse(f.render(j)) == Some(j))
    && (forall bytes: nat, count: nat, raw ::
          bytes < 0x1_0000_0000 && count < 0x1_0000_0000 ==>
            |f.render(ManifestRecord(bytes, count, f.digest(raw)))| <= MANIFEST_BOUND)
    && (forall b: Bytes :: |f.render(Text(Encode(b)))| == |Encode(b)| + 2)
  }

  // ---- sealing ----------------------------------------------------------------------------------

  function Seal(raw: Bytes, b: StorageBinding): Result<Ciphertext, Failure> {
    if Valid(b) then Ok(Sealed(AssociatedData(b), raw)) else Err(BadBinding)
  }

  function ChunkPart(b: StorageBinding, i: nat): StorageBinding {
    Part(b, PortionName(Chunk(i)))
  }

  function ManifestPart(b: StorageBinding): StorageBinding {
    Part(b, PortionName(Manifest))
  }

  function Pieces(raw: Bytes): seq<Bytes> {
    if |raw| == 0 then []
    else if |raw| <= CHUNK then [raw]
    else [raw[..CHUNK]] + Pieces(raw[CHUNK..])
  }

  function Flatten(pieces: seq<Bytes>): Bytes {
    if pieces == [] then [] else pieces[0] + Flatten(pieces[1..])
  }

  function SealPieces(pieces: seq<Bytes>, b: StorageBinding, from: nat): Result<seq<Ciphertext>, Failure> {
    if pieces == [] then Ok([])
    else
      var first := Seal(pieces[0], ChunkPart(b, from));
      if first.Err? then Err(first.error)
      else
        var rest := SealPieces(pieces[1..], b, from + 1);
        if rest.Err? then rest else Ok([first.value] + rest.value)
  }

  function ManifestFor(f: Format, raw: Bytes, count: nat): Json {
    ManifestRecord(|raw|, count, f.digest(raw))
  }

  /** A manifest is encrypted like any value; being short, it never needs chunks of its own. */
  function EncryptManifest(f: Format, manifest: Json, b: StorageBinding): Result<Ciphertext, Failure> {
    var raw := f.render(manifest);
    if |raw| <= MAX_JSON then Seal(raw, b) else Err(TooLarge)
  }

  function Encrypt(f: Format, value: Json, b: StorageBinding): Result<Ciphertext, Failure> {
    var raw := f.render(value);
    if |raw| > MAX_VALUE then Err(TooLarge)
    else if |raw| <= MAX_JSON then Seal(raw, b)
    else
      var chunks := SealPieces(Pieces(raw), b, 0);
      if chunks.Err? then Err(chunks.error)
      else
        var manifest := EncryptManifest(f, ManifestFor(f, raw, |chunks.value|), ManifestPart(b));
        if manifest.Err? then manifest else Ok(Envelope(manifest.value, chunks.value))
  }

  // ---- opening ----------------------------------------------------------------------------------

  function Open(c: Ciphertext, b: StorageBinding): Result<Bytes, Failure> {
    if !c.Sealed? then Err(Unreadable)
    else if !Valid(b) then Err(BadBinding)
    else if c.aad != AssociatedData(b) || |c.raw| > MAX_JSON then Err(Unreadable)
    else Ok(c.raw)
  }

  function OpenPieces(chunks: seq<Ciphertext>, b: StorageBinding, from: nat): Result<Bytes, Failure> {
    if chunks == [] then Ok([])
    else
      var first := Open(chunks[0], ChunkPart(b, from));
      if first.Err? then first
      else
        var rest := OpenPieces(chunks[1..], b, from + 1);
        if rest.Err? then rest else Ok(first.value + rest.value)
  }

  /** The checks on an opened manifest, before any chunk is opened. */
  predicate Announces(manifest: Json, count: nat) {
    && manifest.Object?
    && "bytes" in manifest.fields && manifest.fields["bytes"].Number?
    && 0 <= manifest.fields["bytes"].n <= MAX_VALUE
    && "count" in manifest.fields && manifest.fields["count"] == Number(count)
    && count == (manifest.fields["bytes"].n + CHUNK - 1) / CHUNK
  }

  /** The checks on the joined chunks. */
  predicate Confirms(f: Format, manifest: Json, raw: Bytes)
    requires manifest.Object? && "bytes" in manifest.fields
  {
    && manifest.fields["bytes"] == Number(|raw|)
    && "sha256" in manifest.fields && manifest.fields["sha256"] == Text(f.digest(raw))
  }

  function Parsed(f: Format, raw: Bytes): Result<Json, Failure> {
    match f.parse(raw)
    case Some(j) => Ok(j)
    case None => Err(Malformed)
  }

  /** Decryption recurses into the manifest, which may be an envelope again; it always ends. */
  function Decrypt(f: Format, c: Ciphertext, b: StorageBinding): Result<Json, Failure>
    decreases c
  {
    if c.Envelope? then
      var manifest := Decrypt(f, c.manifest, ManifestPart(b));
      if manifest.Err? then manifest
      else if !Announces(manifest.value, |c.chunks|) then Err(Unreadable)
      else
        var raw := OpenPieces(c.chunks, b, 0);
        if raw.Err? then Err(raw.error)
        else if !Confirms(f, manifest.value, raw.value) then Err(Unreadable)
        else Parsed(f, raw.value)
    else
      var raw := Open(c, b);
      if raw.Err? then Err(raw.error) else Parsed(f, raw.value)
  }

  // ---- cutting and joining ----------------------------------------------------------------------

  lemma {:induction false} PiecesCount(raw: Bytes)
    ensures |Pieces(raw)| == (|raw| + CHUNK - 1) / CHUNK
    decreases |raw|
  {
    if |raw| > CHUNK {
      PiecesCount(raw[CHUNK..]);
    }
  }

  lemma {:induction false} PiecesFit(raw: Bytes)
    ensures forall i :: 0 <= i < |Pieces(raw)| ==> 1 <= |Pieces(raw)[i]| <= CHUNK
    decreases |raw|
  {
    if |raw| > CHUNK {
      PiecesFit(raw[CHUNK..]);
    }
  }

  lemma {:induction false} PiecesJoin(raw: Bytes)
    ensures Flatten(Pieces(raw)) == raw
    decreases |raw|
  {
    if |raw| > CHUNK {
      PiecesJoin(raw[CHUNK..]);
      assert Pieces(raw)[1..] == Pieces(raw[CHUNK..]);
      assert raw[..CHUNK] + raw[CHUNK..] == raw;
    } else if |raw| > 0 {
      assert Flatten([raw]) == raw + Flatten([]);
    }
  }

  lemma {:induction false} SealedCount(pieces: seq<Bytes>, b: StorageBinding, from: nat)
    ensures SealPieces(pieces, b, from).Ok? ==> |SealPieces(pieces, b, from).value| == |pieces|
  {
    if pieces != [] {
      SealedCount(pieces[1..], b, from + 1);
    }
  }

  lemma SealsFirst(pieces: seq<Bytes>, b: StorageBinding, from: nat)
    requires pieces != []
    ensures SealPieces(pieces, b, from).Ok?
        <==> Valid(ChunkPart(b, from)) && SealPieces(pieces[1..], b, from + 1).Ok?
  {
  }

  lemma {:induction false} SealedPartIsValid(pieces: seq<Bytes>, b: StorageBinding, from: nat, i: nat)
    requires SealPieces(pieces, b, from).Ok? && from <= i < from + |pieces|
    ensures Valid(ChunkPart(b, i))
  {
    SealsFirst(pieces, b, from);
    if i > from {
      SealedPartIsValid(pieces[1..], b, from + 1, i);
    }
  }

  lemma {:induction false} ValidPartsAreSealed(pieces: seq<Bytes>, b: StorageBinding, from: nat)
    requires forall i :: from <= i < from + |pieces| ==> Valid(ChunkPart(b, i))
    ensures SealPieces(pieces, b, from).Ok?
  {
    if pieces != [] {
      SealsFirst(pieces, b, from);
      ValidPartsAreSealed(pieces[1..], b, from + 1);
    }
  }

  /** Sealing the pieces succeeds exactly when every derived binding is valid. */
  lemma SealedIff(pieces: seq<Bytes>, b: StorageBinding, from: nat)
    ensures SealPieces(pieces, b, from).Ok?
        <==> forall i :: from <= i < from + |pieces| ==> Valid(ChunkPart(b, i))
  {
    if SealPieces(pieces, b, from).Ok? {
      forall i | from <= i < from + |pieces| ensures Valid(ChunkPart(b, i)) {
        SealedPartIsValid(pieces, b, from, i);
      }
    } else if forall i :: from <= i < from + |pieces| ==> Valid(ChunkPart(b, i)) {
      ValidPartsAreSealed(pieces, b, from);
    }
  }

  lemma {:induction false} SealedAt(pieces: seq<Bytes>, b: StorageBinding, from: nat, k: nat)
    requires SealPieces(pieces, b, from).Ok? && k < |pieces|
    ensures var chunks := SealPieces(pieces, b, from).value;
      |chunks| == |pieces| && chunks[k] == Sealed(AssociatedData(ChunkPart(b, from + k)), pieces[k])
  {
    SealsFirst(pieces, b, from);
    SealedCount(pieces[1..], b, from + 1);
    if k > 0 {
      SealedAt(pieces[1..], b, from + 1, k - 1);
    }
  }

  lemma OpensFirst(chunks: seq<Ciphertext>, b: StorageBinding, from: nat)
    requires OpenPieces(chunks, b, from).Ok? && chunks != []
    ensures chunks[0].Sealed? && chunks[0].aad == AssociatedData(ChunkPart(b, from)) && Valid(ChunkPart(b, from))
    ensures OpenPieces(chunks[1..], b, from + 1).Ok?
  {
  }

  lemma {:induction false} OpenedAt(chunks: seq<Ciphertext>, b: StorageBinding, from: nat, k: nat)
    requires OpenPieces(chunks, b, from).Ok? && k < |chunks|
    ensures chunks[k].Sealed? && chunks[k].aad == AssociatedData(ChunkPart(b, from + k))
    ensures Valid(ChunkPart(b, from + k))
  {
    OpensFirst(chunks, b, from);
    if k > 0 {
      OpenedAt(chunks[1..], b, from + 1, k - 1);
    }
  }

  lemma {:induction false} OpenSealed(pieces: seq<Bytes>, b: StorageBinding, from: nat)
    requires SealPieces(pieces, b, from).Ok?
    requires forall i :: 0 <= i < |pieces| ==> |pieces[i]| <= CHUNK
    ensures OpenPieces(SealPieces(pieces, b, from).value, b, from) == Ok(Flatten(pieces))
  {
    if pieces != [] {
      OpenSealed(pieces[1..], b, from + 1);
      var chunks := SealPieces(pieces, b, from).value;
      assert chunks[1..] == SealPieces(pieces[1..], b, from + 1).value;
    }
  }

  // ---- when encryption succeeds, and what it gives ----------------------------------------------

  /** The bindings a value of the given size is sealed under are valid. */
  ghost predicate PartsValid(b: StorageBinding, size: nat) {
    if size <= 262_144 then Valid(b)
    else
      && Valid(ManifestPart(b))
      && forall i :: 0 <= i < (size + 65_535) / 65_536 ==> Valid(ChunkPart(b, i))
  }

  /** The manifest of a value within the limit is always sealed in one piece. */
  lemma ManifestIsShort(f: Format, raw: Bytes)
    requires Lawful(f) && |raw| <= MAX_VALUE
    ensures var m := ManifestFor(f, raw, |Pieces(raw)|);
      |f.render(m)| <= MANIFEST_BOUND && f.parse(f.render(m)) == Some(m)
  {
    PiecesCount(raw);
  }

  lemma LargeEncryption(f: Format, value: Json, b: StorageBinding)
    requires Lawful(f) && MAX_JSON < |f.render(value)| <= MAX_VALUE
    ensures var raw := f.render(value);
      var chunks := SealPieces(Pieces(raw), b, 0);
      var manifest := Seal(f.render(ManifestFor(f, raw, |Pieces(raw)|)), ManifestPart(b));
      if chunks.Ok? && manifest.Ok? then
        Encrypt(f, value, b) == Ok(Envelope(manifest.value, chunks.value)) && |chunks.value| == |Pieces(raw)|
      else Encrypt(f, value, b).Err?
  {
    ManifestIsShort(f, f.render(value));
    SealedCount(Pieces(f.render(value)), b, 0);
  }

  /** Encryption fails only for an oversized value or an invalid binding, its own or a derived one. */
  lemma EncryptSucceedsIff(f: Format, value: Json, b: StorageBinding)
    requires Lawful(f)
    ensures Encrypt(f, value, b).Ok?
        <==> |f.render(value)| <= 33_554_432 && PartsValid(b, |f.render(value)|)
  {
    var raw := f.render(value);
    if MAX_JSON < |raw| <= MAX_VALUE {
      LargeEncryption(f, value, b);
      PiecesCount(raw);
      SealedIff(Pieces(raw), b, 0);
    }
  }

  /** Any valid binding with a field of at most 246 characters serves for values of every size. */
  lemma ShortFieldsServe(b: StorageBinding, size: nat)
    requires Valid(b) && |b.field| <= 246 && size <= MAX_VALUE
    ensures PartsValid(b, size)
  {
    if size > MAX_JSON {
      ShortFieldsHaveValidParts(b, Manifest);
      forall i | 0 <= i < (size + CHUNK - 1) / CHUNK ensures Valid(ChunkPart(b, i)) {
        ShortFieldsHaveValidParts(b, Chunk(i));
      }
    }
  }

  /** Values up to 256 KiB become one seal, larger ones an envelope of as many chunks as they need. */
  lemma FormFollowsSize(f: Format, value: Json, b: StorageBinding)
    requires Lawful(f) && Encrypt(f, value, b).Ok?
    ensures var c, size := Encrypt(f, value, b).value, |f.render(value)|;
      if size <= 262_144 then c == Sealed(AssociatedData(b), f.render(value))
      else c.Envelope? && |c.chunks| == (size + 65_535) / 65_536 >= 5
  {
    var raw := f.render(value);
    if |raw| > MAX_JSON {
      LargeEncryption(f, value, b);
      PiecesCount(raw);
    }
  }

  lemma {:induction false} PiecesAt(raw: Bytes, k: nat)
    requires k < |Pieces(raw)|
    ensures CHUNK * k < |raw| && Pieces(raw)[k] == raw[CHUNK * k..Min(CHUNK * k + CHUNK, |raw|)]
    decreases |raw|
  {
    if k > 0 {
      PiecesAt(raw[CHUNK..], k - 1);
    }
  }

  /** What an envelope holds: chunk k is its 64 KiB of the text, and the manifest says what all are. */
  lemma EnvelopeHolds(f: Format, value: Json, b: StorageBinding, k: nat)
    requires Lawful(f) && Encrypt(f, value, b).Ok? && |f.render(value)| > 262_144
    requires 65_536 * k < |f.render(value)|
    ensures var c, raw := Encrypt(f, value, b).value, f.render(value);
      && c.Envelope? && k < |c.chunks|
      && c.chunks[k] == Sealed(AssociatedData(ChunkPart(b, k)), raw[65_536 * k..Min(65_536 * k + 65_536, |raw|)])
      && c.manifest == Sealed(AssociatedData(ManifestPart(b)),
                              f.render(Object(map["bytes" := Number(|raw|), "count" := Number(|c.chunks|),
                                                  "sha256" := Text(f.digest(raw))])))
  {
    var raw := f.render(value);
    LargeEncryption(f, value, b);
    PiecesCount(raw);
    PiecesAt(raw, k);
    SealedAt(Pieces(raw), b, 0, k);
    ManifestIsShort(f, raw);
  }

  lemma OpenManifest(f: Format, raw: Bytes, b: StorageBinding)
    requires Lawful(f) && |raw| <= MAX_VALUE && Valid(ManifestPart(b))
    ensures var m := ManifestFor(f, raw, |Pieces(raw)|);
      Decrypt(f, Sealed(AssociatedData(ManifestPart(b)), f.render(m)), ManifestPart(b)) == Ok(m)
  {
    ManifestIsShort(f, raw);
  }

  lemma ManifestAnnounces(f: Format, raw: Bytes)
    requires |raw| <= MAX_VALUE
    ensures Announces(ManifestFor(f, raw, |Pieces(raw)|), |Pieces(raw)|)
    ensures Confirms(f, ManifestFor(f, raw, |Pieces(raw)|), raw)
  {
    PiecesCount(raw);
  }

  /** Whatever was encrypted decrypts to the same value under the same binding. */
  lemma RoundTrip(f: Format, value: Json, b: StorageBinding)
    requires Lawful(f) && Encrypt(f, value, b).Ok?
    ensures Decrypt(f, Encrypt(f, value, b).value, b) == Ok(value)
  {
    var raw := f.render(value);
    assert f.parse(raw) == Some(value);
    if |raw| > MAX_JSON {
      LargeEncryption(f, value, b);
      OpenManifest(f, raw, b);
      ManifestAnnounces(f, raw);
      PiecesFit(raw);
      OpenSealed(Pieces(raw), b, 0);
      PiecesJoin(raw);
    }
  }

  // ---- what opens ------------------------------------------------------------------------------

  lemma PartIsInjective(b: StorageBinding, b': StorageBinding, name: string)
    requires Part(b, name) == Part(b', name)
    ensures b == b'
  {
    var l := b.field + ":" + name;
    assert l == b'.field + ":" + name;
    assert b.field == l[..|l| - |name| - 1] == b'.field;
  }

  /** No ciphertext, sealed or chunked to any depth, opens under two bindings. */
  lemma {:induction false} OpensUnderOneBinding(
    f: Format, c: Ciphertext, b: StorageBinding, b': StorageBinding)
    requires Decrypt(f, c, b).Ok? && Decrypt(f, c, b').Ok?
    ensures b == b'
    decreases c
  {
    if c.Envelope? {
      OpensUnderOneBinding(f, c.manifest, ManifestPart(b), ManifestPart(b'));
      PartIsInjective(b, b', PortionName(Manifest));
    } else {
      AssociatedDataSeparates(b, b');
    }
  }

  /** An envelope that opens holds, at each index, a chunk sealed for that index of that binding. */
  lemma ChunksAreInPlace(f: Format, c: Ciphertext, b: StorageBinding, k: nat)
    requires c.Envelope? && Decrypt(f, c, b).Ok? && k < |c.chunks|
    ensures c.chunks[k].Sealed? && c.chunks[k].aad == AssociatedData(ChunkPart(b, k))
  {
    OpenedAt(c.chunks, b, 0, k);
  }

  /** The number of chunks is the one the manifest was sealed with. */
  lemma CountIsTheManifests(f: Format, value: Json, b: StorageBinding, chunks: seq<Ciphertext>)
    requires Lawful(f) && Encrypt(f, value, b).Ok? && Encrypt(f, value, b).value.Envelope?
    requires Decrypt(f, Envelope(Encrypt(f, value, b).value.manifest, chunks), b).Ok?
    ensures |chunks| == |Encrypt(f, value, b).value.chunks|
    ensures OpenPieces(chunks, b, 0).Ok?
    ensures f.digest(OpenPieces(chunks, b, 0).value) == f.digest(f.render(value))
    ensures Decrypt(f, Envelope(Encrypt(f, value, b).value.manifest, chunks), b)
         == Parsed(f, OpenPieces(chunks, b, 0).value)
  {
    var raw := f.render(value);
    LargeEncryption(f, value, b);
    OpenManifest(f, raw, b);
    PiecesCount(raw);
  }

  /**
   Of all the sequences made from an envelope's own chunks, however many, repeated and in whatever
   order, only the original one opens with its manifest.
   */
  lemma OnlyTheOriginalSequence(f: Format, value: Json, b: StorageBinding, chunks: seq<Ciphertext>)
    requires Lawful(f) && Encrypt(f, value, b).Ok? && Encrypt(f, value, b).value.Envelope?
    requires forall k :: 0 <= k < |chunks| ==> chunks[k] in Encrypt(f, value, b).value.chunks
    ensures Decrypt(f, Envelope(Encrypt(f, value, b).value.manifest, chunks), b).Ok?
        <==> chunks == Encrypt(f, value, b).value.chunks
  {
    var c := Encrypt(f, value, b).value;
    RoundTrip(f, value, b);
    if Decrypt(f, Envelope(c.manifest, chunks), b).Ok? {
      CountIsTheManifests(f, value, b, chunks);
      forall k | 0 <= k < |chunks| ensures chunks[k] == c.chunks[k] {
        var j :| 0 <= j < |c.chunks| && chunks[k] == c.chunks[j];
        ChunksAreInPlace(f, Envelope(c.manifest, chunks), b, k);
        ChunksAreInPlace(f, c, b, j);
        AssociatedDataSeparates(ChunkPart(b, k), ChunkPart(b, j));
        ChunkPartIsInjective(b, k, j);
      }
    }
  }

  lemma ChunkPartIsInjective(b: StorageBinding, i: nat, j: nat)
    requires ChunkPart(b, i) == ChunkPart(b, j)
    ensures i == j
  {
    AfterPrefix(b.field + ":", PortionName(Chunk(i)), PortionName(Chunk(j)));
    ChunkName(i);
    ChunkName(j);
    AfterPrefix("chunk", ":" + Decimal(i), ":" + Decimal(j));
    AfterPrefix(":", Decimal(i), Decimal(j));
    DecimalIsInjective(i, j);
  }

  predicate Collision(f: Format, x: Bytes, y: Bytes) {
    x != y && f.digest(x) == f.digest(y)
  }

  /**
   Whatever chunks are put beside a manifest, even ones sealed for another value in the same place:
   if they open, they give the value the manifest was made for, or else a collision of the digest.
   */
  lemma ManifestPinsTheValue(f: Format, value: Json, b: StorageBinding, chunks: seq<Ciphertext>)
    requires Lawful(f) && Encrypt(f, value, b).Ok? && Encrypt(f, value, b).value.Envelope?
    requires Decrypt(f, Envelope(Encrypt(f, value, b).value.manifest, chunks), b).Ok?
    ensures
      || Decrypt(f, Envelope(Encrypt(f, value, b).value.manifest, chunks), b) == Ok(value)
      || Collision(f, OpenPieces(chunks, b, 0).value, f.render(value))
  {
    CountIsTheManifests(f, value, b, chunks);
    assert f.parse(f.render(value)) == Some(value);
  }

  // ---- the service, and the columns it protects -------------------------------------------------

  datatype PrivateDataCipher = PrivateDataCipher(
    encrypt: (Json, StorageBinding) -> Result<Ciphertext, Failure>,
    decrypt: (Ciphertext, StorageBinding) -> Result<Json, Failure>,
    lookup: (string, StorageBinding) -> Result<string, Failure>)

  const VAULT := "vault:"
  const LARGE := "port-openbao:v1:"
  const MARKER := "openbao-transit/v1"

  /** A keyed digest of a short text, bound to a place like a seal is. */
  function Lookup(hmac: (string, string) -> string, value: string, b: StorageBinding): Result<string, Failure> {
    if Utf8Length(value) > 4096 then Err(TooLarge)
    else if !Valid(b) then Err(BadBinding)
    else Ok(VAULT + "v1:" + hmac(AssociatedData(b), value))
  }

  function OpenBao(f: Format, hmac: (string, string) -> string): PrivateDataCipher {
    PrivateDataCipher(
      (value, b) => Encrypt(f, value, b),
      (c, b) => Decrypt(f, c, b),
      (value, b) => Lookup(hmac, value, b))
  }

  /** What users of the service rely on. */
  ghost predicate KeepsFaith(k: PrivateDataCipher) {
    && (forall v, b :: k.encrypt(v, b).Ok? ==> k.decrypt(k.encrypt(v, b).value, b) == Ok(v))
    && (forall v, b :: k.lookup(v, b).Ok? ==> VAULT <= k.lookup(v, b).value)
    && (forall b :: k.decrypt(Junk, b).Err?)
  }

  lemma OpenBaoKeepsFaith(f: Format, hmac: (string, string) -> string)
    requires Lawful(f)
    ensures KeepsFaith(OpenBao(f, hmac))
  {
    var k := OpenBao(f, hmac);
    forall v, b | k.encrypt(v, b).Ok? ensures k.decrypt(k.encrypt(v, b).value, b) == Ok(v) {
      RoundTrip(f, v, b);
    }
    forall v, b | k.lookup(v, b).Ok? ensures VAULT <= k.lookup(v, b).value {
      assert VAULT + "v1:" + hmac(AssociatedData(b), v) == VAULT + ("v1:" + hmac(AssociatedData(b), v));
    }
  }

  /** A text column: plain text from before the cut-over, or ciphertext. */
  datatype StoredText = Plain(text: string) | Cipher(c: Ciphertext)

  /** A JSON column: a plain value, or the marked object around ciphertext. */
  datatype StoredJson = PlainJson(value: Json) | MarkedJson(c: Ciphertext)

  /** The prefix test that tells ciphertext from plain text. */
  predicate Prefixed(s: string) {
    VAULT <= s || LARGE <= s
  }

  predicate LooksEncrypted(t: StoredText) {
    t.Cipher? || Prefixed(t.text)
  }

  predicate LooksMarked(v: StoredJson) {
    || v.MarkedJson?
    || (&& v.value.Object? && "storageEncryption" in v.value.fields
        && v.value.fields["storageEncryption"] == Text(MARKER))
  }

  /** Plain text that only looks like ciphertext opens under no binding. */
  function ReadText(k: PrivateDataCipher, t: StoredText, b: StorageBinding): Result<string, Failure> {
    if !LooksEncrypted(t) then Ok(t.text)
    else
      var value := k.decrypt(if t.Cipher? then t.c else Junk, b);
      if value.Err? then Err(value.error)
      else if value.value.Text? then Ok(value.value.s)
      else Err(Unreadable)
  }

  function ReadJson(k: PrivateDataCipher, v: StoredJson, b: StorageBinding): Result<Json, Failure> {
    if !LooksMarked(v) then Ok(v.value)
    else k.decrypt(if v.MarkedJson? then v.c else Junk, b)
  }
}
