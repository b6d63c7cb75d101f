/**
 The encrypted upload file: a magic line, one sealed line for each piece read from the upload, and a
 sealed manifest of their count, total size and digest.
 */
module UploadFrames {
  import opened Common
  import opened Base64
  import opened Bindings
  import opened PrivateData

  const MAX_UPLOAD := 134217728
  const LINE_LIMIT := 524288

  datatype Line = ChunkLine(c: Ciphertext) | ManifestLine(c: Ciphertext) | OtherLine(length: nat)

  datatype File = File(magic: bool, lines: seq<Line>)

  /** How the chunks and the manifest of one file are sealed and opened; `text` measures ciphertext. */
  datatype Codec = Codec(
    sealChunk: (Bytes, nat) -> Result<Ciphertext, Failure>,
    sealManifest: Json -> Result<Ciphertext, Failure>,
    openChunk: (Ciphertext, nat) -> Result<Bytes, Failure>,
    openManifest: Ciphertext -> Result<Json, Failure>,
    digest: Bytes -> string,
    text: Ciphertext -> nat)

  /** A read of the upload returns at most 64 KiB, and nothing only at the end. */
  predicate ProperPieces(pieces: seq<Bytes>) {
    forall k :: 0 <= k < |pieces| ==> 1 <= |pieces[k]| <= CHUNK
  }

  /** The bytes of the first pieces. */
  function Joined(pieces: seq<Bytes>, k: nat): Bytes
    requires k <= |pieces|
  {
    if k == 0 then [] else Joined(pieces, k - 1) + pieces[k - 1]
  }

  function Content(pieces: seq<Bytes>): Bytes {
    Joined(pieces, |pieces|)
  }

  /** The JSON around the ciphertext, and the line end. */
  function LineLength(c: Codec, line: Line): nat {
    match line
    case ChunkLine(sealed) => c.text(sealed) + 18
    case ManifestLine(sealed) => c.text(sealed) + 16
    case OtherLine(n) => n
  }

  /** Around the ciphertext there is this JSON, with its line end. */
  lemma LineIsItsJson(c: Codec, sealed: Ciphertext)
    ensures LineLength(c, ChunkLine(sealed)) == |"{\"ciphertext\":\""| + c.text(sealed) + |"\"}\n"|
    ensures LineLength(c, ManifestLine(sealed)) == |"{\"manifest\":\""| + c.text(sealed) + |"\"}\n"|
  {
  }

  function ManifestOf(c: Codec, content: Bytes, count: nat): Json {
    ManifestRecord(|content|, count, c.digest(content))
  }

  // ---- writing ----------------------------------------------------------------------------------

  ghost predicate IsChunkLine(c: Codec, line: Line, piece: Bytes, i: nat) {
    line.ChunkLine? && c.sealChunk(piece, i) == Ok(line.c)
  }

  ghost predicate IsManifestLine(c: Codec, line: Line, pieces: seq<Bytes>) {
    line.ManifestLine? && c.sealManifest(ManifestOf(c, Content(pieces), |pieces|)) == Ok(line.c)
  }

  /** The file that saving these pieces leaves behind. */
  ghost predicate IsFileOf(c: Codec, file: File, pieces: seq<Bytes>) {
    && file.magic && |file.lines| == |pieces| + 1
    && ProperPieces(pieces) && |Content(pieces)| <= MAX_UPLOAD
    && (forall k :: 0 <= k < |pieces| ==> IsChunkLine(c, file.lines[k], pieces[k], k))
    && IsManifestLine(c, file.lines[|pieces|], pieces)
  }

  lemma {:induction false} JoinedFromTheFront(pieces: seq<Bytes>, k: nat)
    requires 0 < k <= |pieces|
    ensures Joined(pieces, k) == pieces[0] + Joined(pieces[1..], k - 1)
  {
    if k > 1 {
      JoinedFromTheFront(pieces, k - 1);
      assert pieces[1..][k - 2] == pieces[k - 1];
    }
  }

  /** The content is the pieces in order, read from the front. */
  lemma ContentFromTheFront(pieces: seq<Bytes>)
    ensures pieces == [] ==> Content(pieces) == []
    ensures pieces != [] ==> Content(pieces) == pieces[0] + Content(pieces[1..])
  {
    if pieces != [] {
      JoinedFromTheFront(pieces, |pieces|);
    }
  }

  lemma {:induction false} JoinedGrows(pieces: seq<Bytes>, k: nat, l: nat)
    requires k <= l <= |pieces|
    ensures |Joined(pieces, k)| <= |Joined(pieces, l)|
  {
    if k < l {
      JoinedGrows(pieces, k, l - 1);
    }
  }

  lemma {:induction false} PiecesAreNoMoreThanBytes(pieces: seq<Bytes>, k: nat)
    requires ProperPieces(pieces) && k <= |pieces|
    ensures k <= |Joined(pieces, k)|
  {
    if k > 0 {
      PiecesAreNoMoreThanBytes(pieces, k - 1);
    }
  }

  /**
   Saving fails exactly for uploads above 128 MiB and when the cipher refuses a chunk or the manifest;
   a failed save leaves no file.
   */
  method Save(c: Codec, pieces: seq<Bytes>) returns (r: Result<File, Failure>)
    requires ProperPieces(pieces)
    ensures r.Ok? <==>
      && |Content(pieces)| <= 134_217_728
      && (forall i :: 0 <= i < |pieces| ==> c.sealChunk(pieces[i], i).Ok?)
      && c.sealManifest(ManifestOf(c, Content(pieces), |pieces|)).Ok?
    ensures r.Ok? ==> IsFileOf(c, r.value, pieces)
  {
    var lines: seq<Line>, content: Bytes := [], [];
    var count, size := 0, 0;
    while count < |pieces|
      invariant count <= |pieces| && |lines| == count
      invariant content == Joined(pieces, count) && size == |content| <= MAX_UPLOAD
      invariant forall k :: 0 <= k < count ==> IsChunkLine(c, lines[k], pieces[k], k)
    {
      var piece := pieces[count];
      JoinedGrows(pieces, count + 1, |pieces|);
      size := size + |piece|;
      if size > MAX_UPLOAD {
        return Err(TooLarge);
      }
      content := content + piece;
      var encrypted := c.sealChunk(piece, count);
      if encrypted.Err? {
        return Err(encrypted.error);
      }
      lines := lines + [ChunkLine(encrypted.value)];
      count := count + 1;
    }
    var manifest := c.sealManifest(ManifestRecord(size, count, c.digest(content)));
    if manifest.Err? {
      return Err(manifest.error);
    }
    r := Ok(File(true, lines + [ManifestLine(manifest.value)]));
  }

  // ---- reading ----------------------------------------------------------------------------------

  datatype State = State(count: nat, content: Bytes, manifest: Json)

  /** One line. Anything after a manifest is refused. */
  function Step(c: Codec, line: Line, st: State): Result<State, Failure> {
    if LineLength(c, line) > LINE_LIMIT || st.manifest != Null then Err(Unreadable)
    else match line
      case OtherLine(_) => Err(Malformed)
      case ManifestLine(sealed) =>
        var manifest := c.openManifest(sealed);
        if manifest.Err? then Err(manifest.error) else Ok(st.(manifest := manifest.value))
      case ChunkLine(sealed) =>
        var piece := c.openChunk(sealed, st.count);
        if piece.Err? then Err(piece.error)
        else if |st.content| + |piece.value| > MAX_UPLOAD then Err(Unreadable)
        else Ok(st.(count := st.count + 1, content := st.content + piece.value))
  }

  function Run(c: Codec, lines: seq<Line>, i: nat, st: State): Result<State, Failure>
    requires i <= |lines|
    decreases |lines| - i
  {
    if i == |lines| then Ok(st)
    else
      var next := Step(c, lines[i], st);
      if next.Err? then next else Run(c, lines, i + 1, next.value)
  }

  const START := State(0, [], Null)

  /** The manifest agrees with what was read. */
  predicate Agrees(c: Codec, st: State) {
    && st.manifest.Object?
    && "count" in st.manifest.fields && st.manifest.fields["count"] == Number(st.count)
    && "bytes" in st.manifest.fields && st.manifest.fields["bytes"] == Number(|st.content|)
    && "sha256" in st.manifest.fields && st.manifest.fields["sha256"] == Text(c.digest(st.content))
  }

  function Verdict(c: Codec, end: Result<State, Failure>): Result<Bytes, Failure> {
    if end.Err? then Err(end.error)
    else if Agrees(c, end.value) then Ok(end.value.content)
    else Err(Unreadable)
  }

  function ReadFile(c: Codec, file: File): Result<Bytes, Failure> {
    if !file.magic then Err(Unreadable) else Verdict(c, Run(c, file.lines, 0, START))
  }

  method Read(c: Codec, file: File) returns (r: Result<Bytes, Failure>)
    ensures r == ReadFile(c, file)
  {
    if !file.magic {
      return Err(Unreadable);
    }
    var st, i := START, 0;
    while i < |file.lines|
      invariant i <= |file.lines|
      invariant Run(c, file.lines, 0, START) == Run(c, file.lines, i, st)
    {
      var next := Step(c, file.lines[i], st);
      if next.Err? {
        return Err(next.error);
      }
      st, i := next.value, i + 1;
    }
    if Agrees(c, st) {
      r := Ok(st.content);
    } else {
      r := Err(Unreadable);
    }
  }

  // ---- what sealing and opening promise one another ---------------------------------------------

  /** A sealed chunk opens in its own position only, a sealed manifest opens, and their lines are short. */
  ghost predicate Laws(c: Codec) {
    && (forall x, i, j :: |x| <= CHUNK && c.sealChunk(x, i).Ok? ==>
          if i == j then c.openChunk(c.sealChunk(x, i).value, j) == Ok(x)
          else c.openChunk(c.sealChunk(x, i).value, j).Err?)
    && (forall x, i :: |x| <= CHUNK && c.sealChunk(x, i).Ok? ==>
          c.text(c.sealChunk(x, i).value) + 18 <= LINE_LIMIT)
    && (forall x, n: nat :: |x| <= MAX_UPLOAD && n <= MAX_UPLOAD ==>
          SealsManifest(c, ManifestOf(c, x, n)))
  }

  ghost predicate SealsManifest(c: Codec, m: Json) {
    c.sealManifest(m).Ok? ==>
      && c.openManifest(c.sealManifest(m).value) == Ok(m)
      && c.text(c.sealManifest(m).value) + 16 <= LINE_LIMIT
  }

  lemma ChunkLineIsRead(c: Codec, file: File, pieces: seq<Bytes>, k: nat)
    requires Laws(c) && IsFileOf(c, file, pieces) && k < |pieces|
    ensures Step(c, file.lines[k], State(k, Joined(pieces, k), Null))
         == Ok(State(k + 1, Joined(pieces, k + 1), Null))
  {
    assert IsChunkLine(c, file.lines[k], pieces[k], k);
    JoinedGrows(pieces, k + 1, |pieces|);
  }

  lemma ManifestLineIsRead(c: Codec, file: File, pieces: seq<Bytes>)
    requires Laws(c) && IsFileOf(c, file, pieces)
    ensures c.openManifest(file.lines[|pieces|].c) == Ok(ManifestOf(c, Content(pieces), |pieces|))
    ensures LineLength(c, file.lines[|pieces|]) <= LINE_LIMIT
  {
    PiecesAreNoMoreThanBytes(pieces, |pieces|);
    assert SealsManifest(c, ManifestOf(c, Content(pieces), |pieces|));
  }

  lemma {:induction false} RunOfSaved(c: Codec, file: File, pieces: seq<Bytes>, k: nat)
    requires Laws(c) && IsFileOf(c, file, pieces) && k <= |pieces|
    ensures Run(c, file.lines, k, State(k, Joined(pieces, k), Null))
         == Ok(State(|pieces|, Content(pieces), ManifestOf(c, Content(pieces), |pieces|)))
    decreases |pieces| - k
  {
    if k < |pieces| {
      ChunkLineIsRead(c, file, pieces, k);
      RunOfSaved(c, file, pieces, k + 1);
    } else {
      ManifestLineIsRead(c, file, pieces);
    }
  }

  /** Reading a saved file gives back exactly the uploaded bytes, however the upload was cut up. */
  lemma RoundTrip(c: Codec, file: File, pieces: seq<Bytes>)
    requires Laws(c) && IsFileOf(c, file, pieces)
    ensures ReadFile(c, file) == Ok(Content(pieces))
  {
    RunOfSaved(c, file, pieces, 0);
  }

  // ---- what else is accepted --------------------------------------------------------------------

  /** A line of the file that is accepted where chunk `i` is expected is chunk `i` or the manifest. */
  lemma OwnLineStep(c: Codec, file: File, pieces: seq<Bytes>, j: nat, st: State)
    requires Laws(c) && IsFileOf(c, file, pieces) && j <= |pieces|
    requires st.manifest == Null && Step(c, file.lines[j], st).Ok?
    ensures var next := Step(c, file.lines[j], st).value;
      if j == |pieces| then next == st.(manifest := ManifestOf(c, Content(pieces), |pieces|))
      else j == st.count && next.count == j + 1 && next.manifest == Null
  {
    if j == |pieces| {
      ManifestLineIsRead(c, file, pieces);
    } else {
      assert IsChunkLine(c, file.lines[j], pieces[j], j);
    }
  }

  /** Nothing may follow a manifest. */
  lemma NothingFollows(c: Codec, lines: seq<Line>, i: nat, st: State)
    requires i <= |lines| && st.manifest != Null && Run(c, lines, i, st).Ok?
    ensures i == |lines| && Run(c, lines, i, st).value == st
  {
  }

  /** `at` tells which line of the file each line is. */
  lemma {:induction false} OwnLinesRun(
    c: Codec, file: File, pieces: seq<Bytes>, lines: seq<Line>, at: seq<nat>, i: nat, st: State)
    requires Laws(c) && IsFileOf(c, file, pieces) && |at| == |lines|
    requires forall k :: 0 <= k < |at| ==> at[k] <= |pieces| && lines[k] == file.lines[at[k]]
    requires i <= |lines| && i <= |pieces| && st.count == i && st.manifest == Null
    requires Verdict(c, Run(c, lines, i, st)).Ok?
    ensures |lines| == |pieces| + 1 && forall k :: i <= k < |lines| ==> at[k] == k
    decreases |lines| - i
  {
    if i < |lines| {
      OwnLineStep(c, file, pieces, at[i], st);
      var next := Step(c, lines[i], st).value;
      if at[i] < |pieces| {
        OwnLinesRun(c, file, pieces, lines, at, i + 1, next);
      } else {
        NothingFollows(c, lines, i + 1, next);
        ManifestCounts(c, st, Content(pieces), |pieces|);
      }
    }
  }

  lemma ManifestCounts(c: Codec, st: State, content: Bytes, count: nat)
    requires Agrees(c, st.(manifest := ManifestOf(c, content, count)))
    ensures st.count == count && |st.content| == |content| && c.digest(st.content) == c.digest(content)
  {
  }

  ghost function Position(line: Line, lines: seq<Line>): (j: nat)
    requires line in lines
    ensures j < |lines| && lines[j] == line
  {
    var j :| 0 <= j < |lines| && lines[j] == line;
    j
  }

  /**
   Of all the files made from a saved file's own lines, with lines dropped, repeated, reordered or
   added after the manifest, only the original is accepted.
   */
  lemma OnlyTheOriginalLines(c: Codec, file: File, pieces: seq<Bytes>, lines: seq<Line>)
    requires Laws(c) && IsFileOf(c, file, pieces)
    requires forall k :: 0 <= k < |lines| ==> lines[k] in file.lines
    ensures ReadFile(c, File(true, lines)).Ok? <==> lines == file.lines
  {
    RoundTrip(c, file, pieces);
    assert file == File(true, file.lines);
    if ReadFile(c, File(true, lines)).Ok? {
      var at := seq(|lines|, k requires 0 <= k < |lines| => Position(lines[k], file.lines));
      OwnLinesRun(c, file, pieces, lines, at, 0, START);
    }
  }

  lemma {:induction false} ManifestStays(c: Codec, lines: seq<Line>, i: nat, st: State, k: nat, manifest: Json)
    requires i <= k < |lines| && Run(c, lines, i, st).Ok?
    requires lines[k].ManifestLine? && manifest != Null && c.openManifest(lines[k].c) == Ok(manifest)
    ensures Run(c, lines, i, st).value.manifest == manifest && k == |lines| - 1
    decreases |lines| - i
  {
    var next := Step(c, lines[i], st).value;
    if i < k {
      ManifestStays(c, lines, i + 1, next, k, manifest);
    } else {
      NothingFollows(c, lines, i + 1, next);
    }
  }

  /**
   An accepted file that holds the manifest of an upload ends with it, and its content has the length
   and the digest of that upload's: unless the digest collides, it is that content.
   */
  lemma ManifestPinsTheContent(c: Codec, file: File, pieces: seq<Bytes>, other: File, k: nat)
    requires Laws(c) && IsFileOf(c, file, pieces)
    requires k < |other.lines| && other.lines[k] == file.lines[|pieces|]
    requires ReadFile(c, other).Ok?
    ensures k == |other.lines| - 1
    ensures |ReadFile(c, other).value| == |Content(pieces)|
    ensures c.digest(ReadFile(c, other).value) == c.digest(Content(pieces))
  {
    ManifestLineIsRead(c, file, pieces);
    ManifestStays(c, other.lines, 0, START, k, ManifestOf(c, Content(pieces), |pieces|));
    ManifestCounts(c, Run(c, other.lines, 0, START).value, Content(pieces), |pieces|);
  }

  lemma {:induction false} NoManifestNoObject(c: Codec, lines: seq<Line>, i: nat, st: State)
    requires i <= |lines| && Run(c, lines, i, st).Ok? && st.manifest == Null
    requires forall k :: i <= k < |lines| ==> !lines[k].ManifestLine?
    ensures Run(c, lines, i, st).value.manifest == Null
    decreases |lines| - i
  {
    if i < |lines| {
      NoManifestNoObject(c, lines, i + 1, Step(c, lines[i], st).value);
    }
  }

  /** A file without a manifest line, whatever its other lines, is refused. */
  lemma ManifestIsNeeded(c: Codec, file: File)
    requires forall k :: 0 <= k < |file.lines| ==> !file.lines[k].ManifestLine?
    ensures ReadFile(c, file).Err?
  {
    if ReadFile(c, file).Ok? {
      NoManifestNoObject(c, file.lines, 0, START);
    }
  }

  lemma {:induction false} RunStaysWithinLimits(c: Codec, lines: seq<Line>, i: nat, st: State)
    requires i <= |lines| && Run(c, lines, i, st).Ok? && |st.content| <= MAX_UPLOAD
    ensures |Run(c, lines, i, st).value.content| <= MAX_UPLOAD
    ensures forall k :: i <= k < |lines| ==> LineLength(c, lines[k]) <= LINE_LIMIT && !lines[k].OtherLine?
    decreases |lines| - i
  {
    if i < |lines| {
      RunStaysWithinLimits(c, lines, i + 1, Step(c, lines[i], st).value);
    }
  }

  /** Whatever file is accepted, its lines and its content are within the reader's limits. */
  lemma AcceptedIsWithinLimits(c: Codec, file: File)
    requires ReadFile(c, file).Ok?
    ensures file.magic && |ReadFile(c, file).value| <= 134_217_728
    ensures forall k :: 0 <= k < |file.lines| ==>
      LineLength(c, file.lines[k]) <= 524_288 && !file.lines[k].OtherLine?
  {
    RunStaysWithinLimits(c, file.lines, 0, START);
  }

  // ---- the codec of a stored upload -------------------------------------------------------------

  /** The cipher's text is at most twice as long as what it seals, plus a constant. */
  ghost predicate Expansion(text: Ciphertext -> nat) {
    forall aad, raw :: text(Sealed(aad, raw)) <= 2 * |raw| + 4096
  }

  function ChunkBinding(owner: string, name: string, i: nat): StorageBinding {
    StorageBinding(owner, name, Field(UploadChunk(i)))
  }

  function ManifestBinding(owner: string, name: string): StorageBinding {
    StorageBinding(owner, name, Field(UploadManifest))
  }

  function SealChunk(f: Format, owner: string, name: string, piece: Bytes, i: nat): Result<Ciphertext, Failure> {
    Encrypt(f, Text(Base64.Encode(piece)), ChunkBinding(owner, name, i))
  }

  /** A chunk is canonical base64 of at most 64 KiB. */
  function OpenChunk(f: Format, owner: string, name: string, sealed: Ciphertext, i: nat): Result<Bytes, Failure> {
    var encoded := Decrypt(f, sealed, ChunkBinding(owner, name, i));
    if encoded.Err? then Err(encoded.error)
    else if !encoded.value.Text? then Err(Malformed)
    else
      var piece := Base64.Decode(encoded.value.s);
      if piece.None? then Err(Malformed)
      else if |piece.value| > CHUNK || Base64.Encode(piece.value) != encoded.value.s then Err(Unreadable)
      else Ok(piece.value)
  }

  function UploadCodec(f: Format, text: Ciphertext -> nat, owner: string, name: string): Codec {
    Codec(
      (piece, i: nat) => SealChunk(f, owner, name, piece, i),
      manifest => Encrypt(f, manifest, ManifestBinding(owner, name)),
      (sealed, i: nat) => OpenChunk(f, owner, name, sealed, i),
      sealed => Decrypt(f, sealed, ManifestBinding(owner, name)),
      f.digest,
      text)
  }

  /** A base64 chunk of at most 64 KiB stays below the single-seal limit. */
  lemma ChunkIsOneSeal(f: Format, owner: string, name: string, piece: Bytes, i: nat)
    requires Lawful(f) && |piece| <= CHUNK
    ensures var raw := f.render(Text(Base64.Encode(piece)));
      |raw| <= 87386 && SealChunk(f, owner, name, piece, i) == Seal(raw, ChunkBinding(owner, name, i))
  {
    assert |f.render(Text(Base64.Encode(piece)))| == |Base64.Encode(piece)| + 2;
  }

  lemma SealedChunkOpens(f: Format, owner: string, name: string, piece: Bytes, i: nat)
    requires Lawful(f) && |piece| <= CHUNK && SealChunk(f, owner, name, piece, i).Ok?
    ensures OpenChunk(f, owner, name, SealChunk(f, owner, name, piece, i).value, i) == Ok(piece)
  {
    PrivateData.RoundTrip(f, Text(Base64.Encode(piece)), ChunkBinding(owner, name, i));
    Base64.RoundTrip(piece);
  }

  lemma SealedChunkOpensInPlace(f: Format, owner: string, name: string, piece: Bytes, i: nat, j: nat)
    requires Lawful(f) && |piece| <= CHUNK && SealChunk(f, owner, name, piece, i).Ok?
    requires OpenChunk(f, owner, name, SealChunk(f, owner, name, piece, i).value, j).Ok?
    ensures i == j
  {
    var sealed := SealChunk(f, owner, name, piece, i).value;
    PrivateData.RoundTrip(f, Text(Base64.Encode(piece)), ChunkBinding(owner, name, i));
    OpensUnderOneBinding(f, sealed, ChunkBinding(owner, name, i), ChunkBinding(owner, name, j));
    SealsAreSeparate(owner, name, UploadChunk(i), [], owner, name, UploadChunk(j), []);
  }

  lemma SealedManifestFits(f: Format, text: Ciphertext -> nat, owner: string, name: string, x: Bytes, n: nat)
    requires Lawful(f) && Expansion(text) && |x| <= MAX_UPLOAD && n <= MAX_UPLOAD
    ensures var c := UploadCodec(f, text, owner, name); SealsManifest(c, ManifestOf(c, x, n))
    ensures var c := UploadCodec(f, text, owner, name);
      c.sealManifest(ManifestOf(c, x, n)).Ok? <==> Valid(ManifestBinding(owner, name))
  {
    var bytes, m := |x|, ManifestRecord(|x|, n, f.digest(x));
    assert |f.render(ManifestRecord(bytes, n, f.digest(x)))| <= MANIFEST_BOUND;
    if Valid(ManifestBinding(owner, name)) {
      PrivateData.RoundTrip(f, m, ManifestBinding(owner, name));
    }
  }

  /** What opens as a chunk is exactly the canonical base64 of at most 64 KiB, sealed for its place. */
  lemma OpenChunkIff(f: Format, owner: string, name: string, sealed: Ciphertext, i: nat, piece: Bytes)
    ensures OpenChunk(f, owner, name, sealed, i) == Ok(piece) <==>
      && |piece| <= 65_536
      && Decrypt(f, sealed, StorageBinding(owner, name, Field(UploadChunk(i)))) == Ok(Text(Base64.Encode(piece)))
  {
    Base64.RoundTrip(piece);
  }

  /** The stored upload's codec keeps the laws, given a bound on how much longer ciphertext is. */
  lemma UploadCodecIsLawful(f: Format, text: Ciphertext -> nat, owner: string, name: string)
    requires Lawful(f) && Expansion(text)
    ensures Laws(UploadCodec(f, text, owner, name))
  {
    var c := UploadCodec(f, text, owner, name);
    forall x, i | |x| <= CHUNK && c.sealChunk(x, i).Ok?
      ensures c.openChunk(c.sealChunk(x, i).value, i) == Ok(x)
      ensures c.text(c.sealChunk(x, i).value) + 18 <= LINE_LIMIT
    {
      SealedChunkOpens(f, owner, name, x, i);
      ChunkIsOneSeal(f, owner, name, x, i);
    }
    forall x, i, j | |x| <= CHUNK && c.sealChunk(x, i).Ok? && i != j
      ensures c.openChunk(c.sealChunk(x, i).value, j).Err?
    {
      if c.openChunk(c.sealChunk(x, i).value, j).Ok? {
        SealedChunkOpensInPlace(f, owner, name, x, i, j);
      }
    }
    forall x, n: nat | |x| <= MAX_UPLOAD && n <= MAX_UPLOAD
      ensures SealsManifest(c, ManifestOf(c, x, n))
    {
      SealedManifestFits(f, text, owner, name, x, n);
    }
  }

  /** An upload within the limit is refused only for an owner or a file name that no binding admits. */
  lemma RefusedOnlyForItsNames(f: Format, text: Ciphertext -> nat, owner: string, name: string, pieces: seq<Bytes>)
    requires Lawful(f) && Expansion(text) && ProperPieces(pieces) && |Content(pieces)| <= MAX_UPLOAD
    ensures var c := UploadCodec(f, text, owner, name);
      && (forall i :: 0 <= i < |pieces| ==> c.sealChunk(pieces[i], i).Ok?)
      && c.sealManifest(ManifestOf(c, Content(pieces), |pieces|)).Ok?
      <==>
      && ValidField(owner) && ValidField(name)
  {
    var c := UploadCodec(f, text, owner, name);
    PiecesAreNoMoreThanBytes(pieces, |pieces|);
    SealedManifestFits(f, text, owner, name, Content(pieces), |pieces|);
    forall i | 0 <= i < |pieces|
      ensures c.sealChunk(pieces[i], i).Ok? <==> Valid(ChunkBinding(owner, name, i))
    {
      ChunkIsOneSeal(f, owner, name, pieces[i], i);
    }
    UploadFieldsAreValid(|pieces|);
  }

  lemma UploadFieldsAreValid(count: nat)
    requires count <= MAX_UPLOAD
    ensures ValidField(Field(UploadManifest))
    ensures forall i :: 0 <= i < count ==> ValidField(Field(UploadChunk(i)))
  {
    assert Field(UploadManifest) == "upload:manifest";
    forall i: nat | i < count ensures ValidField(Field(UploadChunk(i))) {
      UploadChunkFieldIsValid(i);
    }
  }

  lemma UploadChunkFieldIsValid(i: nat)
    requires i < MAX_UPLOAD
    ensures ValidField(Field(UploadChunk(i)))
  {
    DecimalIsShort(i, 9);
    JoinThree("upload", "chunk", Decimal(i));
    assert Field(UploadChunk(i)) == "upload:chunk:" + Decimal(i) by {
      assert "upload" + ":" + "chunk" + ":" == "upload:chunk:";
    }
    NumberedFieldIsValid("upload:chunk:", Decimal(i));
  }

  lemma NumberedFieldIsValid(p: string, s: string)
    requires |p| >= 1 && |s| >= 1 && |p| + |s| <= MAX_LENGTH
    requires forall k :: 0 <= k < |p| ==> '-' <= p[k] <= 'z'
    requires forall k :: 0 <= k < |s| ==> '0' <= s[k] <= '9'
    ensures ValidField(p + s)
  {
    var t := p + s;
    assert t[0] == p[0] && t[|t| - 1] == s[|s| - 1];
  }
}
