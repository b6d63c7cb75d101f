/**
 Conversion of plain columns to ciphertext: four tables, walked in key order a hundred rows at a time,
 inside one transaction.
 */
module Backfill {
  import opened Common
  import opened Bindings
  import opened PrivateData

  datatype Table = Documents | Chunks | RevisionChunks | Webpages

  /** A column, or one URL of a list of them, with the place its value is sealed for. */
  datatype Cell =
    | TextCell(place: Place, text: Option<StoredText>)
    | JsonCell(place: Place, json: StoredJson)
    | HashCell(hash: Option<string>)

  datatype Row = Row(id: nat, owner: string, resource: string, cells: seq<Cell>)

  const PAGE := 100

  // ---- the tables -------------------------------------------------------------------------------

  /** The places of a page's cells: its URLs, then content, error and hash. */
  ghost predicate WebpageCells(cells: seq<Cell>) {
    && |cells| >= 3
    && (forall i :: 0 <= i < |cells| - 3 ==>
          cells[i].TextCell? && cells[i].place == WebpageUrl(i) && cells[i].text.Some?)
    && cells[|cells| - 3].TextCell? && cells[|cells| - 3].place == WebpageContent
    && cells[|cells| - 2].TextCell? && cells[|cells| - 2].place == WebpageError
    && cells[|cells| - 1].HashCell?
  }

  ghost predicate PairCells(cells: seq<Cell>, text: Place, json: Place) {
    && |cells| == 2
    && cells[0].TextCell? && cells[0].place == text
    && cells[1].JsonCell? && cells[1].place == json
  }

  ghost predicate TripleCells(cells: seq<Cell>, name: Place, text: Place, json: Place) {
    && |cells| == 3
    && cells[0].TextCell? && cells[0].place == name
    && cells[1].TextCell? && cells[1].place == text
    && cells[2].JsonCell? && cells[2].place == json
  }

  /** The columns of each table, at the places the rest of the service reads them from. */
  ghost predicate Layout(t: Table, row: Row) {
    match t
    case Documents =>
      && |row.cells| == 2
      && row.cells[0].TextCell? && row.cells[0].place == DocumentName
      && row.cells[1].TextCell? && row.cells[1].place == DocumentError
    case Chunks => exists n: nat :: PairCells(row.cells, ChunkText(n), ChunkMetadata(n))
    case RevisionChunks => exists doc: Uuid, n: nat ::
      TripleCells(row.cells, RevisionName(doc), RevisionText(doc, n), RevisionMetadata(doc, n))
    case Webpages => WebpageCells(row.cells)
  }

  // ---- one row ----------------------------------------------------------------------------------

  function Binding(row: Row, p: Place): StorageBinding {
    StorageBinding(row.owner, row.resource, Field(p))
  }

  predicate LegacyCell(cell: Cell) {
    match cell
    case TextCell(_, text) => text.Some? && !LooksEncrypted(text.value)
    case JsonCell(_, json) => json != PlainJson(Null) && !LooksMarked(json)
    case HashCell(hash) => hash.Some? && !Prefixed(hash.value)
  }

  predicate Legacy(row: Row) {
    exists i :: 0 <= i < |row.cells| && LegacyCell(row.cells[i])
  }

  function FingerprintOf(k: PrivateDataCipher, row: Row, digest: string): Result<string, Failure> {
    k.lookup(digest, Binding(row, WebpageFingerprint))
  }

  /** Ciphertext is read to validate it and kept; anything else is encrypted, a raw hash looked up. */
  function ConvertCell(k: PrivateDataCipher, row: Row, cell: Cell): Result<Cell, Failure> {
    match cell
    case TextCell(p, None) => Ok(cell)
    case TextCell(p, Some(text)) =>
      if LooksEncrypted(text) then
        var value := ReadText(k, text, Binding(row, p));
        if value.Err? then Err(value.error) else Ok(cell)
      else
        var sealed := k.encrypt(Text(text.text), Binding(row, p));
        if sealed.Err? then Err(sealed.error) else Ok(TextCell(p, Some(Cipher(sealed.value))))
    case JsonCell(p, json) =>
      if LooksMarked(json) then
        var value := ReadJson(k, json, Binding(row, p));
        if value.Err? then Err(value.error) else Ok(cell)
      else
        var sealed := k.encrypt(json.value, Binding(row, p));
        if sealed.Err? then Err(sealed.error) else Ok(JsonCell(p, MarkedJson(sealed.value)))
    case HashCell(hash) =>
      if hash.Some? && hash.value != "" && !Prefixed(hash.value) then
        var fingerprint := FingerprintOf(k, row, hash.value);
        if fingerprint.Err? then Err(fingerprint.error) else Ok(HashCell(Some(fingerprint.value)))
      else Ok(cell)
  }

  /** Converts cells one after the other; the first failure ends it. */
  function Each(convert: Cell -> Result<Cell, Failure>, cells: seq<Cell>, i: nat): (r: Result<seq<Cell>, Failure>)
    requires i <= |cells|
    decreases |cells| - i
  {
    if i == |cells| then Ok([])
    else
      var first := convert(cells[i]);
      if first.Err? then Err(first.error)
      else
        var rest := Each(convert, cells, i + 1);
        if rest.Err? then rest else Ok([first.value] + rest.value)
  }

  function Convert(k: PrivateDataCipher, row: Row): Result<Row, Failure> {
    var cells := Each(cell => ConvertCell(k, row, cell), row.cells, 0);
    if cells.Err? then Err(cells.error) else Ok(row.(cells := cells.value))
  }

  lemma {:induction false} EachAt(convert: Cell -> Result<Cell, Failure>, cells: seq<Cell>, i: nat)
    requires i <= |cells|
    ensures var r := Each(convert, cells, i);
      && (r.Ok? <==> forall j :: i <= j < |cells| ==> convert(cells[j]).Ok?)
      && (r.Ok? ==> |r.value| == |cells| - i)
      && (r.Ok? ==> forall j :: i <= j < |cells| ==> convert(cells[j]) == Ok(r.value[j - i]))
    decreases |cells| - i
  {
    if i < |cells| {
      EachAt(convert, cells, i + 1);
    }
  }

  /** A row converts exactly when each of its cells does, cell by cell. */
  lemma ConvertedAt(k: PrivateDataCipher, row: Row)
    ensures Convert(k, row).Ok?
        <==> forall j :: 0 <= j < |row.cells| ==> ConvertCell(k, row, row.cells[j]).Ok?
    ensures Convert(k, row).Ok? ==>
      && |Convert(k, row).value.cells| == |row.cells|
      && forall j :: 0 <= j < |row.cells| ==>
           ConvertCell(k, row, row.cells[j]) == Ok(Convert(k, row).value.cells[j])
  {
    var convert := cell => ConvertCell(k, row, cell);
    EachAt(convert, row.cells, 0);
    assert forall j :: 0 <= j < |row.cells| ==> convert(row.cells[j]) == ConvertCell(k, row, row.cells[j]);
  }

  // ---- what readers see -------------------------------------------------------------------------

  /** What reading a cell under its runtime binding gives. */
  datatype Reading = NoValue | TextRead(t: Result<string, Failure>) | JsonRead(j: Result<Json, Failure>)

  function ReadCell(k: PrivateDataCipher, row: Row, cell: Cell): Reading {
    match cell
    case TextCell(p, None) => NoValue
    case TextCell(p, Some(text)) => TextRead(ReadText(k, text, Binding(row, p)))
    case JsonCell(p, json) => JsonRead(ReadJson(k, json, Binding(row, p)))
    case HashCell(_) => NoValue
  }

  /** The worker's test that a page's text, of this digest, has not changed. */
  predicate Recognises(k: PrivateDataCipher, row: Row, hash: Option<string>, digest: string) {
    hash.Some? && (hash.value == digest || Ok(hash.value) == FingerprintOf(k, row, digest))
  }

  /** Conversion changes no value that a reader sees, and keeps every cell at its place. */
  lemma ReadersSeeTheSame(k: PrivateDataCipher, row: Row, j: nat)
    requires KeepsFaith(k) && Convert(k, row).Ok? && j < |row.cells|
    ensures |Convert(k, row).value.cells| == |row.cells|
    ensures var now := Convert(k, row).value;
      && ReadCell(k, now, now.cells[j]) == ReadCell(k, row, row.cells[j])
      && (row.cells[j].HashCell? <==> now.cells[j].HashCell?)
      && (row.cells[j].JsonCell? <==> now.cells[j].JsonCell?)
      && (!row.cells[j].HashCell? ==> now.cells[j].place == row.cells[j].place)
      && (row.cells[j].TextCell? ==> (now.cells[j].text.Some? <==> row.cells[j].text.Some?))
  {
    ConvertedAt(k, row);
  }

  /** A raw hash becomes the fingerprint that the worker computes for the same content. */
  lemma RawHashBecomesFingerprint(k: PrivateDataCipher, row: Row, j: nat, digest: string)
    requires Convert(k, row).Ok? && j < |row.cells| && row.cells[j] == HashCell(Some(digest))
    requires digest != "" && !Prefixed(digest)
    ensures |Convert(k, row).value.cells| == |row.cells|
    ensures FingerprintOf(k, row, digest).Ok?
    ensures Convert(k, row).value.cells[j] == HashCell(Some(FingerprintOf(k, row, digest).value))
    ensures Recognises(k, row, Convert(k, row).value.cells[j].hash, digest)
    ensures Convert(k, row).value.cells[j].hash.Some?
      && k.lookup(digest, StorageBinding(row.owner, row.resource, Field(WebpageFingerprint)))
           == Ok(Convert(k, row).value.cells[j].hash.value)
  {
    ConvertedAt(k, row);
  }

  /**
   Pages recognised as unchanged before conversion are recognised after it; a page recognised only
   afterwards has a digest whose fingerprint is also that of the stored hash.
   */
  lemma UnchangedPagesStayRecognised(k: PrivateDataCipher, row: Row, j: nat, digest: string)
    requires Convert(k, row).Ok? && j < |row.cells| && row.cells[j].HashCell? && KeepsFaith(k)
    requires digest != "" && !Prefixed(digest)
    ensures |Convert(k, row).value.cells| == |row.cells| && Convert(k, row).value.cells[j].HashCell?
    ensures var before, after := row.cells[j].hash, Convert(k, row).value.cells[j].hash;
      && (Recognises(k, row, before, digest) ==> Recognises(k, row, after, digest))
      && (Recognises(k, row, after, digest) ==>
            || Recognises(k, row, before, digest)
            || (before.Some? && FingerprintOf(k, row, before.value) == FingerprintOf(k, row, digest)))
  {
    ConvertedAt(k, row);
  }

  /** The columns stay where the rest of the service reads them. */
  lemma LayoutIsKept(k: PrivateDataCipher, t: Table, row: Row)
    requires KeepsFaith(k) && Layout(t, row) && Convert(k, row).Ok?
    ensures Layout(t, Convert(k, row).value)
  {
    var now := Convert(k, row).value;
    forall j | 0 <= j < |row.cells|
      ensures |now.cells| == |row.cells|
      ensures row.cells[j].TextCell? ==>
        && now.cells[j].TextCell? && now.cells[j].place == row.cells[j].place
        && (now.cells[j].text.Some? <==> row.cells[j].text.Some?)
      ensures row.cells[j].JsonCell? ==> now.cells[j].JsonCell? && now.cells[j].place == row.cells[j].place
      ensures row.cells[j].HashCell? ==> now.cells[j].HashCell?
    {
      ReadersSeeTheSame(k, row, j);
    }
    match t
    case Chunks =>
      var n: nat :| PairCells(row.cells, ChunkText(n), ChunkMetadata(n));
      assert PairCells(now.cells, ChunkText(n), ChunkMetadata(n));
    case RevisionChunks =>
      var doc: Uuid, n: nat :|
        TripleCells(row.cells, RevisionName(doc), RevisionText(doc, n), RevisionMetadata(doc, n));
      assert TripleCells(now.cells, RevisionName(doc), RevisionText(doc, n), RevisionMetadata(doc, n));
    case _ =>
  }

  // ---- when rows are legacy, and when they convert ----------------------------------------------

  /** Plain text that happens to start like ciphertext stops the conversion of its row. */
  lemma PrefixedPlainTextIsRefused(k: PrivateDataCipher, row: Row, j: nat, p: Place, s: string)
    requires KeepsFaith(k) && j < |row.cells| && row.cells[j] == TextCell(p, Some(Plain(s))) && Prefixed(s)
    ensures Convert(k, row).Err?
  {
    ConvertedAt(k, row);
    assert ConvertCell(k, row, row.cells[j]).Err?;
  }

  predicate EmptyHash(row: Row) {
    exists i :: 0 <= i < |row.cells| && row.cells[i] == HashCell(Some(""))
  }

  lemma ConvertedCellIsSettled(k: PrivateDataCipher, row: Row, cell: Cell)
    requires KeepsFaith(k) && ConvertCell(k, row, cell).Ok?
    ensures var now := ConvertCell(k, row, cell).value;
      && (LegacyCell(now) <==> cell == HashCell(Some("")))
      && (now == HashCell(Some("")) <==> cell == HashCell(Some("")))
      && ConvertCell(k, row, now) == Ok(now)
  {
  }

  lemma ConvertCellIgnoresCells(k: PrivateDataCipher, row: Row, row': Row, cell: Cell)
    requires row'.owner == row.owner && row'.resource == row.resource
    ensures ConvertCell(k, row', cell) == ConvertCell(k, row, cell)
  {
  }

  /** A converted row is legacy exactly if it has an empty hash, and converting it again changes nothing. */
  lemma ConvertedRowIsSettled(k: PrivateDataCipher, row: Row)
    requires KeepsFaith(k) && Convert(k, row).Ok?
    ensures Legacy(Convert(k, row).value) <==> EmptyHash(row)
    ensures EmptyHash(Convert(k, row).value) <==> EmptyHash(row)
    ensures Convert(k, Convert(k, row).value) == Ok(Convert(k, row).value)
  {
    var now := Convert(k, row).value;
    ConvertedAt(k, row);
    ConvertedAt(k, now);
    forall j | 0 <= j < |row.cells|
      ensures LegacyCell(now.cells[j]) <==> row.cells[j] == HashCell(Some(""))
      ensures now.cells[j] == HashCell(Some("")) <==> row.cells[j] == HashCell(Some(""))
      ensures ConvertCell(k, now, now.cells[j]) == Ok(now.cells[j])
    {
      ConvertedCellIsSettled(k, row, row.cells[j]);
      ConvertCellIgnoresCells(k, row, now, now.cells[j]);
    }
    assert Convert(k, now).Ok?;
    assert Convert(k, now).value.cells == now.cells;
  }

  /** A page row without text whose hash is empty: legacy, converted to itself, and legacy still. */
  lemma EmptyHashIsNeverSettled(k: PrivateDataCipher, id: nat, owner: string, resource: string) returns (row: Row)
    ensures row.id == id && row.owner == owner && row.resource == resource && Layout(Webpages, row)
    ensures Legacy(row) && Convert(k, row) == Ok(row)
  {
    row := Row(id, owner, resource,
      [TextCell(WebpageContent, None), TextCell(WebpageError, None), HashCell(Some(""))]);
    assert LegacyCell(row.cells[2]);
    ConvertedAt(k, row);
    forall j | 0 <= j < |row.cells| ensures ConvertCell(k, row, row.cells[j]) == Ok(row.cells[j]) {
    }
    assert Convert(k, row).value.cells == row.cells;
  }

  // ---- one table --------------------------------------------------------------------------------

  /** What the walk asks about a row and does to it. */
  datatype Job = Job(legacy: Row -> bool, convert: Row -> Result<Row, Failure>)

  function BackfillJob(k: PrivateDataCipher): Job {
    Job(row => Legacy(row), row => Convert(k, row))
  }

  ghost predicate KeepsKeys(job: Job) {
    forall row :: job.convert(row).Ok? ==> job.convert(row).value.id == row.id
  }

  ghost predicate Ordered(rows: seq<Row>) {
    forall i, j :: 0 <= i < j < |rows| ==> rows[i].id < rows[j].id
  }

  /** What visiting a row leaves of it, or why the run stops there. */
  function Visited(job: Job, apply: bool, row: Row): Result<Row, Failure> {
    if !apply then Ok(row)
    else
      var values := job.convert(row);
      if values.Err? then values else if job.legacy(row) then values else Ok(row)
  }

  /** The table when its first rows have been visited, each once and in its place. */
  ghost predicate TableAfter(job: Job, was: seq<Row>, now: seq<Row>, apply: bool, done: nat)
    requires done <= |was|
  {
    && |now| == |was|
    && (forall i :: 0 <= i < done ==> Visited(job, apply, was[i]) == Ok(now[i]))
    && (forall i :: done <= i < |was| ==> now[i] == was[i])
  }

  function CountLegacy(job: Job, rows: seq<Row>, n: nat): (c: nat)
    requires n <= |rows|
    ensures c <= n
  {
    if n == 0 then 0 else CountLegacy(job, rows, n - 1) + if job.legacy(rows[n - 1]) then 1 else 0
  }

  datatype Report = Report(table: Table, before: nat, converted: nat, remaining: int)

  function ReportOn(job: Job, t: Table, was: seq<Row>, apply: bool): Report {
    var before := CountLegacy(job, was, |was|);
    Report(t, before, if apply then before else 0, if apply then 0 else before)
  }

  lemma AfterStaysOrdered(job: Job, was: seq<Row>, now: seq<Row>, apply: bool, done: nat)
    requires KeepsKeys(job) && Ordered(was) && done <= |was| && TableAfter(job, was, now, apply, done)
    ensures Ordered(now) && forall i :: 0 <= i < |was| ==> now[i].id == was[i].id
  {
    forall i | 0 <= i < |was| ensures now[i].id == was[i].id {
      assert i < done ==> Visited(job, apply, was[i]) == Ok(now[i]);
    }
  }

  lemma OneMoreVisited(job: Job, was: seq<Row>, now: seq<Row>, apply: bool, done: nat)
    requires done < |was| && TableAfter(job, was, now, apply, done) && Visited(job, apply, was[done]).Ok?
    ensures TableAfter(job, was, now[done := Visited(job, apply, was[done]).value], apply, done + 1)
  {
  }

  /** Some row stops the run. */
  ghost predicate Blocked(job: Job, was: seq<Row>, apply: bool) {
    exists i :: 0 <= i < |was| && Visited(job, apply, was[i]).Err?
  }

  lemma AfterIsNotBlocked(job: Job, was: seq<Row>, now: seq<Row>, apply: bool)
    requires TableAfter(job, was, now, apply, |was|)
    ensures !Blocked(job, was, apply)
  {
  }

  datatype Stop = TriggerIsOff | CipherStop(f: Failure)

  function Target(i: nat): Table {
    if i == 0 then Documents else if i == 1 then Chunks else if i == 2 then RevisionChunks else Webpages
  }

  class Connection {
    var tables: map<Table, seq<Row>>
    var triggerOn: bool

    ghost predicate Has(t: Table)
      reads this
    {
      t in tables && Ordered(tables[t])
    }

    /** Where the rows with a key above `after` start, in key order. */
    method FirstAfter(t: Table, after: Option<nat>) returns (i: nat)
      requires Has(t)
      ensures i <= |tables[t]|
      ensures forall j :: 0 <= j < |tables[t]| ==> (i <= j <==> (after.None? || tables[t][j].id > after.value))
    {
      i := 0;
      while i < |tables[t]| && after.Some? && tables[t][i].id <= after.value
        invariant i <= |tables[t]|
        invariant forall j :: 0 <= j < i ==> after.Some? && tables[t][j].id <= after.value
      {
        i := i + 1;
      }
    }

    /** The next hundred rows above the cursor, in key order. */
    method Query(t: Table, after: Option<nat>, ghost first: nat) returns (page: seq<Row>)
      requires Has(t) && first <= |tables[t]|
      requires after == if first == 0 then None else Some(tables[t][first - 1].id)
      ensures |page| == Min(PAGE, |tables[t]| - first)
      ensures forall j :: 0 <= j < |page| ==> page[j] == tables[t][first + j]
    {
      var i := FirstAfter(t, after);
      assert i <= first by {
        if first < |tables[t]| && first > 0 {
          assert tables[t][first].id > tables[t][first - 1].id;
        }
        if first < |tables[t]| {
          var next := tables[t][first];
          assert after.None? || next.id > after.value;
        }
      }
      if first > 0 {
        assert tables[t][first - 1].id == after.value;
      }
      page := tables[t][i..Min(i + PAGE, |tables[t]|)];
    }

    /** Overwrites the row with that key; the trigger forbids it for revision chunks. */
    method Update(t: Table, row: Row, ghost at: nat)
      requires Has(t) && at < |tables[t]| && tables[t][at].id == row.id
      requires t == RevisionChunks ==> !triggerOn
      modifies this`tables
      ensures tables == old(tables)[t := old(tables)[t][at := row]]
    {
      var rows := tables[t];
      var i := 0;
      while rows[i].id != row.id
        invariant i <= at
      {
        i := i + 1;
      }
      assert i == at;
      tables := tables[t := rows[i := row]];
    }

    /** One row of a page: validate or convert it, and write it if it was legacy. */
    method Visit(job: Job, t: Table, row: Row, apply: bool, ghost at: nat) returns (r: Result<bool, Failure>)
      requires KeepsKeys(job) && Has(t) && at < |tables[t]| && tables[t][at] == row
      requires apply && t == RevisionChunks ==> !triggerOn
      modifies this`tables
      ensures r == if Visited(job, apply, row).Ok? then Ok(job.legacy(row)) else Err(Visited(job, apply, row).error)
      ensures tables ==
        if r.Ok? then old(tables)[t := old(tables)[t][at := Visited(job, apply, row).value]] else old(tables)
    {
      var isLegacy := job.legacy(row);
      assert tables[t][at := row] == tables[t];
      assert tables[t := tables[t]] == tables;
      if !apply {
        return Ok(isLegacy);
      }
      var values := job.convert(row);
      if values.Err? {
        return Err(values.error);
      }
      if isLegacy {
        Update(t, values.value, at);
      }
      r := Ok(isLegacy);
    }

    /** Visits the rows of a page in turn, counting the legacy ones. */
    method VisitPage(job: Job, t: Table, page: seq<Row>, apply: bool, ghost was: seq<Row>, ghost start: nat)
      returns (r: Result<nat, Failure>)
      requires KeepsKeys(job) && Ordered(was)
      requires apply && t == RevisionChunks ==> !triggerOn
      requires t in tables && start + |page| <= |was| && TableAfter(job, was, tables[t], apply, start)
      requires forall j :: 0 <= j < |page| ==> page[j] == was[start + j]
      modifies this`tables
      ensures t in tables && tables == old(tables)[t := tables[t]]
      ensures r.Ok? ==> TableAfter(job, was, tables[t], apply, start + |page|)
      ensures r.Ok? ==> CountLegacy(job, was, start + |page|) == CountLegacy(job, was, start) + r.value
      ensures r.Err? ==> Blocked(job, was, apply)
    {
      ghost var initial := tables;
      var count, i := 0, 0;
      while i < |page|
        invariant i <= |page| && t in tables && tables == initial[t := tables[t]]
        invariant TableAfter(job, was, tables[t], apply, start + i)
        invariant CountLegacy(job, was, start + i) == CountLegacy(job, was, start) + count
      {
        ghost var now := tables[t];
        AfterStaysOrdered(job, was, now, apply, start + i);
        assert now[start + i] == was[start + i] == page[i];
        var legacy := Visit(job, t, page[i], apply, start + i);
        if legacy.Err? {
          return Err(legacy.error);
        }
        OneMoreVisited(job, was, now, apply, start + i);
        if legacy.value {
          count := count + 1;
        }
        i := i + 1;
      }
      r := Ok(count);
    }

    /** Walks one table a page at a time, the last key of a page being the cursor for the next. */
    method BackfillTable(job: Job, t: Table, apply: bool) returns (r: Result<Report, Failure>)
      requires KeepsKeys(job) && Has(t)
      requires apply && t == RevisionChunks ==> !triggerOn
      modifies this`tables
      ensures t in tables && tables == old(tables)[t := tables[t]]
      ensures r.Ok? ==> TableAfter(job, old(tables[t]), tables[t], apply, |old(tables[t])|)
      ensures r.Ok? ==> r.value == ReportOn(job, t, old(tables[t]), apply)
      ensures r.Err? ==> Blocked(job, old(tables[t]), apply)
    {
      ghost var initial, was := tables, tables[t];
      var converted, before := 0, 0;
      var after: Option<nat> := None;
      ghost var done := 0;
      while true
        invariant done <= |was| && t in tables && tables == initial[t := tables[t]]
        invariant TableAfter(job, was, tables[t], apply, done)
        invariant after == if done == 0 then None else Some(was[done - 1].id)
        invariant before == CountLegacy(job, was, done) && converted == if apply then before else 0
        decreases |was| - done
      {
        AfterStaysOrdered(job, was, tables[t], apply, done);
        var page := Query(t, after, done);
        if |page| == 0 {
          break;
        }
        var legacy := VisitPage(job, t, page, apply, was, done);
        if legacy.Err? {
          return Err(legacy.error);
        }
        before := before + legacy.value;
        if apply {
          converted := converted + legacy.value;
        }
        after := Some(page[|page| - 1].id);
        done := done + |page|;
      }
      assert done == |was|;
      r := Ok(Report(t, before, converted, before - converted));
    }

    ghost predicate HasAll()
      reads this
    {
      forall i :: 0 <= i < 4 ==> Has(Target(i))
    }

    /** The four tables in turn; revision chunks are written with their trigger off. */
    method Backfill(job: Job, apply: bool) returns (r: Result<seq<Report>, Stop>)
      requires KeepsKeys(job) && HasAll()
      modifies this
      ensures r.Ok? ==> triggerOn == old(triggerOn) && (apply ==> triggerOn)
      ensures r.Ok? ==> |r.value| == 4 && forall i :: 0 <= i < 4 ==>
        && Target(i) in tables
        && TableAfter(job, old(tables[Target(i)]), tables[Target(i)], apply, |old(tables[Target(i)])|)
        && r.value[i] == ReportOn(job, Target(i), old(tables[Target(i)]), apply)
      ensures r.Err? ==>
        || (apply && !old(triggerOn))
        || exists i :: 0 <= i < 4 && Blocked(job, old(tables[Target(i)]), apply)
      ensures r == Err(TriggerIsOff) <==>
        apply && !old(triggerOn) && forall i :: 0 <= i < 2 ==> !Blocked(job, old(tables[Target(i)]), apply)
    {
      ghost var initial, trigger := tables, triggerOn;
      var report: seq<Report> := [];
      var i := 0;
      while i < 4
        invariant i <= 4 && |report| == i && triggerOn == trigger && (apply && i > 2 ==> trigger)
        invariant forall j :: 0 <= j < 4 ==> Target(j) in tables
        invariant forall j :: i <= j < 4 ==> tables[Target(j)] == initial[Target(j)]
        invariant forall j :: 0 <= j < i ==>
          && TableAfter(job, initial[Target(j)], tables[Target(j)], apply, |initial[Target(j)]|)
          && report[j] == ReportOn(job, Target(j), initial[Target(j)], apply)
        invariant forall j :: 0 <= j < i ==> !Blocked(job, initial[Target(j)], apply)
      {
        var t := Target(i);
        assert Has(t);
        var immutable := apply && t == RevisionChunks;
        if immutable {
          if !triggerOn {
            return Err(TriggerIsOff);
          }
          triggerOn := false;
        }
        var one := BackfillTable(job, t, apply);
        if one.Err? {
          return Err(CipherStop(one.error));
        }
        if immutable {
          triggerOn := true;
        }
        AfterIsNotBlocked(job, initial[t], tables[t], apply);
        report := report + [one.value];
        i := i + 1;
      }
      r := Ok(report);
    }

    /**
     The transaction around a run. It commits exactly when the trigger is in place for an applied run
     and no row of any table is refused; otherwise nothing changes.
     */
    method Run(job: Job, apply: bool) returns (r: Result<seq<Report>, Stop>)
      requires KeepsKeys(job) && HasAll()
      modifies this
      ensures r.Ok? <==>
        && (apply ==> old(triggerOn))
        && forall i :: 0 <= i < 4 ==> !Blocked(job, old(tables[Target(i)]), apply)
      ensures triggerOn == old(triggerOn)
      ensures r.Err? ==> tables == old(tables)
      ensures r.Ok? ==> |r.value| == 4 && forall i :: 0 <= i < 4 ==>
        && Target(i) in tables
        && TableAfter(job, old(tables[Target(i)]), tables[Target(i)], apply, |old(tables[Target(i)])|)
        && r.value[i] == ReportOn(job, Target(i), old(tables[Target(i)]), apply)
      ensures r.Ok? ==>
        && |r.value| == 4 && r.value[0].table == Documents && r.value[1].table == Chunks
        && r.value[2].table == RevisionChunks && r.value[3].table == Webpages
        && forall i :: 0 <= i < 4 ==>
             && r.value[i].converted == (if apply then r.value[i].before else 0)
             && r.value[i].remaining == r.value[i].before - r.value[i].converted
      ensures r == Err(TriggerIsOff) <==>
        && apply && !old(triggerOn)
        && forall i :: 0 <= i < 2 ==> !Blocked(job, old(tables[Target(i)]), apply)
    {
      var savedTables, savedTrigger := tables, triggerOn;
      r := Backfill(job, apply);
      if r.Err? {
        tables, triggerOn := savedTables, savedTrigger;
      } else {
        forall i | 0 <= i < 4 ensures !Blocked(job, savedTables[Target(i)], apply) {
          AfterIsNotBlocked(job, savedTables[Target(i)], tables[Target(i)], apply);
        }
      }
    }
  }

  // ---- what an applied run achieves -------------------------------------------------------------

  lemma BackfillKeepsKeys(k: PrivateDataCipher)
    ensures KeepsKeys(BackfillJob(k))
  {
  }

  /** Nobody reading a table can tell that it was converted, and its rows keep their shape. */
  lemma RunKeepsReadings(k: PrivateDataCipher, t: Table, was: seq<Row>, now: seq<Row>, apply: bool, i: nat, j: nat)
    requires KeepsFaith(k) && TableAfter(BackfillJob(k), was, now, apply, |was|) && i < |was|
    requires j < |was[i].cells|
    ensures Layout(t, was[i]) ==> Layout(t, now[i])
    ensures |now[i].cells| == |was[i].cells|
    ensures ReadCell(k, now[i], now[i].cells[j]) == ReadCell(k, was[i], was[i].cells[j])
  {
    var job := BackfillJob(k);
    assert Visited(job, apply, was[i]) == Ok(now[i]);
    if now[i] != was[i] {
      assert Convert(k, was[i]) == Ok(now[i]);
      if Layout(t, was[i]) {
        LayoutIsKept(k, t, was[i]);
      }
      ReadersSeeTheSame(k, was[i], j);
    }
  }

  /** After an applied run a row still counts as legacy exactly if its hash is the empty string. */
  lemma RunLeavesEmptyHashes(k: PrivateDataCipher, was: seq<Row>, now: seq<Row>, i: nat)
    requires KeepsFaith(k) && TableAfter(BackfillJob(k), was, now, true, |was|) && i < |was|
    ensures Legacy(now[i]) <==> EmptyHash(was[i])
    ensures Visited(BackfillJob(k), true, now[i]) == Ok(now[i])
  {
    assert Visited(BackfillJob(k), true, was[i]) == Ok(now[i]);
    ConvertedRowIsSettled(k, was[i]);
    if EmptyHash(was[i]) {
      var c :| 0 <= c < |was[i].cells| && was[i].cells[c] == HashCell(Some(""));
      assert LegacyCell(was[i].cells[c]);
    }
  }

  function CountEmpty(rows: seq<Row>, n: nat): nat
    requires n <= |rows|
  {
    if n == 0 then 0 else CountEmpty(rows, n - 1) + if EmptyHash(rows[n - 1]) then 1 else 0
  }

  lemma {:induction false} LegacyLeft(k: PrivateDataCipher, was: seq<Row>, now: seq<Row>, n: nat)
    requires KeepsFaith(k) && TableAfter(BackfillJob(k), was, now, true, |was|) && n <= |was|
    ensures CountLegacy(BackfillJob(k), now, n) == CountEmpty(was, n)
  {
    if n > 0 {
      LegacyLeft(k, was, now, n - 1);
      RunLeavesEmptyHashes(k, was, now, n - 1);
    }
  }

  /**
   A second run succeeds and changes nothing. It reports as converted the rows with an empty hash, so
   it converts nothing exactly when there are none.
   */
  lemma SecondRunChangesNothing(k: PrivateDataCipher, t: Table, was: seq<Row>, now: seq<Row>, again: seq<Row>)
    requires KeepsFaith(k) && TableAfter(BackfillJob(k), was, now, true, |was|)
    ensures !Blocked(BackfillJob(k), now, true)
    ensures TableAfter(BackfillJob(k), now, again, true, |now|) <==> again == now
    ensures ReportOn(BackfillJob(k), t, now, true) == Report(t, CountEmpty(was, |was|), CountEmpty(was, |was|), 0)
  {
    forall i | 0 <= i < |was| ensures Visited(BackfillJob(k), true, now[i]) == Ok(now[i]) {
      RunLeavesEmptyHashes(k, was, now, i);
    }
    if TableAfter(BackfillJob(k), now, again, true, |now|) {
      assert forall i :: 0 <= i < |now| ==> again[i] == now[i];
    }
    LegacyLeft(k, was, now, |was|);
  }

  // ---- sealed, said of the stored values themselves ---------------------------------------------

  /** A value that is there and not sealed. */
  predicate Unsealed(cell: Cell) {
    match cell
    case TextCell(_, text) => text.Some? && text.value.Plain?
    case JsonCell(_, json) => json.PlainJson? && json.value != Null
    case HashCell(hash) => hash.Some? && !("vault:" <= hash.value) && !("port-openbao:v1:" <= hash.value)
  }

  predicate StartsSealed(s: string) {
    "vault:" <= s || "port-openbao:v1:" <= s
  }

  predicate CarriesMarker(v: Json) {
    v.Object? && "storageEncryption" in v.fields && v.fields["storageEncryption"] == Text("openbao-transit/v1")
  }

  /** And not even starting or marked like something sealed. */
  predicate LeftInClear(cell: Cell) {
    && Unsealed(cell)
    && (cell.TextCell? ==> !StartsSealed(cell.text.value.text))
    && (cell.JsonCell? ==> !CarriesMarker(cell.json.value))
  }

  /** A row counts as legacy exactly for such a value. */
  lemma LegacyIff(row: Row)
    ensures Legacy(row) <==> exists j :: 0 <= j < |row.cells| && LeftInClear(row.cells[j])
  {
    forall j | 0 <= j < |row.cells| ensures LegacyCell(row.cells[j]) <==> LeftInClear(row.cells[j]) {
    }
  }

  /** What only looks sealed stops the run, so that in a run that goes through the two are the same. */
  lemma ConvertibleIsLegacyIff(k: PrivateDataCipher, row: Row)
    requires KeepsFaith(k) && Convert(k, row).Ok?
    ensures Legacy(row) <==> exists j :: 0 <= j < |row.cells| && Unsealed(row.cells[j])
  {
    ConvertedAt(k, row);
    LegacyIff(row);
    forall j | 0 <= j < |row.cells| && Unsealed(row.cells[j]) ensures LeftInClear(row.cells[j]) {
      assert ConvertCell(k, row, row.cells[j]).Ok?;
    }
  }

  /** What a column holds after an applied run: nothing, or something that opens where it stands. */
  ghost predicate SealedCell(k: PrivateDataCipher, row: Row, cell: Cell) {
    match cell
    case TextCell(p, text) =>
      text.Some? ==>
        text.value.Cipher? && k.decrypt(text.value.c, StorageBinding(row.owner, row.resource, Field(p))).Ok?
    case JsonCell(p, json) =>
      json != PlainJson(Null) ==>
        json.MarkedJson? && k.decrypt(json.c, StorageBinding(row.owner, row.resource, Field(p))).Ok?
    case HashCell(hash) => hash.Some? && hash.value != "" ==> StartsSealed(hash.value)
  }

  lemma ConvertedCellIsSealed(k: PrivateDataCipher, row: Row, cell: Cell)
    requires KeepsFaith(k) && ConvertCell(k, row, cell).Ok?
    ensures SealedCell(k, row, ConvertCell(k, row, cell).value)
  {
  }

  lemma KeptCellIsSealed(k: PrivateDataCipher, row: Row, cell: Cell)
    requires KeepsFaith(k) && ConvertCell(k, row, cell).Ok? && !LegacyCell(cell)
    ensures SealedCell(k, row, cell)
  {
  }

  /**
   After an applied run no column of any row is left in the clear: every text and every JSON value is
   sealed and opens under the owner, the resource and the field it belongs to, and every hash but the
   empty one is a fingerprint.
   */
  lemma AppliedRunSeals(k: PrivateDataCipher, was: seq<Row>, now: seq<Row>, i: nat, j: nat)
    requires KeepsFaith(k) && TableAfter(BackfillJob(k), was, now, true, |was|)
    requires i < |now| && j < |now[i].cells|
    ensures now[i].owner == was[i].owner && now[i].resource == was[i].resource && now[i].id == was[i].id
    ensures SealedCell(k, now[i], now[i].cells[j])
  {
    assert Visited(BackfillJob(k), true, was[i]) == Ok(now[i]);
    ConvertedAt(k, was[i]);
    if Legacy(was[i]) {
      ConvertedCellIsSealed(k, was[i], was[i].cells[j]);
    } else {
      assert ConvertCell(k, was[i], was[i].cells[j]).Ok? && !LegacyCell(was[i].cells[j]);
      KeptCellIsSealed(k, was[i], was[i].cells[j]);
    }
  }

  function UnsealedRows(rows: seq<Row>, n: nat): set<nat>
    requires n <= |rows|
  {
    set i | 0 <= i < n && HasUnsealed(rows[i])
  }

  predicate HasUnsealed(row: Row) {
    exists j :: 0 <= j < |row.cells| && Unsealed(row.cells[j])
  }

  function LegacyRows(job: Job, rows: seq<Row>, n: nat): set<nat>
    requires n <= |rows|
  {
    set i | 0 <= i < n && job.legacy(rows[i])
  }

  /** The reported number is that of the rows found legacy. */
  lemma {:induction false} CountIsTheirNumber(job: Job, rows: seq<Row>, n: nat)
    requires n <= |rows|
    ensures CountLegacy(job, rows, n) == |LegacyRows(job, rows, n)|
  {
    if n == 0 {
      assert LegacyRows(job, rows, 0) == {};
    } else {
      CountIsTheirNumber(job, rows, n - 1);
      if job.legacy(rows[n - 1]) {
        assert LegacyRows(job, rows, n) == LegacyRows(job, rows, n - 1) + {n - 1};
      } else {
        assert LegacyRows(job, rows, n) == LegacyRows(job, rows, n - 1);
      }
    }
  }

  lemma LegacyIsUnsealed(k: PrivateDataCipher, was: seq<Row>)
    requires KeepsFaith(k) && forall i :: 0 <= i < |was| ==> Convert(k, was[i]).Ok?
    ensures LegacyRows(BackfillJob(k), was, |was|) == UnsealedRows(was, |was|)
  {
    forall i | 0 <= i < |was| ensures BackfillJob(k).legacy(was[i]) <==> HasUnsealed(was[i]) {
      ConvertibleIsLegacyIff(k, was[i]);
    }
  }

  /** An applied run reports, and has converted, exactly as many rows as had something in the clear before. */
  lemma ReportCountsUnsealed(k: PrivateDataCipher, t: Table, was: seq<Row>, now: seq<Row>)
    requires KeepsFaith(k) && TableAfter(BackfillJob(k), was, now, true, |was|)
    ensures ReportOn(BackfillJob(k), t, was, true)
      == Report(t, |UnsealedRows(was, |was|)|, |UnsealedRows(was, |was|)|, 0)
    ensures forall i :: 0 <= i < |was| && now[i] != was[i] ==> i in UnsealedRows(was, |was|)
  {
    forall i | 0 <= i < |was| ensures Convert(k, was[i]).Ok? {
      assert Visited(BackfillJob(k), true, was[i]) == Ok(now[i]);
    }
    LegacyIsUnsealed(k, was);
    CountIsTheirNumber(BackfillJob(k), was, |was|);
    forall i | 0 <= i < |was| && now[i] != was[i] ensures i in UnsealedRows(was, |was|) {
      assert Visited(BackfillJob(k), true, was[i]) == Ok(now[i]);
      ConvertibleIsLegacyIff(k, was[i]);
    }
  }
}
