/**
 Storage bindings: what ties a sealed value to its owner, its resource and its field. The
 associated data differs whenever the binding does, and the field whenever the place it names does.
 */
module Bindings {
  import opened Common

  const MAX_LENGTH := 256

  datatype StorageBinding = StorageBinding(owner: string, resource: string, field: string)

  function Part(b: StorageBinding, name: string): StorageBinding {
    b.(field := b.field + ":" + name)
  }

  /** What `strip` removes among the characters that are not control characters. */
  predicate EdgeSpace(c: char) {
    var n := c as int;
    || n == 32 || n == 0x85 || n == 0xA0 || n == 0x1680
    || 0x2000 <= n <= 0x200A || n == 0x2028 || n == 0x2029 || n == 0x202F || n == 0x205F || n == 0x3000
  }

  predicate ValidField(s: string) {
    && 1 <= |s| <= MAX_LENGTH
    && !EdgeSpace(s[0]) && !EdgeSpace(s[|s| - 1])
    && forall k :: 0 <= k < |s| ==> s[k] as int >= 32 && s[k] as int != 127
  }

  predicate Valid(b: StorageBinding) {
    ValidField(b.owner) && ValidField(b.resource) && ValidField(b.field)
  }

  lemma AfterPrefix(p: string, x: string, y: string)
    requires p + x == p + y
    ensures x == y
  {
    assert (p + x)[|p|..] == x && (p + y)[|p|..] == y;
  }

  // ---- the associated data ----------------------------------------------------------------------

  /** JSON escaping of one character of a valid field: only quotes and backslashes need it. */
  function Unit(c: char): string {
    if c == '"' || c == '\\' then ['\\', c] else [c]
  }

  function Escape(s: string): string {
    if s == "" then "" else Unit(s[0]) + Escape(s[1..])
  }

  /** A JSON string followed by the rest of the text. */
  function Quoted(s: string, rest: string): string {
    "\"" + (Escape(s) + ("\"" + rest))
  }

  /** The JSON list that is sent, in base64, as associated data. */
  function AssociatedData(b: StorageBinding): string {
    "[\"port/private-data/v1\"," + Quoted(b.owner, "," + Quoted(b.resource, "," + Quoted(b.field, "]")))
  }

  lemma UnitIsReadable(c: char, x: string, d: char, y: string)
    requires Unit(c) + x == Unit(d) + y
    ensures c == d && x == y
  {
    var l := Unit(c) + x;
    assert l[0] == Unit(c)[0] == Unit(d)[0];
    if l[0] == '\\' {
      assert l[1] == Unit(c)[1] == Unit(d)[1];
    }
    AfterPrefix(Unit(c), x, y);
  }

  lemma EscapeCons(s: string, x: string)
    requires s != ""
    ensures Escape(s) + x == Unit(s[0]) + (Escape(s[1..]) + x)
    ensures (Escape(s) + x)[0] != '"'
  {
    var u, e := Unit(s[0]), Escape(s[1..]);
    assert (u + e) + x == u + (e + x);
    assert (u + (e + x))[0] == u[0];
  }

  /** An escaped string ends where its closing quote says, so reading it back is unambiguous. */
  lemma {:induction false} EscapeIsReadable(s: string, x: string, t: string, y: string)
    requires Escape(s) + ("\"" + x) == Escape(t) + ("\"" + y)
    ensures s == t && x == y
    decreases |s|
  {
    var x', y' := "\"" + x, "\"" + y;
    if s == "" && t == "" {
      assert Escape(s) + x' == x' && Escape(t) + y' == y';
      AfterPrefix("\"", x, y);
    } else if s == "" {
      assert (Escape(s) + x')[0] == '"';
      EscapeCons(t, y');
    } else if t == "" {
      assert (Escape(t) + y')[0] == '"';
      EscapeCons(s, x');
    } else {
      EscapeCons(s, x');
      EscapeCons(t, y');
      UnitIsReadable(s[0], Escape(s[1..]) + x', t[0], Escape(t[1..]) + y');
      EscapeIsReadable(s[1..], x, t[1..], y);
      assert s == [s[0]] + s[1..] && t == [t[0]] + t[1..];
    }
  }

  lemma QuotedIsReadable(s: string, x: string, t: string, y: string)
    requires Quoted(s, x) == Quoted(t, y)
    ensures s == t && x == y
  {
    AfterPrefix("\"", Escape(s) + ("\"" + x), Escape(t) + ("\"" + y));
    EscapeIsReadable(s, x, t, y);
  }

  /** Different bindings have different associated data. */
  lemma AssociatedDataSeparates(b: StorageBinding, c: StorageBinding)
    requires AssociatedData(b) == AssociatedData(c)
    ensures b == c
  {
    var fields, fields' := Quoted(b.field, "]"), Quoted(c.field, "]");
    var tail, tail' := Quoted(b.resource, "," + fields), Quoted(c.resource, "," + fields');
    AfterPrefix("[\"port/private-data/v1\",", Quoted(b.owner, "," + tail), Quoted(c.owner, "," + tail'));
    QuotedIsReadable(b.owner, "," + tail, c.owner, "," + tail');
    AfterPrefix(",", tail, tail');
    QuotedIsReadable(b.resource, "," + fields, c.resource, "," + fields');
    AfterPrefix(",", fields, fields');
    QuotedIsReadable(b.field, "]", c.field, "]");
  }

  // ---- decimal numbers --------------------------------------------------------------------------

  predicate NoColon(s: string) {
    forall k :: 0 <= k < |s| ==> s[k] != ':'
  }

  function Decimal(n: nat): (s: string)
    ensures |s| >= 1 && forall k :: 0 <= k < |s| ==> '0' <= s[k] <= '9'
  {
    if n < 10 then ['0' + n as char] else Decimal(n / 10) + ['0' + (n % 10) as char]
  }

  lemma {:induction false} DecimalIsInjective(m: nat, n: nat)
    requires Decimal(m) == Decimal(n)
    ensures m == n
  {
    var s, t := Decimal(m), Decimal(n);
    assert m % 10 == n % 10 by {
      assert s[|s| - 1] == '0' + (m % 10) as char;
      assert t[|t| - 1] == '0' + (n % 10) as char;
    }
    if m >= 10 && n >= 10 {
      assert s[..|s| - 1] == Decimal(m / 10);
      assert t[..|t| - 1] == Decimal(n / 10);
      DecimalIsInjective(m / 10, n / 10);
    } else {
      assert m < 10 <==> |s| == 1;
      assert n < 10 <==> |t| == 1;
    }
  }

  // ---- field names ------------------------------------------------------------------------------

  predicate UuidText(s: string) {
    |s| == 36 && forall k :: 0 <= k < |s| ==> '0' <= s[k] <= '9' || 'a' <= s[k] <= 'f' || s[k] == '-'
  }

  type Uuid = s: string | UuidText(s) witness "00000000-0000-0000-0000-000000000000"

  /** Where a sealed value lives within its resource. */
  datatype Place =
    | DocumentName
    | DocumentError
    | WebpageUrl(index: nat)
    | WebpageContent
    | WebpageError
    | WebpageFingerprint
    | ChunkText(seqNo: nat)
    | ChunkMetadata(seqNo: nat)
    | UploadChunk(index: nat)
    | UploadManifest
    | RevisionName(doc: Uuid)
    | RevisionText(doc: Uuid, seqNo: nat)
    | RevisionMetadata(doc: Uuid, seqNo: nat)

  /** The parts that a large value is cut into, and their parts in turn. */
  datatype Portion = Chunk(index: nat) | Manifest

  function Segments(p: Place): (s: seq<string>)
    ensures |s| >= 2
  {
    match p
    case DocumentName => ["document", "name"]
    case DocumentError => ["document", "error"]
    case WebpageUrl(i) => ["webpage", "url", Decimal(i)]
    case WebpageContent => ["webpage", "content"]
    case WebpageError => ["webpage", "error"]
    case WebpageFingerprint => ["webpage", "content-fingerprint"]
    case ChunkText(n) => ["chunk", Decimal(n), "text"]
    case ChunkMetadata(n) => ["chunk", Decimal(n), "metadata"]
    case UploadChunk(i) => ["upload", "chunk", Decimal(i)]
    case UploadManifest => ["upload", "manifest"]
    case RevisionName(doc) => ["document", doc, "name"]
    case RevisionText(doc, n) => ["document", doc, "chunk", Decimal(n), "text"]
    case RevisionMetadata(doc, n) => ["document", doc, "chunk", Decimal(n), "metadata"]
  }

  lemma SegmentsHaveNoColon(p: Place)
    ensures forall k :: 0 <= k < |Segments(p)| ==> NoColon(Segments(p)[k])
  {
    if p.WebpageUrl? || p.WebpageContent? || p.WebpageError? || p.WebpageFingerprint? {
      assert NoColon("webpage") && NoColon("url") && NoColon("content") && NoColon("error");
      assert NoColon("content-fingerprint");
    } else {
      assert NoColon("document") && NoColon("name") && NoColon("error") && NoColon("chunk");
      assert NoColon("text") && NoColon("metadata") && NoColon("upload") && NoColon("manifest");
    }
  }

  function PortionSegments(q: Portion): (s: seq<string>)
    ensures |s| >= 1 && forall k :: 0 <= k < |s| ==> NoColon(s[k])
  {
    match q
    case Chunk(i) => ["chunk", Decimal(i)]
    case Manifest => ["manifest"]
  }

  function PathSegments(path: seq<Portion>): (s: seq<string>)
    ensures forall k :: 0 <= k < |s| ==> NoColon(s[k])
  {
    if path == [] then [] else PortionSegments(path[0]) + PathSegments(path[1..])
  }

  function Join(s: seq<string>): string
    requires s != []
  {
    if |s| == 1 then s[0] else s[0] + (":" + Join(s[1..]))
  }

  function Field(p: Place): string {
    Join(Segments(p))
  }

  function PortionName(q: Portion): string {
    Join(PortionSegments(q))
  }

  /** The binding under which a portion of a portion … of the value at a place is sealed. */
  function PortionOf(b: StorageBinding, path: seq<Portion>): StorageBinding
    decreases path
  {
    if path == [] then b else PortionOf(Part(b, PortionName(path[0])), path[1..])
  }

  lemma JoinThree(a: string, b: string, c: string)
    ensures Join([a, b, c]) == a + ":" + b + ":" + c
  {
    assert [a, b, c][1..] == [b, c] && [b, c][1..] == [c];
    assert Join([c]) == c;
    assert a + (":" + (b + (":" + c))) == a + ":" + b + ":" + c;
  }

  lemma {:induction false} JoinAppend(s: seq<string>, t: seq<string>)
    requires s != [] && t != []
    ensures Join(s) + (":" + Join(t)) == Join(s + t)
  {
    if |s| == 1 {
      assert (s + t)[1..] == t;
    } else {
      JoinAppend(s[1..], t);
      assert (s + t)[1..] == s[1..] + t;
      var c, d := ":" + Join(s[1..]), ":" + Join(t);
      assert (s[0] + c) + d == s[0] + (c + d);
      assert c + d == ":" + (Join(s[1..]) + d);
    }
  }

  lemma {:induction false} FieldOfPath(b: StorageBinding, s: seq<string>, path: seq<Portion>)
    requires s != [] && b.field == Join(s)
    ensures PortionOf(b, path) == b.(field := Join(s + PathSegments(path)))
    decreases path
  {
    if path == [] {
      assert s + PathSegments(path) == s;
    } else {
      var one := PortionSegments(path[0]);
      JoinAppend(s, one);
      var part := Part(b, PortionName(path[0]));
      assert part.field == Join(s + one) by {
        assert (Join(s) + ":") + Join(one) == Join(s) + (":" + Join(one));
      }
      FieldOfPath(part, s + one, path[1..]);
      assert (s + one) + PathSegments(path[1..]) == s + PathSegments(path);
    }
  }

  lemma NoEarlierColon(x: string, r: string, y: string, t: string)
    requires NoColon(y) && x + r == y + t && (r == "" || r[0] == ':')
    ensures |x| >= |y|
  {
    assert r != "" ==> (x + r)[|x|] == ':';
  }

  /** The first segment ends at the first colon. */
  lemma SegmentEnds(x: string, r: string, y: string, t: string)
    requires NoColon(x) && NoColon(y)
    requires x + r == y + t && (r == "" || r[0] == ':') && (t == "" || t[0] == ':')
    ensures x == y && r == t
  {
    NoEarlierColon(x, r, y, t);
    NoEarlierColon(y, t, x, r);
    assert x == (x + r)[..|x|] == (y + t)[..|y|] == y;
    AfterPrefix(x, r, t);
  }

  function After(s: seq<string>): string
    requires s != []
  {
    if |s| == 1 then "" else ":" + Join(s[1..])
  }

  lemma {:induction false} JoinIsInjective(s: seq<string>, t: seq<string>)
    requires s != [] && t != [] && Join(s) == Join(t)
    requires forall k :: 0 <= k < |s| ==> NoColon(s[k])
    requires forall k :: 0 <= k < |t| ==> NoColon(t[k])
    ensures s == t
  {
    assert Join(s) == s[0] + After(s) && Join(t) == t[0] + After(t);
    SegmentEnds(s[0], After(s), t[0], After(t));
    if |s| > 1 && |t| > 1 {
      AfterPrefix(":", Join(s[1..]), Join(t[1..]));
      JoinIsInjective(s[1..], t[1..]);
      assert s == [s[0]] + s[1..] && t == [t[0]] + t[1..];
    }
  }

  lemma {:induction false} PathIsReadable(a: seq<Portion>, b: seq<Portion>)
    requires PathSegments(a) == PathSegments(b)
    ensures a == b
  {
    if a != [] && b != [] {
      var s, t := PortionSegments(a[0]), PortionSegments(b[0]);
      var l := PathSegments(a);
      assert l[0] == s[0] == t[0];
      if a[0].Chunk? {
        assert l[1] == s[1] == t[1];
        DecimalIsInjective(a[0].index, b[0].index);
      }
      assert PathSegments(a[1..]) == l[|s|..] == PathSegments(b[1..]);
      PathIsReadable(a[1..], b[1..]);
      assert a == [a[0]] + a[1..] && b == [b[0]] + b[1..];
    }
  }

  /** Which kind of place a list of segments starts with. */
  function KindOf(l: seq<string>): nat
    requires |l| >= 2
  {
    if l[0] == "document" then
      if l[1] == "name" then 0
      else if l[1] == "error" then 1
      else if |l| < 3 || l[2] == "name" then 10
      else if |l| < 5 || l[4] == "text" then 11
      else 12
    else if l[0] == "webpage" then
      if l[1] == "url" then 2
      else if l[1] == "content" then 3
      else if l[1] == "error" then 4
      else 5
    else if l[0] == "chunk" then
      if |l| < 3 || l[2] == "text" then 6 else 7
    else if l[1] == "chunk" then 8
    else 9
  }

  function Kind(p: Place): nat {
    match p
    case DocumentName => 0
    case DocumentError => 1
    case WebpageUrl(_) => 2
    case WebpageContent => 3
    case WebpageError => 4
    case WebpageFingerprint => 5
    case ChunkText(_) => 6
    case ChunkMetadata(_) => 7
    case UploadChunk(_) => 8
    case UploadManifest => 9
    case RevisionName(_) => 10
    case RevisionText(_, _) => 11
    case RevisionMetadata(_, _) => 12
  }

  lemma KindIsReadable(p: Place, rest: seq<string>)
    ensures KindOf(Segments(p) + rest) == Kind(p)
  {
    assert "document"[0] == 'd' && "webpage"[0] == 'w' && "chunk"[0] == 'c' && "upload"[0] == 'u';
  }

  lemma PlaceIsReadable(p: Place, a: seq<string>, q: Place, b: seq<string>)
    requires Segments(p) + a == Segments(q) + b
    ensures p == q && a == b
  {
    KindIsReadable(p, a);
    KindIsReadable(q, b);
    var l, s, t := Segments(p) + a, Segments(p), Segments(q);
    assert |s| == |t|;
    assert forall k :: 0 <= k < |s| ==> s[k] == l[k] == t[k];
    assert a == l[|s|..] == b;
    if p.WebpageUrl? || p.UploadChunk? {
      assert s[2] == t[2];
      DecimalIsInjective(p.index, q.index);
    } else if p.ChunkText? || p.ChunkMetadata? {
      assert s[1] == t[1];
      DecimalIsInjective(p.seqNo, q.seqNo);
    } else if p.RevisionText? || p.RevisionMetadata? {
      assert s[1] == t[1] && s[3] == t[3];
      DecimalIsInjective(p.seqNo, q.seqNo);
    } else if p.RevisionName? {
      assert s[1] == t[1];
    }
  }

  /** What is sealed for a portion of the value at a place in some owner's resource. */
  function SealedUnder(owner: string, resource: string, p: Place, path: seq<Portion>): StorageBinding {
    PortionOf(StorageBinding(owner, resource, Field(p)), path)
  }

  /**
   No two things the service seals share associated data: it determines the owner, the resource, the
   place within it, and the portion of the value found there.
   */
  lemma SealsAreSeparate(
    owner: string, resource: string, p: Place, path: seq<Portion>,
    owner': string, resource': string, p': Place, path': seq<Portion>)
    requires AssociatedData(SealedUnder(owner, resource, p, path))
          == AssociatedData(SealedUnder(owner', resource', p', path'))
    ensures owner == owner' && resource == resource' && p == p' && path == path'
  {
    var b, b' := SealedUnder(owner, resource, p, path), SealedUnder(owner', resource', p', path');
    AssociatedDataSeparates(b, b');
    FieldOfPath(StorageBinding(owner, resource, Field(p)), Segments(p), path);
    FieldOfPath(StorageBinding(owner', resource', Field(p')), Segments(p'), path');
    SegmentsHaveNoColon(p);
    SegmentsHaveNoColon(p');
    JoinIsInjective(Segments(p) + PathSegments(path), Segments(p') + PathSegments(path'));
    PlaceIsReadable(p, PathSegments(path), p', PathSegments(path'));
    PathIsReadable(path, path');
  }

  // ---- validity of derived bindings -------------------------------------------------------------

  function Power(k: nat): nat {
    if k == 0 then 1 else 10 * Power(k - 1)
  }

  lemma {:induction false} DecimalIsShort(n: nat, digits: nat)
    requires digits >= 1 && n < Power(digits)
    ensures |Decimal(n)| <= digits
  {
    if n >= 10 {
      assert digits >= 2 && n / 10 < Power(digits - 1);
      DecimalIsShort(n / 10, digits - 1);
    }
  }

  lemma ChunkName(i: nat)
    ensures PortionName(Chunk(i)) == "chunk" + (":" + Decimal(i))
  {
    var s := PortionSegments(Chunk(i));
    assert s == ["chunk", Decimal(i)] && s[1..] == [Decimal(i)];
    assert Join([Decimal(i)]) == Decimal(i);
  }

  /** A derived binding is valid exactly when the longer field still fits. */
  lemma PartValidIffFits(b: StorageBinding, q: Portion)
    requires Valid(b)
    ensures Valid(Part(b, PortionName(q))) <==> |b.field| + 1 + |PortionName(q)| <= MAX_LENGTH
  {
    var name := PortionName(q);
    var field := Part(b, name).field;
    assert field[0] == b.field[0];
    PortionNameIsPlain(q);
    assert field[|field| - 1] == name[|name| - 1];
  }

  lemma PortionNameIsPlain(q: Portion)
    ensures var name := PortionName(q);
      |name| >= 1 && forall k :: 0 <= k < |name| ==> '0' <= name[k] <= 'z'
  {
    if q.Chunk? {
      ChunkName(q.index);
    } else {
      assert PortionName(q) == "manifest";
    }
  }

  /** Every portion of a value below a thousand chunks keeps a field of up to 246 characters valid. */
  lemma ShortFieldsHaveValidParts(b: StorageBinding, q: Portion)
    requires Valid(b) && |b.field| <= 246 && (q.Chunk? ==> q.index < 1000)
    ensures Valid(Part(b, PortionName(q)))
  {
    PartValidIffFits(b, q);
    if q.Chunk? {
      assert Power(3) == 1000;
      DecimalIsShort(q.index, 3);
      ChunkName(q.index);
    } else {
      assert PortionName(q) == "manifest";
    }
  }
}
