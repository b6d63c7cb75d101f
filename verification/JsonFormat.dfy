/**
 A text for every JSON value that can be read back: the requirements on JSON text and on the length of
 ciphertext can be met.
 */
module JsonFormats {
  import opened Common
  import opened Base64
  import opened PrivateData
  import UploadFrames

  // ---- the text, followed by whatever comes after it --------------------------------------------

  predicate IsPlain(c: char) {
    32 <= c as int < 127 && c != '"' && c != '\\'
  }

  function CharThen(c: char, rest: Bytes): Bytes {
    var n := c as int;
    if IsPlain(c) then [n] + rest else [92, n / 65536, n / 256 % 256, n % 256] + rest
  }

  function StringThen(s: string, rest: Bytes): Bytes {
    if s == "" then [34] + rest else CharThen(s[0], StringThen(s[1..], rest))
  }

  function NumberThen(n: nat, rest: Bytes): Bytes {
    if n < 256 then [0, n] + rest else [1, n % 256] + NumberThen(n / 256, rest)
  }

  ghost function Pick(fields: map<string, Json>): (k: string)
    requires fields.Keys != {}
    ensures k in fields
  {
    var k :| k in fields.Keys;
    k
  }

  ghost function TextThen(j: Json, rest: Bytes): Bytes
    decreases j, 1, 0
  {
    match j
    case Null => [110] + rest
    case Number(n) => if n >= 0 then [43] + NumberThen(n, rest) else [45] + NumberThen(-n, rest)
    case Text(s) => [34] + StringThen(s, rest)
    case List(items) => [91] + ItemsThen(j, 0, rest)
    case Object(fields) => [123] + FieldsThen(j, fields, rest)
  }

  ghost function ItemsThen(j: Json, from: nat, rest: Bytes): Bytes
    requires j.List? && from <= |j.items|
    decreases j, 0, |j.items| - from
  {
    if from == |j.items| then [93] + rest else [44] + TextThen(j.items[from], ItemsThen(j, from + 1, rest))
  }

  predicate SomeOf(j: Json, fields: map<string, Json>) {
    j.Object? && forall k :: k in fields ==> k in j.fields && fields[k] == j.fields[k]
  }

  ghost function FieldsThen(j: Json, fields: map<string, Json>, rest: Bytes): Bytes
    requires SomeOf(j, fields)
    decreases j, 0, |fields.Keys|
  {
    if fields.Keys == {} then [125] + rest
    else
      var k := Pick(fields);
      var others := fields - {k};
      assert others.Keys == fields.Keys - {k};
      [44] + StringThen(k, TextThen(j.fields[k], FieldsThen(j, others, rest)))
  }

  // ---- it can be read back ----------------------------------------------------------------------

  lemma CharStarts(c: char, x: Bytes)
    ensures var l := CharThen(c, x);
      && |l| > 0 && l[0] != 34 && (IsPlain(c) <==> l[0] != 92)
      && (if IsPlain(c) then l[0] == c as int && l[1..] == x
          else |l| >= 4 && l[1] == c as int / 65536 && l[2] == c as int / 256 % 256 && l[3] == c as int % 256
               && l[4..] == x)
  {
  }

  lemma CharIsReadable(c: char, x: Bytes, d: char, y: Bytes)
    requires CharThen(c, x) == CharThen(d, y)
    ensures c == d && x == y
  {
    CharStarts(c, x);
    CharStarts(d, y);
  }

  lemma {:induction false} StringIsReadable(s: string, x: Bytes, t: string, y: Bytes)
    requires StringThen(s, x) == StringThen(t, y)
    ensures s == t && x == y
  {
    if s != "" {
      CharStarts(s[0], StringThen(s[1..], x));
    }
    if t != "" {
      CharStarts(t[0], StringThen(t[1..], y));
    }
    if s != "" && t != "" {
      CharIsReadable(s[0], StringThen(s[1..], x), t[0], StringThen(t[1..], y));
      StringIsReadable(s[1..], x, t[1..], y);
      assert s == [s[0]] + s[1..] && t == [t[0]] + t[1..];
    } else {
      assert StringThen(s, x)[0] == 34;
      assert StringThen(s, x)[1..] == x && StringThen(s, x)[1..] == y;
    }
  }

  lemma {:induction false} NumberIsReadable(m: nat, x: Bytes, n: nat, y: Bytes)
    requires NumberThen(m, x) == NumberThen(n, y)
    ensures m == n && x == y
  {
    var l := NumberThen(m, x);
    assert l[0] == (if m < 256 then 0 else 1) == (if n < 256 then 0 else 1);
    assert l[1] == m % 256 == n % 256;
    if m < 256 {
      assert l[2..] == x && l[2..] == y;
    } else {
      assert l[2..] == NumberThen(m / 256, x) && l[2..] == NumberThen(n / 256, y);
      NumberIsReadable(m / 256, x, n / 256, y);
    }
  }

  lemma {:induction false} ItemsAreReadable(j: Json, from: nat, x: Bytes, k: Json, at: nat, y: Bytes)
    requires j.List? && from <= |j.items| && k.List? && at <= |k.items|
    requires ItemsThen(j, from, x) == ItemsThen(k, at, y)
    ensures j.items[from..] == k.items[at..] && x == y
    decreases j, 0, |j.items| - from
  {
    var l := ItemsThen(j, from, x);
    if from == |j.items| {
      assert l[0] == 93 && l[1..] == x;
      assert at == |k.items| && l[1..] == y;
    } else {
      assert l[0] == 44 && at < |k.items|;
      assert l[1..] == TextThen(j.items[from], ItemsThen(j, from + 1, x));
      assert l[1..] == TextThen(k.items[at], ItemsThen(k, at + 1, y));
      TextIsReadable(j.items[from], ItemsThen(j, from + 1, x), k.items[at], ItemsThen(k, at + 1, y));
      ItemsAreReadable(j, from + 1, x, k, at + 1, y);
    }
  }

  lemma FieldsStart(j: Json, fields: map<string, Json>, rest: Bytes) returns (k: string, others: map<string, Json>)
    requires SomeOf(j, fields) && fields.Keys != {}
    ensures k in fields && others == fields - {k} && SomeOf(j, others) && |others.Keys| < |fields.Keys|
    ensures fields == others[k := j.fields[k]]
    ensures FieldsThen(j, fields, rest)[0] == 44
    ensures FieldsThen(j, fields, rest)[1..] == StringThen(k, TextThen(j.fields[k], FieldsThen(j, others, rest)))
  {
    k := Pick(fields);
    others := fields - {k};
    assert others.Keys == fields.Keys - {k};
  }

  lemma {:induction false} FieldsAreReadable(
    j: Json, f: map<string, Json>, x: Bytes, k: Json, g: map<string, Json>, y: Bytes)
    requires SomeOf(j, f) && SomeOf(k, g) && FieldsThen(j, f, x) == FieldsThen(k, g, y)
    ensures f == g && x == y
    decreases j, 0, |f.Keys|
  {
    if f.Keys == {} || g.Keys == {} {
      assert FieldsThen(j, f, x)[0] == (if f.Keys == {} then 125 else 44);
      assert FieldsThen(k, g, y)[0] == (if g.Keys == {} then 125 else 44);
      assert FieldsThen(j, f, x)[1..] == x && FieldsThen(k, g, y)[1..] == y;
    } else {
      var a, f' := FieldsStart(j, f, x);
      var b, g' := FieldsStart(k, g, y);
      var x', y' := FieldsThen(j, f', x), FieldsThen(k, g', y);
      StringIsReadable(a, TextThen(j.fields[a], x'), b, TextThen(k.fields[b], y'));
      TextIsReadable(j.fields[a], x', k.fields[b], y');
      FieldsAreReadable(j, f', x, k, g', y);
    }
  }

  /** The text ends where it says, so it determines the value. */
  lemma {:induction false} TextIsReadable(j: Json, x: Bytes, k: Json, y: Bytes)
    requires TextThen(j, x) == TextThen(k, y)
    ensures j == k && x == y
    decreases j, 1, 0
  {
    var l := TextThen(j, x);
    var tail := l[1..];
    match j
    case Null =>
      assert l[0] == 110 && k.Null? && tail == x && tail == y;
    case Number(n) =>
      assert l[0] == (if n >= 0 then 43 else 45) && k.Number? && (n >= 0 <==> k.n >= 0);
      if n >= 0 {
        assert tail == NumberThen(n, x) && tail == NumberThen(k.n, y);
        NumberIsReadable(n, x, k.n, y);
      } else {
        assert tail == NumberThen(-n, x) && tail == NumberThen(-k.n, y);
        NumberIsReadable(-n, x, -k.n, y);
      }
    case Text(s) =>
      assert l[0] == 34 && k.Text? && tail == StringThen(s, x) && tail == StringThen(k.s, y);
      StringIsReadable(s, x, k.s, y);
    case List(items) =>
      assert l[0] == 91 && k.List? && tail == ItemsThen(j, 0, x) && tail == ItemsThen(k, 0, y);
      ItemsAreReadable(j, 0, x, k, 0, y);
      assert j.items[0..] == j.items && k.items[0..] == k.items;
    case Object(fields) =>
      assert l[0] == 123 && k.Object? && tail == FieldsThen(j, fields, x) && tail == FieldsThen(k, k.fields, y);
      FieldsAreReadable(j, fields, x, k, k.fields, y);
  }

  // ---- and is short where it has to be ----------------------------------------------------------

  lemma {:induction false} PlainStringLength(s: string, rest: Bytes)
    requires forall i :: 0 <= i < |s| ==> IsPlain(s[i])
    ensures |StringThen(s, rest)| == |s| + 1 + |rest|
  {
    if s != "" {
      PlainStringLength(s[1..], rest);
    }
  }

  lemma {:induction false} EncodedIsPlain(b: Bytes)
    ensures forall i :: 0 <= i < |Encode(b)| ==> IsPlain(Encode(b)[i])
  {
    if |b| > 2 {
      EncodedIsPlain(b[3..]);
    }
  }

  lemma NumberIsShort(n: nat, rest: Bytes)
    requires n < 0x1_0000_0000
    ensures |NumberThen(n, rest)| <= 8 + |rest|
  {
    var a := n / 256;
    var b := a / 256;
    var c := b / 256;
    assert c < 256 && |NumberThen(c, rest)| == 2 + |rest|;
    assert |NumberThen(b, rest)| <= 4 + |rest|;
    assert |NumberThen(a, rest)| <= 6 + |rest|;
  }

  /** One field of a manifest, with its name. */
  lemma ManifestFieldIsShort(name: string, j: Json, rest: Bytes)
    requires name in {"bytes", "count", "sha256"}
    requires j == Text("") || (j.Number? && 0 <= j.n < 0x1_0000_0000)
    ensures |StringThen(name, TextThen(j, rest))| <= 16 + |rest|
  {
    PlainStringLength(name, TextThen(j, rest));
    if j.Number? {
      NumberIsShort(j.n, rest);
    } else {
      PlainStringLength("", rest);
    }
  }

  predicate ManifestFields(fields: map<string, Json>) {
    forall k :: k in fields ==>
      k in {"bytes", "count", "sha256"}
      && (fields[k] == Text("") || (fields[k].Number? && 0 <= fields[k].n < 0x1_0000_0000))
  }

  lemma {:induction false} FieldsAreShort(j: Json, fields: map<string, Json>, rest: Bytes)
    requires SomeOf(j, fields) && ManifestFields(fields)
    ensures |FieldsThen(j, fields, rest)| <= 17 * |fields.Keys| + 1 + |rest|
    decreases |fields.Keys|
  {
    if fields.Keys != {} {
      var k := Pick(fields);
      var others := fields - {k};
      assert others.Keys == fields.Keys - {k};
      FieldsAreShort(j, others, rest);
      ManifestFieldIsShort(k, j.fields[k], FieldsThen(j, others, rest));
    }
  }

  lemma ManifestIsShort(bytes: nat, count: nat)
    requires bytes < 0x1_0000_0000 && count < 0x1_0000_0000
    ensures |TextThen(ManifestRecord(bytes, count, ""), [])| <= MANIFEST_BOUND
  {
    var j := ManifestRecord(bytes, count, "");
    assert j.fields.Keys == {"bytes", "count", "sha256"};
    FieldsAreShort(j, j.fields, []);
  }

  // ---- the format -------------------------------------------------------------------------------

  ghost function Parse(b: Bytes): Option<Json> {
    if exists j :: TextThen(j, []) == b then
      var j :| TextThen(j, []) == b;
      Some(j)
    else None
  }

  ghost function Witness(): Format {
    Format((j: Json) => TextThen(j, []), (b: Bytes) => Parse(b), (b: Bytes) => "")
  }

  /** There is a format that meets all that the codec relies on, and a measure of ciphertext in its bound. */
  lemma LawsCanBeMet()
    ensures Lawful(Witness())
    ensures UploadFrames.Expansion((c: Ciphertext) => if c.Sealed? then |c.raw| else 0)
  {
    var f := Witness();
    forall j ensures f.parse(f.render(j)) == Some(j) {
      assert Parse(TextThen(j, [])).Some?;
      TextIsReadable(j, [], Parse(TextThen(j, [])).value, []);
    }
    forall bytes: nat, count: nat, raw | bytes < 0x1_0000_0000 && count < 0x1_0000_0000
      ensures |f.render(ManifestRecord(bytes, count, f.digest(raw)))| <= MANIFEST_BOUND
    {
      ManifestIsShort(bytes, count);
    }
    forall b: Bytes ensures |f.render(Text(Encode(b)))| == |Encode(b)| + 2 {
      EncodedIsPlain(b);
      PlainStringLength(Encode(b), []);
    }
  }

  /** So the laws that the stored uploads and the users of the service rely on can be met, too. */
  lemma ServiceLawsCanBeMet(hmac: (string, string) -> string, owner: string, name: string)
    ensures KeepsFaith(OpenBao(Witness(), hmac))
    ensures var text := (c: Ciphertext) => if c.Sealed? then |c.raw| else 0;
      UploadFrames.Laws(UploadFrames.UploadCodec(Witness(), text, owner, name))
  {
    LawsCanBeMet();
    OpenBaoKeepsFaith(Witness(), hmac);
    var text := (c: Ciphertext) => if c.Sealed? then |c.raw| else 0;
    UploadFrames.UploadCodecIsLawful(Witness(), text, owner, name);
  }
}
