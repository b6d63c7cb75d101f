/**
 What is written where, in letters: field names, associated data, lookups, and base64 as RFC 4648 has it.
 */
module StoredNames {
  import opened Common
  import opened Base64
  import opened Bindings
  import opened PrivateData
  import Windows

  // ---- numbers and names ------------------------------------------------------------------------

  function ValueOfDigits(s: string): int {
    if s == "" then 0 else 10 * ValueOfDigits(s[..|s| - 1]) + (s[|s| - 1] as int - '0' as int)
  }

  /** Decimal digits without leading zeros, worth the number. */
  lemma {:induction false} DecimalIsTheNumber(n: nat)
    ensures ValueOfDigits(Decimal(n)) == n && (n > 0 ==> Decimal(n)[0] != '0') && (n == 0 ==> Decimal(n) == "0")
  {
    if n >= 10 {
      DecimalIsTheNumber(n / 10);
      assert Decimal(n)[..|Decimal(n)| - 1] == Decimal(n / 10);
    } else {
      assert Decimal(n)[..0] == "";
    }
  }

  lemma JoinTwo(a: string, b: string)
    ensures Join([a, b]) == a + ":" + b
  {
    assert [a, b][1..] == [b];
    assert a + (":" + b) == a + ":" + b;
  }

  lemma JoinOneMore(a: string, rest: seq<string>)
    requires rest != []
    ensures Join([a] + rest) == a + ":" + Join(rest)
  {
    assert ([a] + rest)[1..] == rest;
    assert a + (":" + Join(rest)) == a + ":" + Join(rest);
  }

  lemma DocumentFields()
    ensures Field(DocumentName) == "document:name" && Field(DocumentError) == "document:error"
    ensures Field(WebpageContent) == "webpage:content" && Field(WebpageError) == "webpage:error"
    ensures Field(WebpageFingerprint) == "webpage:content-fingerprint"
    ensures Field(UploadManifest) == "upload:manifest" && PortionName(Manifest) == "manifest"
  {
    JoinTwo("document", "name");
    JoinTwo("document", "error");
    JoinTwo("webpage", "content");
    JoinTwo("webpage", "error");
    JoinTwo("webpage", "content-fingerprint");
    JoinTwo("upload", "manifest");
  }

  lemma NumberedFields(n: nat)
    ensures Field(ChunkText(n)) == "chunk:" + Decimal(n) + ":text"
    ensures Field(ChunkMetadata(n)) == "chunk:" + Decimal(n) + ":metadata"
    ensures Field(WebpageUrl(n)) == "webpage:url:" + Decimal(n)
    ensures Field(UploadChunk(n)) == "upload:chunk:" + Decimal(n)
    ensures PortionName(Chunk(n)) == "chunk:" + Decimal(n)
  {
    var d := Decimal(n);
    JoinThree("chunk", d, "text");
    JoinThree("chunk", d, "metadata");
    JoinThree("webpage", "url", d);
    JoinThree("upload", "chunk", d);
    JoinTwo("chunk", d);
    assert "chunk" + ":" + d + ":" + "text" == "chunk:" + d + ":text";
    assert "chunk" + ":" + d + ":" + "metadata" == "chunk:" + d + ":metadata";
    assert "webpage" + ":" + "url" + ":" + d == "webpage:url:" + d;
    assert "upload" + ":" + "chunk" + ":" + d == "upload:chunk:" + d;
  }

  lemma RevisionFields(doc: Uuid, n: nat)
    ensures Field(RevisionName(doc)) == "document:" + doc + ":name"
    ensures Field(RevisionText(doc, n)) == "document:" + doc + ":chunk:" + Decimal(n) + ":text"
    ensures Field(RevisionMetadata(doc, n)) == "document:" + doc + ":chunk:" + Decimal(n) + ":metadata"
  {
    JoinThree("document", doc, "name");
    assert "document" + ":" + doc + ":" + "name" == "document:" + doc + ":name";
    LongField(doc, n, "text");
    LongField(doc, n, "metadata");
  }

  lemma LongField(doc: string, n: nat, last: string)
    ensures Join(["document", doc, "chunk", Decimal(n), last])
      == "document:" + doc + ":chunk:" + Decimal(n) + ":" + last
  {
    var d := Decimal(n);
    JoinThree("chunk", d, last);
    JoinOneMore(doc, ["chunk", d, last]);
    JoinOneMore("document", [doc, "chunk", d, last]);
    assert [doc] + ["chunk", d, last] == [doc, "chunk", d, last];
    assert ["document"] + [doc, "chunk", d, last] == ["document", doc, "chunk", d, last];
    assert "document" + ":" + (doc + ":" + ("chunk" + ":" + d + ":" + last))
      == "document:" + doc + ":chunk:" + d + ":" + last;
  }

  // ---- associated data --------------------------------------------------------------------------

  predicate NeedsNoEscape(s: string) {
    forall k :: 0 <= k < |s| ==> s[k] != '"' && s[k] != '\\'
  }

  lemma {:induction false} EscapeOfPlain(s: string)
    requires NeedsNoEscape(s)
    ensures Escape(s) == s
  {
    if s != "" {
      EscapeOfPlain(s[1..]);
    }
  }

  function InQuotes(s: string): string {
    "\"" + s + "\""
  }

  lemma QuotedOfPlain(s: string, rest: string)
    requires NeedsNoEscape(s)
    ensures Quoted(s, rest) == InQuotes(s) + rest
  {
    EscapeOfPlain(s);
    assert "\"" + (s + ("\"" + rest)) == "\"" + s + "\"" + rest;
  }

  /** The JSON list of the format's name and the three fields, in their order. */
  lemma AssociatedDataIsAList(b: StorageBinding)
    requires NeedsNoEscape(b.owner) && NeedsNoEscape(b.resource) && NeedsNoEscape(b.field)
    ensures AssociatedData(b) == "[\"port/private-data/v1\","
      + (InQuotes(b.owner) + ("," + (InQuotes(b.resource) + ("," + (InQuotes(b.field) + "]")))))
  {
    QuotedOfPlain(b.field, "]");
    QuotedOfPlain(b.resource, "," + Quoted(b.field, "]"));
    QuotedOfPlain(b.owner, "," + Quoted(b.resource, "," + Quoted(b.field, "]")));
  }

  /** A field is valid if it has 1 to 256 characters, no control character, and `strip` leaves it alone. */
  lemma ValidFieldIff(s: string)
    ensures ValidField(s) <==>
      && 1 <= |s| <= 256 && Windows.Strip(s) == s
      && forall k :: 0 <= k < |s| ==> s[k] as int >= 32 && s[k] as int != 127
  {
    var lo, hi := Windows.StripIsTheMiddle(s);
    if Windows.Strip(s) == s && s != "" {
      assert lo == 0 && hi == |s|;
    }
    if ValidField(s) {
      assert !Windows.IsSpace(s[0]) && !Windows.IsSpace(s[|s| - 1]);
    }
  }

  // ---- what readers and lookups answer ----------------------------------------------------------

  /** Plain columns read as they are, sealed ones as what opens; nothing else reads. */
  lemma ReadingColumns(k: PrivateDataCipher, s: string, c: Ciphertext, b: StorageBinding)
    ensures !("vault:" <= s) && !("port-openbao:v1:" <= s) ==> ReadText(k, Plain(s), b) == Ok(s)
    ensures forall t :: ReadText(k, Cipher(c), b) == Ok(t) <==> k.decrypt(c, b) == Ok(Text(t))
    ensures ReadJson(k, MarkedJson(c), b) == k.decrypt(c, b)
  {
  }

  lemma ReadingPlainJson(k: PrivateDataCipher, v: Json, b: StorageBinding)
    requires v.Object? && "storageEncryption" in v.fields ==>
      v.fields["storageEncryption"] != Text("openbao-transit/v1")
    ensures ReadJson(k, PlainJson(v), b) == Ok(v)
  {
  }

  /** A lookup is a keyed digest of the value and the whole binding, for values of at most 4096 bytes. */
  lemma LookupIs(hmac: (string, string) -> string, value: string, b: StorageBinding)
    ensures Lookup(hmac, value, b) ==
      if Utf8Length(value) > 4096 then Err(TooLarge)
      else if !Valid(b) then Err(BadBinding)
      else Ok("vault:v1:" + hmac(AssociatedData(b), value))
  {
    assert VAULT + "v1:" + hmac(AssociatedData(b), value) == "vault:v1:" + hmac(AssociatedData(b), value);
  }

  /** So two lookups agree exactly if the digests do: it depends on the value, the owner and the place. */
  lemma LookupsAgreeIff(hmac: (string, string) -> string, v: string, b: StorageBinding, v': string, b': StorageBinding)
    requires Lookup(hmac, v, b).Ok? && Lookup(hmac, v', b').Ok?
    ensures Lookup(hmac, v, b) == Lookup(hmac, v', b')
        <==> hmac(AssociatedData(b), v) == hmac(AssociatedData(b'), v')
  {
    LookupIs(hmac, v, b);
    LookupIs(hmac, v', b');
    var x, y := hmac(AssociatedData(b), v), hmac(AssociatedData(b'), v');
    assert ("vault:v1:" + x)[9..] == x && ("vault:v1:" + y)[9..] == y;
  }

  // ---- base64 -----------------------------------------------------------------------------------

  /** The alphabet, and the test vectors of section 10 of RFC 4648. */
  lemma Base64Vectors()
    ensures Encode([]) == "" && Encode([102]) == "Zg==" && Encode([102, 111]) == "Zm8="
    ensures Encode([102, 111, 111]) == "Zm9v" && Encode([102, 111, 111, 98]) == "Zm9vYg=="
    ensures Encode([102, 111, 111, 98, 97]) == "Zm9vYmE=" && Encode([102, 111, 111, 98, 97, 114]) == "Zm9vYmFy"
  {
    assert Encode([102, 111, 111]) == Quad(102, 111, 111) + Encode([]);
    assert [102, 111, 111, 98][3..] == [98] && [102, 111, 111, 98, 97][3..] == [98, 97];
    assert [102, 111, 111, 98, 97, 114][3..] == [98, 97, 114];
    assert Encode([98, 97, 114]) == Quad(98, 97, 114) + Encode([]);
  }

  lemma Base64Alphabet(v: nat)
    requires v < 64
    ensures v < 26 ==> Digit(v) as int == 'A' as int + v
    ensures 26 <= v < 52 ==> Digit(v) as int == 'a' as int + v - 26
    ensures 52 <= v < 62 ==> Digit(v) as int == '0' as int + v - 52
    ensures Digit(62) == '+' && Digit(63) == '/'
  {
  }
}
