/** Base64 (section 4 of RFC 4648), decoding as strictly as Python's validating decoder. */
module Base64 {
  import opened Common

  type Byte = n: nat | n < 256
  type Bytes = seq<Byte>

  function Digit(v: nat): char
    requires v < 64
  {
    if v < 26 then 'A' + v as char
    else if v < 52 then 'a' + (v - 26) as char
    else if v < 62 then '0' + (v - 52) as char
    else if v == 62 then '+' else '/'
  }

  /** The value of a base64 character, or 64 for anything else. */
  function Value(c: char): (v: nat)
    ensures v <= 64
  {
    if 'A' <= c <= 'Z' then c as int - 'A' as int
    else if 'a' <= c <= 'z' then c as int - 'a' as int + 26
    else if '0' <= c <= '9' then c as int - '0' as int + 52
    else if c == '+' then 62
    else if c == '/' then 63
    else 64
  }

  lemma ValueOfDigit(v: nat)
    requires v < 64
    ensures Value(Digit(v)) == v && Digit(v) != '='
  {
  }

  function Encode(b: Bytes): (s: string)
    ensures |s| == (|b| + 2) / 3 * 4
  {
    if b == [] then ""
    else if |b| == 1 then [Digit(b[0] / 4), Digit(b[0] % 4 * 16), '=', '=']
    else if |b| == 2 then [Digit(b[0] / 4), Digit(b[0] % 4 * 16 + b[1] / 16), Digit(b[1] % 16 * 4), '=']
    else Quad(b[0], b[1], b[2]) + Encode(b[3..])
  }

  function Quad(x: Byte, y: Byte, z: Byte): string {
    [Digit(x / 4), Digit(x % 4 * 16 + y / 16), Digit(y % 16 * 4 + z / 64), Digit(z % 64)]
  }

  /** The bytes of four characters; bits left over before the padding are ignored. */
  function DecodeQuad(p: char, q: char, r: char, t: char, last: bool): Option<Bytes> {
    var a, b, c, d := Value(p), Value(q), Value(r), Value(t);
    if a == 64 || b == 64 then None
    else if last && r == '=' && t == '=' then Some([a * 4 + b / 16])
    else if c == 64 then None
    else if last && t == '=' then Some([a * 4 + b / 16, b % 16 * 16 + c / 4])
    else if d == 64 then None
    else Some([a * 4 + b / 16, b % 16 * 16 + c / 4, c % 4 * 64 + d])
  }

  function Decode(s: string): Option<Bytes> {
    if s == "" then Some([])
    else if |s| < 4 then None
    else
      var head := DecodeQuad(s[0], s[1], s[2], s[3], |s| == 4);
      var rest := Decode(s[4..]);
      if head.Some? && rest.Some? then Some(head.value + rest.value) else None
  }

  lemma QuadBits(x: Byte, y: Byte, z: Byte)
    ensures x / 4 * 4 + (x % 4 * 16 + y / 16) / 16 == x
    ensures (x % 4 * 16 + y / 16) % 16 * 16 + (y % 16 * 4 + z / 64) / 4 == y
    ensures (y % 16 * 4 + z / 64) % 4 * 64 + z % 64 == z
  {
    assert (x % 4 * 16 + y / 16) / 16 == x % 4;
    assert (y % 16 * 4 + z / 64) / 4 == y % 16;
  }

  lemma QuadRoundTrip(x: Byte, y: Byte, z: Byte, last: bool)
    ensures var q := Quad(x, y, z); DecodeQuad(q[0], q[1], q[2], q[3], last) == Some([x, y, z])
  {
    QuadBits(x, y, z);
    ValueOfDigit(x / 4);
    ValueOfDigit(x % 4 * 16 + y / 16);
    ValueOfDigit(y % 16 * 4 + z / 64);
    ValueOfDigit(z % 64);
  }

  lemma PairRoundTrip(x: Byte, y: Byte)
    ensures DecodeQuad(Digit(x / 4), Digit(x % 4 * 16 + y / 16), Digit(y % 16 * 4), '=', true) == Some([x, y])
  {
    ValueOfDigit(x / 4);
    ValueOfDigit(x % 4 * 16 + y / 16);
    ValueOfDigit(y % 16 * 4);
  }

  lemma ByteRoundTrip(x: Byte)
    ensures DecodeQuad(Digit(x / 4), Digit(x % 4 * 16), '=', '=', true) == Some([x])
  {
    ValueOfDigit(x / 4);
    ValueOfDigit(x % 4 * 16);
  }

  /** Decoding four characters and then the rest of the text. */
  lemma DecodeStep(q: string, t: string, head: Bytes, rest: Bytes)
    requires |q| == 4 && DecodeQuad(q[0], q[1], q[2], q[3], t == "") == Some(head) && Decode(t) == Some(rest)
    ensures Decode(q + t) == Some(head + rest)
  {
    var s := q + t;
    assert s[4..] == t;
    assert |s| == 4 <==> t == "";
  }

  /** Decoding what was encoded gives the bytes back. */
  lemma {:induction false} RoundTrip(b: Bytes)
    ensures Decode(Encode(b)) == Some(b)
    decreases |b|, 1
  {
    if |b| == 1 {
      ByteRoundTrip(b[0]);
      DecodeStep(Encode(b), "", [b[0]], []);
      assert Encode(b) + "" == Encode(b) && b == [b[0]] + [];
    } else if |b| == 2 {
      PairRoundTrip(b[0], b[1]);
      DecodeStep(Encode(b), "", [b[0], b[1]], []);
      assert Encode(b) + "" == Encode(b) && b == [b[0], b[1]] + [];
    } else if |b| > 2 {
      LongRoundTrip(b);
    }
  }

  lemma LongRoundTrip(b: Bytes)
    requires |b| > 2
    ensures Decode(Encode(b)) == Some(b)
    decreases |b|, 0
  {
    var q, t := Quad(b[0], b[1], b[2]), Encode(b[3..]);
    assert Encode(b) == q + t;
    assert Decode(q + t) == Some([b[0], b[1], b[2]] + b[3..]) by {
      RoundTrip(b[3..]);
      QuadRoundTrip(b[0], b[1], b[2], t == "");
      DecodeStep(q, t, [b[0], b[1], b[2]], b[3..]);
    }
    assert b == [b[0], b[1], b[2]] + b[3..];
  }

  /** The reader's canonical test: it decodes, and encoding that again gives the same text. */
  predicate Canonical(s: string) {
    Decode(s).Some? && Encode(Decode(s).value) == s
  }

  /**
   The test passes for exactly the encodings of byte strings, so two texts of the same bytes
   (section 3.5 of RFC 4648) never both pass.
   */
  lemma CanonicalIffEncoded(s: string)
    ensures Canonical(s) <==> exists b :: Encode(b) == s
    ensures forall t :: Canonical(s) && Canonical(t) && Decode(s) == Decode(t) ==> s == t
  {
    forall b | Encode(b) == s ensures Canonical(s) {
      RoundTrip(b);
    }
    if Canonical(s) {
      var b := Decode(s).value;
      assert Encode(b) == s;
    }
  }

  /** Without the test, texts that differ in ignored bits would pass for one another. */
  lemma IgnoredBitsDecodeAlike()
    ensures Decode("QQ==") == Decode("QR==") == Some([65])
    ensures Canonical("QQ==") && !Canonical("QR==")
  {
    assert DecodeQuad('Q', 'Q', '=', '=', true) == DecodeQuad('Q', 'R', '=', '=', true) == Some([65]);
    DecodeStep("QQ==", "", [65], []);
    DecodeStep("QR==", "", [65], []);
    assert "QQ==" + "" == "QQ==" && "QR==" + "" == "QR==" && [65] + [] == [65];
    assert Encode([65]) == "QQ==";
  }
}
