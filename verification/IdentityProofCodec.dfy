/** The account identity proof extension and the message its signature covers. */
module IdentityProofCodec {
  import opened Orders
  import opened ByteCodecs

  type u16 = x: int | 0 <= x < 65536

  const VERSION: byte := 1
  const SIGNATURE_LEN: nat := 64
  const IDENTITY_LEN: nat := 32
  /** "marmot.account-identity-proof.v1" in ASCII. */
  const DOMAIN: Bytes := [
    109, 97, 114, 109, 111, 116, 46, 97, 99, 99, 111, 117, 110, 116, 45, 105, 100, 101, 110, 116, 105, 116, 121, 45,
    112, 114, 111, 111, 102, 46, 118, 49]
  const EXTENSION_TYPE: u16 := 0xF2F1

  datatype ProofRequest = ProofRequest(
    accountIdentity: Bytes,
    signatureKey: Bytes,
    ciphersuite: u16,
    signatureScheme: u16)

  type Signature = s: Bytes | |s| == 64 witness seq(64, _ => 0)

  datatype Proof = Proof(request: ProofRequest, signature: Signature)

  function Be16(v: u16): Bytes {
    [v / 256, v % 256]
  }

  /** `len as u16`: the length modulo two to the sixteen. */
  function Len16(b: Bytes): u16 {
    |b| % 65536
  }

  function EncodeHeader(r: ProofRequest): Bytes {
    [VERSION] + Be16(r.ciphersuite) + Be16(r.signatureScheme)
  }

  function EncodeBody(p: Proof): Bytes {
    p.request.accountIdentity + Be16(Len16(p.request.signatureKey)) + p.request.signatureKey + p.signature
  }

  function EncodeProof(p: Proof): Bytes {
    EncodeHeader(p.request) + EncodeBody(p)
  }

  // A read returns the value and the rest of the cursor.

  function ReadExact(cursor: Bytes, n: nat): Result<(Bytes, Bytes)> {
    if |cursor| < n then Err(Truncated) else Ok((cursor[..n], cursor[n..]))
  }

  function ReadU8(cursor: Bytes): Result<(byte, Bytes)> {
    if cursor == [] then Err(Truncated) else Ok((cursor[0], cursor[1..]))
  }

  function Join16(hi: byte, lo: byte): u16 {
    var h: nat := hi;
    256 * h + lo
  }

  function ReadU16(cursor: Bytes): Result<(u16, Bytes)> {
    if |cursor| < 2 then Err(Truncated) else Ok((Join16(cursor[0], cursor[1]), cursor[2..]))
  }

  function DecodeHeader(bytes: Bytes): Result<(u16, u16, Bytes)> {
    var version := ReadU8(bytes);
    if version.Err? then Err(version.error)
    else if version.value.0 != VERSION then Err(UnsupportedVersion)
    else
      var suite := ReadU16(version.value.1);
      if suite.Err? then Err(suite.error)
      else
        var scheme := ReadU16(suite.value.1);
        if scheme.Err? then Err(scheme.error)
        else Ok((suite.value.0, scheme.value.0, scheme.value.1))
  }

  function DecodeBody(cursor: Bytes): Result<(Bytes, Bytes, Signature)> {
    var identity := ReadExact(cursor, IDENTITY_LEN);
    if identity.Err? then Err(identity.error)
    else
      var keyLen := ReadU16(identity.value.1);
      if keyLen.Err? then Err(keyLen.error)
      else
        var key := ReadExact(keyLen.value.1, keyLen.value.0);
        if key.Err? then Err(key.error)
        else
          var signature := ReadExact(key.value.1, SIGNATURE_LEN);
          if signature.Err? then Err(signature.error)
          else if signature.value.1 != [] then Err(TrailingBytes)
          else Ok((identity.value.0, key.value.0, signature.value.0))
  }

  function DecodeProof(bytes: Bytes): Result<Proof> {
    var header := DecodeHeader(bytes);
    if header.Err? then Err(header.error)
    else
      var body := DecodeBody(header.value.2);
      if body.Err? then Err(body.error)
      else Ok(Proof(ProofRequest(body.value.0, body.value.1, header.value.0, header.value.1), body.value.2))
  }

  function SignedFields(r: ProofRequest): Bytes {
    Be16(r.ciphersuite) + (Be16(r.signatureScheme) + (Be16(Len16(r.accountIdentity)) + (r.accountIdentity
    + (Be16(Len16(r.signatureKey)) + r.signatureKey))))
  }

  function CanonicalMessage(r: ProofRequest): Bytes {
    (DOMAIN + [0] + Be16(EXTENSION_TYPE) + [VERSION]) + SignedFields(r)
  }

  lemma ReadBe16(v: u16, rest: Bytes)
    ensures ReadU16(Be16(v) + rest) == Ok((v, rest))
  {
    assert (Be16(v) + rest)[2..] == rest;
  }

  lemma ReadPrefix(head: Bytes, rest: Bytes)
    ensures ReadExact(head + rest, |head|) == Ok((head, rest))
  {
    assert (head + rest)[..|head|] == head && (head + rest)[|head|..] == rest;
  }

  lemma HeaderRoundTrip(r: ProofRequest, rest: Bytes)
    ensures DecodeHeader(EncodeHeader(r) + rest) == Ok((r.ciphersuite, r.signatureScheme, rest))
  {
    var e2 := Be16(r.signatureScheme) + rest;
    var e1 := Be16(r.ciphersuite) + e2;
    assert EncodeHeader(r) + rest == [VERSION] + e1;
    assert ([VERSION] + e1)[1..] == e1;
    ReadBe16(r.ciphersuite, e2);
    ReadBe16(r.signatureScheme, rest);
  }

  lemma BodyRoundTrip(p: Proof)
    requires |p.request.accountIdentity| == IDENTITY_LEN && |p.request.signatureKey| < 65536
    ensures DecodeBody(EncodeBody(p)) == Ok((p.request.accountIdentity, p.request.signatureKey, p.signature))
  {
    var r := p.request;
    var e3 := p.signature + [];
    var e2 := r.signatureKey + e3;
    var e1 := Be16(Len16(r.signatureKey)) + e2;
    assert EncodeBody(p) == r.accountIdentity + e1;
    ReadPrefix(r.accountIdentity, e1);
    ReadBe16(Len16(r.signatureKey), e2);
    ReadPrefix(r.signatureKey, e3);
    ReadPrefix(p.signature, []);
  }

  /** A proof decodes to itself exactly when its identity has 32 bytes and its
      key fits a 16-bit length. */
  lemma ProofRoundTrip(p: Proof)
    ensures DecodeProof(EncodeProof(p)) == Ok(p) <==>
            |p.request.accountIdentity| == IDENTITY_LEN && |p.request.signatureKey| < 65536
  {
    HeaderRoundTrip(p.request, EncodeBody(p));
    if |p.request.accountIdentity| == IDENTITY_LEN && |p.request.signatureKey| < 65536 {
      BodyRoundTrip(p);
    }
  }

  lemma U16Join(cursor: Bytes)
    requires |cursor| >= 2
    ensures Be16(ReadU16(cursor).value.0) + cursor[2..] == cursor
  {
    assert cursor == [cursor[0], cursor[1]] + cursor[2..];
  }

  lemma HeaderCanonical(bytes: Bytes)
    requires DecodeHeader(bytes).Ok?
    ensures var (suite, scheme, rest) := DecodeHeader(bytes).value;
            [VERSION] + Be16(suite) + Be16(scheme) + rest == bytes
  {
    var (suite, scheme, rest) := DecodeHeader(bytes).value;
    var c1 := bytes[1..];
    U16Join(c1);
    U16Join(c1[2..]);
    assert bytes == [VERSION] + c1;
    assert c1 == Be16(suite) + (Be16(scheme) + rest);
  }

  lemma KeyCanonical(cursor: Bytes, key: Bytes, signature: Bytes)
    requires |cursor| >= 2 && cursor[2..] == key + signature && |key| == ReadU16(cursor).value.0
    ensures Be16(Len16(key)) + key + signature == cursor
  {
    U16Join(cursor);
    assert Be16(Len16(key)) + key + signature == Be16(Len16(key)) + (key + signature);
  }

  lemma BodyCanonical(cursor: Bytes)
    requires DecodeBody(cursor).Ok?
    ensures var (identity, key, signature) := DecodeBody(cursor).value;
            identity + Be16(Len16(key)) + key + signature == cursor
  {
    var (identity, key, signature) := DecodeBody(cursor).value;
    var c1 := cursor[32..];
    assert c1[2..] == key + signature;
    KeyCanonical(c1, key, signature);
    assert cursor == identity + c1;
    assert identity + Be16(Len16(key)) + key + signature == identity + (Be16(Len16(key)) + key + signature);
  }

  /** Encoding any accepted proof returns the very bytes. */
  lemma ProofCanonical(bytes: Bytes)
    requires DecodeProof(bytes).Ok?
    ensures EncodeProof(DecodeProof(bytes).value) == bytes
  {
    HeaderCanonical(bytes);
    BodyCanonical(DecodeHeader(bytes).value.2);
  }

  lemma SplitAt(a: Bytes, x: Bytes, b: Bytes, y: Bytes)
    requires |a| == |b| && a + x == b + y
    ensures a == b && x == y
  {
    assert (a + x)[..|a|] == a && (a + x)[|a|..] == x;
    assert (b + y)[..|b|] == b && (b + y)[|b|..] == y;
  }

  lemma Be16Injective(a: u16, x: Bytes, b: u16, y: Bytes)
    requires Be16(a) + x == Be16(b) + y
    ensures a == b && x == y
  {
    SplitAt(Be16(a), x, Be16(b), y);
    assert Be16(a)[0] == Be16(b)[0] && Be16(a)[1] == Be16(b)[1];
  }

  lemma FieldInjective(a: Bytes, x: Bytes, b: Bytes, y: Bytes)
    requires |a| / 65536 == |b| / 65536
    requires Be16(Len16(a)) + (a + x) == Be16(Len16(b)) + (b + y)
    ensures a == b && x == y
  {
    Be16Injective(Len16(a), a + x, Len16(b), b + y);
    SplitAt(a, x, b, y);
  }

  lemma SignedFieldsInjective(r: ProofRequest, s: ProofRequest)
    requires |r.accountIdentity| / 65536 == |s.accountIdentity| / 65536
    requires SignedFields(r) == SignedFields(s)
    ensures r == s
  {
    var r1, s1 := Be16(Len16(r.signatureKey)) + r.signatureKey, Be16(Len16(s.signatureKey)) + s.signatureKey;
    var r2 := Be16(Len16(r.accountIdentity)) + (r.accountIdentity + r1);
    var s2 := Be16(Len16(s.accountIdentity)) + (s.accountIdentity + s1);
    Be16Injective(r.ciphersuite, Be16(r.signatureScheme) + r2, s.ciphersuite, Be16(s.signatureScheme) + s2);
    Be16Injective(r.signatureScheme, r2, s.signatureScheme, s2);
    FieldInjective(r.accountIdentity, r1, s.accountIdentity, s1);
    Be16Injective(Len16(r.signatureKey), r.signatureKey, Len16(s.signatureKey), s.signatureKey);
  }

  /** Two requests that sign the same message are the same request, whatever
      their keys, if their identities have the same length or both fit 16 bits. */
  lemma CanonicalMessageInjective(r: ProofRequest, s: ProofRequest)
    requires |r.accountIdentity| / 65536 == |s.accountIdentity| / 65536
    requires CanonicalMessage(r) == CanonicalMessage(s)
    ensures r == s
  {
    var head := DOMAIN + [0] + Be16(EXTENSION_TYPE) + [VERSION];
    SplitAt(head, SignedFields(r), head, SignedFields(s));
    SignedFieldsInjective(r, s);
  }

  /** Requests with identities below `n` bytes are told apart by what they sign. */
  ghost predicate InjectiveBelow(n: nat) {
    forall r: ProofRequest, s: ProofRequest ::
      |r.accountIdentity| < n && |s.accountIdentity| < n && CanonicalMessage(r) == CanonicalMessage(s) ==> r == s
  }

  /** Exactly up to 16-bit identity lengths. */
  lemma InjectiveBelowIff(n: nat)
    ensures InjectiveBelow(n) <==> n <= 65536
  {
    if n <= 65536 {
      forall r: ProofRequest, s: ProofRequest
        | |r.accountIdentity| < n && |s.accountIdentity| < n && CanonicalMessage(r) == CanonicalMessage(s)
        ensures r == s
      {
        CanonicalMessageInjective(r, s);
      }
    } else {
      CanonicalMessageCollision(seq(65534, _ => 0), 0, 0);
    }
  }

  /** At 65536 bytes the truncated lengths let an identity and a key trade places. */
  lemma CanonicalMessageCollision(x: Bytes, suite: u16, scheme: u16)
    requires |x| == 65534
    ensures var r, s := ProofRequest([], x + [0, 0], suite, scheme), ProofRequest([0, 0] + x, [], suite, scheme);
            r != s && CanonicalMessage(r) == CanonicalMessage(s)
  {
    var r, s := ProofRequest([], x + [0, 0], suite, scheme), ProofRequest([0, 0] + x, [], suite, scheme);
    assert Len16(r.signatureKey) == 0 && Len16(s.accountIdentity) == 0;
    assert Be16(0) == [0, 0];
    assert r.accountIdentity + (Be16(0) + r.signatureKey) == s.accountIdentity + (Be16(0) + s.signatureKey);
    assert SignedFields(r) == SignedFields(s);
    assert |r.accountIdentity| != |s.accountIdentity|;
  }
}
