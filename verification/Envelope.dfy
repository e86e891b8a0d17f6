/** Envelope encryption: a keystream cipher with an authentication tag under a random data key,
    and that key wrapped under a KMS key reference, which rewrapping moves to the next version. */
module Envelope {
  import opened Wrappers
  import opened Text
  import opened KeyReference
  import opened KmsAdapter

  type Bytes = seq<bv8>
  type Digest = nat

  const DATA_KEY_BYTES := 32
  const NONCE_BYTES := 12

  /** The largest stream whose block counter fits eight bytes. */
  const STREAM_LIMIT: nat := 32 * 0x1_0000_0000_0000_0000

  type Block = b: Bytes | |b| == 32 witness seq(32, _ => 0)

  datatype AadPayload = AadPayload(
    tenant: string, objectId: string, sourceVersionId: string, class_: DataClass, aad: map<string, string>)

  /** The primitives, as functions of which only the output length is known. */
  datatype Crypto = Crypto(
    hmac: (Bytes, Bytes) -> Block, sha: Bytes -> Block, utf8: string -> Bytes, aadBytes: AadPayload -> Bytes,
    content: Bytes -> Digest, evidence: KmsEvidence -> Digest, manifest: ManifestPayload -> Digest)

  datatype KmsEvidence = KmsEvidence(
    rotation: bool, key: KeyRef, requestedBy: string, auditRef: string, at: string,
    approvedBy: Option<string>, newRef: Option<string>, reason: Option<string>)

  datatype ManifestPayload = ManifestPayload(
    tenant: string, objectId: string, sourceVersionId: string, class_: DataClass, kmsRef: string, nonce: Bytes,
    aadHash: Digest, plaintextHash: Digest, ciphertextHash: Digest, ciphertextLength: nat,
    wrappedKey: Bytes, wrappedKeyHash: Digest, evidenceHash: Digest, encryptedAt: string,
    previousManifest: Option<Digest>, previousRef: Option<string>, rotationEvidence: Option<Digest>,
    rotatedAt: Option<string>, rotationReason: Option<string>, requestedBy: string, auditRef: string)

  datatype Manifest = Manifest(payload: ManifestPayload, hash: Digest)

  /** What is being protected: the fields every request repeats. */
  datatype Subject = Subject(tenant: string, objectId: string, sourceVersionId: string, class_: DataClass) {
    predicate Blank() {
      Text.Blank(tenant) || Text.Blank(objectId) || Text.Blank(sourceVersionId)
    }

    function Trim(): Subject {
      Subject(Strip(tenant), Strip(objectId), Strip(sourceVersionId), class_)
    }
  }

  datatype EncryptRequest = EncryptRequest(
    subject: Subject, kmsRef: string, plaintext: Bytes, aad: map<string, string>, requestedBy: string,
    auditRef: string, at: string)

  datatype Sealed = Sealed(ciphertext: Bytes, manifest: Manifest)

  datatype DecryptRequest = DecryptRequest(
    subject: Subject, kmsRef: string, ciphertext: Bytes, manifest: Manifest, aad: map<string, string>,
    requestedBy: string)

  datatype RewrapRequest = RewrapRequest(
    subject: Subject, ciphertext: Bytes, manifest: Manifest, aad: map<string, string>,
    currentRef: string, newRef: string,
    requestedBy: string, approvedBy: string, auditRef: string, at: string, reason: string)

  datatype EnvelopeError =
    | InvalidRequest | Kms(cause: KmsError) | GeneratorSize | CounterOverflow | XorLength
    | ManifestHash | RequestMismatch | AadHash | CiphertextHash | WrappedKeyHash
    | AuthenticationFailed | PlaintextHash | RotationMismatch

  /** A service: its primitives, its secret and the policy of its KMS adapter. */
  datatype Vault = Vault(c: Crypto, secret: Bytes, policy: Policy)

  // ---- streams ----

  function BigEndian(n: nat, width: nat): (b: Bytes)
    ensures |b| == width
  {
    if width == 0 then [] else BigEndian(n / 256, width - 1) + [(n % 256) as bv8]
  }

  const ENC: Bytes := [0x65, 0x6e, 0x63]
  const TAG: Bytes := [0x74, 0x61, 0x67]

  function EncBlock(c: Crypto, dataKey: Bytes, nonce: Bytes, aadBytes: Bytes, counter: nat): Block {
    c.hmac(dataKey, ENC + nonce + c.sha(aadBytes) + BigEndian(counter, 8))
  }

  /** The keystream: byte `i` is byte `i % 32` of block `i / 32`. */
  function Keystream(c: Crypto, dataKey: Bytes, nonce: Bytes, aadBytes: Bytes, size: nat)
    : (r: Result<Bytes, EnvelopeError>)
    ensures r.Ok? ==> |r.value| == size
  {
    if size > STREAM_LIMIT then Err(CounterOverflow)
    else Ok(seq(size, i requires 0 <= i < size => EncBlock(c, dataKey, nonce, aadBytes, i / 32)[i % 32]))
  }

  function WrappingKey(c: Crypto, secret: Bytes, ref: string): Block {
    c.hmac(secret, c.utf8("wrap:" + ref))
  }

  function WrapBlock(c: Crypto, secret: Bytes, ref: string, counter: nat): Block {
    c.hmac(WrappingKey(c, secret, ref), BigEndian(counter, 8))
  }

  function WrapStream(c: Crypto, secret: Bytes, ref: string, size: nat): (r: Result<Bytes, EnvelopeError>)
    ensures r.Ok? ==> |r.value| == size
  {
    if size > STREAM_LIMIT then Err(CounterOverflow)
    else Ok(seq(size, i requires 0 <= i < size => WrapBlock(c, secret, ref, i / 32)[i % 32]))
  }

  /** `_keystream`: blocks are appended until there are enough, then the last one is cut. */
  method BuildKeystream(c: Crypto, dataKey: Bytes, nonce: Bytes, aadBytes: Bytes, size: nat)
    returns (r: Result<Bytes, EnvelopeError>)
    ensures r == Keystream(c, dataKey, nonce, aadBytes, size)
  {
    var output: Bytes := [];
    var counter: nat := 0;
    var aadHash := c.sha(aadBytes);
    while |output| < size
      invariant |output| == 32 * counter && counter <= 0x1_0000_0000_0000_0000
      invariant forall i :: 0 <= i < |output| ==> output[i] == EncBlock(c, dataKey, nonce, aadBytes, i / 32)[i % 32]
    {
      if counter >= 0x1_0000_0000_0000_0000 {
        return Err(CounterOverflow);
      }
      var block := c.hmac(dataKey, ENC + nonce + aadHash + BigEndian(counter, 8));
      output := output + block;
      counter := counter + 1;
    }
    assert output[..size] == Keystream(c, dataKey, nonce, aadBytes, size).value;
    return Ok(output[..size]);
  }

  /** `_wrap_stream`. */
  method BuildWrapStream(c: Crypto, secret: Bytes, ref: string, size: nat) returns (r: Result<Bytes, EnvelopeError>)
    ensures r == WrapStream(c, secret, ref, size)
  {
    var wrappingKey := c.hmac(secret, c.utf8("wrap:" + ref));
    var output: Bytes := [];
    var counter: nat := 0;
    while |output| < size
      invariant |output| == 32 * counter && counter <= 0x1_0000_0000_0000_0000
      invariant forall i :: 0 <= i < |output| ==> output[i] == WrapBlock(c, secret, ref, i / 32)[i % 32]
    {
      if counter >= 0x1_0000_0000_0000_0000 {
        return Err(CounterOverflow);
      }
      output := output + c.hmac(wrappingKey, BigEndian(counter, 8));
      counter := counter + 1;
    }
    assert output[..size] == WrapStream(c, secret, ref, size).value;
    return Ok(output[..size]);
  }

  function XorAll(a: Bytes, b: Bytes): (r: Bytes)
    requires |a| == |b|
    ensures |r| == |a|
  {
    seq(|a|, i requires 0 <= i < |a| => a[i] ^ b[i])
  }

  function Xor(a: Bytes, b: Bytes): Result<Bytes, EnvelopeError> {
    if |a| != |b| then Err(XorLength) else Ok(XorAll(a, b))
  }

  lemma XorTwice(a: Bytes, b: Bytes)
    requires |a| == |b|
    ensures XorAll(XorAll(a, b), b) == a
  {
    forall i | 0 <= i < |a| ensures (a[i] ^ b[i]) ^ b[i] == a[i] {
      var x, y := a[i], b[i];
      assert (x ^ y) ^ y == x;
    }
  }

  // ---- the service ----

  function AadOf(c: Crypto, s: Subject, aad: map<string, string>): Bytes {
    c.aadBytes(AadPayload(s.tenant, s.objectId, s.sourceVersionId, s.class_, aad))
  }

  function AuthTag(c: Crypto, dataKey: Bytes, nonce: Bytes, aadBytes: Bytes, body: Bytes): Block {
    c.hmac(dataKey, TAG + nonce + aadBytes + body)
  }

  /** Wrapping and unwrapping are the same xor. */
  function Wrap(v: Vault, key: Bytes, ref: string): Result<Bytes, EnvelopeError> {
    var stream :- WrapStream(v.c, v.secret, ref, |key|);
    Xor(key, stream)
  }

  function Validate(v: Vault, destroyed: Destroyed, s: Subject, ref: string): Result<KeyRef, EnvelopeError> {
    match ValidateRef(v.policy, destroyed, s.tenant, s.class_, ref)
    case Ok(key) => Ok(key)
    case Err(e) => Err(Kms(e))
  }

  function RotateRef(v: Vault, destroyed: Destroyed, s: Subject, ref: string): Result<(KeyRef, KeyRef), EnvelopeError> {
    match Rotate(v.policy, destroyed, s.tenant, s.class_, ref)
    case Ok(rotation) => Ok(rotation)
    case Err(e) => Err(Kms(e))
  }

  function Hashed(c: Crypto, p: ManifestPayload): Manifest {
    Manifest(p, c.manifest(p))
  }

  /** `encrypt`. The data key is wrapped under the reference as given, while the manifest's
      validator trims the reference it records. */
  function Encrypt(v: Vault, destroyed: Destroyed, r: EncryptRequest, dataKey: Bytes, nonce: Bytes)
    : Result<Sealed, EnvelopeError>
  {
    if r.subject.Blank() || Blank(r.requestedBy) || r.plaintext == [] then Err(InvalidRequest)
    else
      var s := r.subject.Trim();
      var key :- Validate(v, destroyed, s, r.kmsRef);
      if |dataKey| != DATA_KEY_BYTES || |nonce| != NONCE_BYTES then Err(GeneratorSize)
      else
        var aadBytes := AadOf(v.c, s, r.aad);
        var stream :- Keystream(v.c, dataKey, nonce, aadBytes, |r.plaintext|);
        var body :- Xor(r.plaintext, stream);
        var ciphertext := body + AuthTag(v.c, dataKey, nonce, aadBytes, body);
        var wrapped :- Wrap(v, dataKey, r.kmsRef);
        var evidence := KmsEvidence(false, key, Strip(r.requestedBy), r.auditRef, r.at, None, None, None);
        var p := ManifestPayload(
          s.tenant, s.objectId, s.sourceVersionId, s.class_, Strip(r.kmsRef), nonce, v.c.content(aadBytes),
          v.c.content(r.plaintext), v.c.content(ciphertext), |ciphertext|, wrapped, v.c.content(wrapped),
          v.c.evidence(evidence), r.at, None, None, None, None, None, Strip(r.requestedBy), r.auditRef);
        Ok(Sealed(ciphertext, Hashed(v.c, p)))
  }

  /** The checks `decrypt` and `rewrap` share, in their order. */
  function Refusal(v: Vault, s: Subject, ref: string, ciphertext: Bytes, m: Manifest, aadBytes: Bytes)
    : Option<EnvelopeError>
  {
    var p := m.payload;
    if v.c.manifest(p) != m.hash then Some(ManifestHash)
    else if s != Subject(p.tenant, p.objectId, p.sourceVersionId, p.class_) || ref != p.kmsRef
        || |ciphertext| != p.ciphertextLength
    then Some(RequestMismatch)
    else if v.c.content(aadBytes) != p.aadHash then Some(AadHash)
    else if v.c.content(ciphertext) != p.ciphertextHash then Some(CiphertextHash)
    else if v.c.content(p.wrappedKey) != p.wrappedKeyHash then Some(WrappedKeyHash)
    else None
  }

  /** Unwraps the data key and checks the ciphertext's tag under it. */
  function Unwrap(v: Vault, ref: string, ciphertext: Bytes, m: Manifest, aadBytes: Bytes): Result<Bytes, EnvelopeError>
    requires |ciphertext| > 32
  {
    var dataKey :- Wrap(v, m.payload.wrappedKey, ref);
    var n := |ciphertext| - 32;
    if ciphertext[n..] != AuthTag(v.c, dataKey, m.payload.nonce, aadBytes, ciphertext[..n]) then
      Err(AuthenticationFailed)
    else Ok(dataKey)
  }

  /** `decrypt`. */
  function Decrypt(v: Vault, destroyed: Destroyed, r: DecryptRequest): Result<Bytes, EnvelopeError> {
    if r.subject.Blank() || Blank(r.requestedBy) || |r.ciphertext| <= 32 then Err(InvalidRequest)
    else
      var s := r.subject.Trim();
      var aadBytes := AadOf(v.c, s, r.aad);
      match Refusal(v, s, r.kmsRef, r.ciphertext, r.manifest, aadBytes)
      case Some(e) => Err(e)
      case None =>
        var _ :- Validate(v, destroyed, s, r.kmsRef);
        var dataKey :- Unwrap(v, r.kmsRef, r.ciphertext, r.manifest, aadBytes);
        var body := r.ciphertext[..|r.ciphertext| - 32];
        var stream :- Keystream(v.c, dataKey, r.manifest.payload.nonce, aadBytes, |body|);
        var plaintext :- Xor(body, stream);
        if v.c.content(plaintext) != r.manifest.payload.plaintextHash then Err(PlaintextHash) else Ok(plaintext)
  }

  /** `rewrap`: the manifest under the next key version. */
  function Rewrap(v: Vault, destroyed: Destroyed, r: RewrapRequest): Result<Manifest, EnvelopeError> {
    if r.subject.Blank() || Blank(r.currentRef) || Blank(r.newRef) || Blank(r.requestedBy) || Blank(r.approvedBy)
       || Blank(r.reason) || |r.ciphertext| <= 32
    then Err(InvalidRequest)
    else
      var s := r.subject.Trim();
      var current := Strip(r.currentRef);
      var aadBytes := AadOf(v.c, s, r.aad);
      match Refusal(v, s, current, r.ciphertext, r.manifest, aadBytes)
      case Some(e) => Err(e)
      case None =>
        var _ :- Validate(v, destroyed, s, current);
        var dataKey :- Unwrap(v, current, r.ciphertext, r.manifest, aadBytes);
        var rotation :- RotateRef(v, destroyed, s, current);
        var next := rotation.1.Canonical();
        if next != Strip(r.newRef) then Err(RotationMismatch)
        else
          var wrapped :- Wrap(v, dataKey, next);
          var evidence := KmsEvidence(true, rotation.0, Strip(r.requestedBy), r.auditRef, r.at,
                                      Some(Strip(r.approvedBy)), Some(next),
                                      Some(Strip(r.reason)));
          Ok(Hashed(v.c, r.manifest.payload.(
            kmsRef := next, wrappedKey := wrapped, wrappedKeyHash := v.c.content(wrapped),
            evidenceHash := v.c.evidence(evidence), previousManifest := Some(r.manifest.hash),
            previousRef := Some(rotation.0.Canonical()), rotationEvidence := Some(v.c.evidence(evidence)),
            rotatedAt := Some(r.at), rotationReason := Some(Strip(r.reason)),
            requestedBy := Strip(r.requestedBy), auditRef := r.auditRef)))
  }
}
