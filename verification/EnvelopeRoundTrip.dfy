/** What sealing, rewrapping and destroyed keys mean for decryption. */
module EnvelopeRoundTrip {
  import opened Wrappers
  import opened Text
  import opened KeyReference
  import opened KmsAdapter
  import opened Envelope

  /** The plaintext under the keystream, and the tag over that. */
  function Enciphered(c: Crypto, dataKey: Bytes, nonce: Bytes, aadBytes: Bytes, plaintext: Bytes): Bytes
    requires Keystream(c, dataKey, nonce, aadBytes, |plaintext|).Ok?
  {
    var body := XorAll(plaintext, Keystream(c, dataKey, nonce, aadBytes, |plaintext|).value);
    body + AuthTag(c, dataKey, nonce, aadBytes, body)
  }

  /** The ciphertext is the plaintext under the keystream of a data key, with its tag, and the
      manifest is hashed and describes both. */
  ghost predicate Describes(
    v: Vault, s: Subject, aad: map<string, string>, dataKey: Bytes, plaintext: Bytes, ciphertext: Bytes, m: Manifest)
  {
    var p := m.payload;
    var aadBytes := AadOf(v.c, s, aad);
    && plaintext != [] && |dataKey| == DATA_KEY_BYTES
    && !s.Blank() && s.Trim() == s && s == Subject(p.tenant, p.objectId, p.sourceVersionId, p.class_)
    && m.hash == v.c.manifest(p)
    && Keystream(v.c, dataKey, p.nonce, aadBytes, |plaintext|).Ok?
    && ciphertext == Enciphered(v.c, dataKey, p.nonce, aadBytes, plaintext)
    && p.aadHash == v.c.content(aadBytes) && p.plaintextHash == v.c.content(plaintext)
    && p.ciphertextHash == v.c.content(ciphertext) && p.ciphertextLength == |ciphertext|
    && p.wrappedKeyHash == v.c.content(p.wrappedKey)
  }

  /** The envelope invariant: besides, the manifest wraps that very data key under the reference
      it names. */
  ghost predicate Seals(
    v: Vault, s: Subject, aad: map<string, string>, dataKey: Bytes, plaintext: Bytes, ciphertext: Bytes, m: Manifest)
  {
    && Describes(v, s, aad, dataKey, plaintext, ciphertext, m)
    && Wrap(v, dataKey, m.payload.kmsRef) == Ok(m.payload.wrappedKey)
  }

  lemma WrapUndoesItself(v: Vault, key: Bytes, ref: string)
    requires |key| <= STREAM_LIMIT
    ensures Wrap(v, key, ref).Ok? && |Wrap(v, key, ref).value| == |key|
    ensures Wrap(v, Wrap(v, key, ref).value, ref) == Ok(key)
  {
    XorTwice(key, WrapStream(v.c, v.secret, ref, |key|).value);
  }

  lemma SplitTag(body: Bytes, tag: Block)
    ensures (body + tag)[..|body + tag| - 32] == body && (body + tag)[|body + tag| - 32..] == tag
  {
  }

  lemma SealedUnwraps(
    v: Vault, s: Subject, aad: map<string, string>, dataKey: Bytes, plaintext: Bytes, ciphertext: Bytes, m: Manifest)
    requires Seals(v, s, aad, dataKey, plaintext, ciphertext, m)
    ensures |ciphertext| > 32 && Refusal(v, s, m.payload.kmsRef, ciphertext, m, AadOf(v.c, s, aad)).None?
    ensures Unwrap(v, m.payload.kmsRef, ciphertext, m, AadOf(v.c, s, aad)) == Ok(dataKey)
  {
    var aadBytes := AadOf(v.c, s, aad);
    var body := XorAll(plaintext, Keystream(v.c, dataKey, m.payload.nonce, aadBytes, |plaintext|).value);
    SplitTag(body, AuthTag(v.c, dataKey, m.payload.nonce, aadBytes, body));
    WrapUndoesItself(v, dataKey, m.payload.kmsRef);
  }

  /** A sealed envelope decrypts to its plaintext exactly when the adapter honours the reference
      its manifest names; otherwise the adapter's refusal is the answer. */
  lemma SealedDecrypts(
    v: Vault, destroyed: Destroyed, s: Subject, aad: map<string, string>, dataKey: Bytes, plaintext: Bytes,
    ciphertext: Bytes, m: Manifest, requestedBy: string)
    requires Seals(v, s, aad, dataKey, plaintext, ciphertext, m) && !Blank(requestedBy)
    ensures var answer := ValidateRef(v.policy, destroyed, s.tenant, s.class_, m.payload.kmsRef);
            Decrypt(v, destroyed, DecryptRequest(s, m.payload.kmsRef, ciphertext, m, aad, requestedBy))
            == if answer.Ok? then Ok(plaintext) else Err(Kms(answer.error))
  {
    SealedUnwraps(v, s, aad, dataKey, plaintext, ciphertext, m);
    var aadBytes := AadOf(v.c, s, aad);
    var stream := Keystream(v.c, dataKey, m.payload.nonce, aadBytes, |plaintext|).value;
    var body := XorAll(plaintext, stream);
    SplitTag(body, AuthTag(v.c, dataKey, m.payload.nonce, aadBytes, body));
    XorTwice(plaintext, stream);
  }

  // ---- encryption ----

  /** What a caller can check before encrypting. */
  ghost predicate Encryptable(policy: Policy, destroyed: Destroyed, r: EncryptRequest, dataKey: Bytes, nonce: Bytes) {
    && !r.subject.Blank() && !Blank(r.requestedBy) && 0 < |r.plaintext| <= STREAM_LIMIT
    && ValidateRef(policy, destroyed, Strip(r.subject.tenant), r.subject.class_, r.kmsRef).Ok?
    && |dataKey| == DATA_KEY_BYTES && |nonce| == NONCE_BYTES
  }

  lemma EncryptSucceeds(v: Vault, destroyed: Destroyed, r: EncryptRequest, dataKey: Bytes, nonce: Bytes)
    ensures Encrypt(v, destroyed, r, dataKey, nonce).Ok? <==> Encryptable(v.policy, destroyed, r, dataKey, nonce)
  {
    if |dataKey| == DATA_KEY_BYTES {
      WrapUndoesItself(v, dataKey, r.kmsRef);
    }
  }

  lemma TrimTwice(s: Subject)
    ensures s.Trim().Trim() == s.Trim() && s.Trim().Blank() == s.Blank()
  {
    StripFacts(s.tenant); StripFacts(Strip(s.tenant));
    StripFacts(s.objectId); StripFacts(Strip(s.objectId));
    StripFacts(s.sourceVersionId); StripFacts(Strip(s.sourceVersionId));
  }

  lemma EncryptDescribes(v: Vault, destroyed: Destroyed, r: EncryptRequest, dataKey: Bytes, nonce: Bytes)
    requires Encryptable(v.policy, destroyed, r, dataKey, nonce)
    ensures var out := Encrypt(v, destroyed, r, dataKey, nonce);
            && out.Ok?
            && Describes(v, r.subject.Trim(), r.aad, dataKey, r.plaintext, out.value.ciphertext, out.value.manifest)
            && Wrap(v, dataKey, r.kmsRef) == Ok(out.value.manifest.payload.wrappedKey)
            && out.value.manifest.payload.kmsRef == Strip(r.kmsRef) && out.value.manifest.payload.nonce == nonce
  {
    EncryptSucceeds(v, destroyed, r, dataKey, nonce);
    TrimTwice(r.subject);
  }

  /** Encrypting under a trimmed reference establishes the envelope invariant. */
  lemma EncryptSeals(v: Vault, destroyed: Destroyed, r: EncryptRequest, dataKey: Bytes, nonce: Bytes)
    requires Encryptable(v.policy, destroyed, r, dataKey, nonce) && Trimmed(r.kmsRef)
    ensures var out := Encrypt(v, destroyed, r, dataKey, nonce);
            && out.Ok?
            && Seals(v, r.subject.Trim(), r.aad, dataKey, r.plaintext, out.value.ciphertext, out.value.manifest)
            && out.value.manifest.payload.kmsRef == r.kmsRef
  {
    EncryptDescribes(v, destroyed, r, dataKey, nonce);
    StripFacts(r.kmsRef);
  }

  // ---- rewrapping ----

  /** Who asks for a rewrap, and the keys destroyed by then. */
  datatype RewrapCall = RewrapCall(
    destroyed: Destroyed, requestedBy: string, approvedBy: string, auditRef: string, at: string, reason: string)
  {
    predicate Valid() {
      !Blank(requestedBy) && !Blank(approvedBy) && !Blank(reason)
    }
  }

  /** The rewrap of a manifest under `key` to the next version. */
  function RewrapOnce(
    v: Vault, s: Subject, aad: map<string, string>, ciphertext: Bytes, m: Manifest, key: KeyRef, call: RewrapCall)
    : Result<Manifest, EnvelopeError>
  {
    Rewrap(v, call.destroyed, RequestFor(s, aad, ciphertext, m, NextVersion(key).Canonical(), call))
  }

  function RequestFor(
    s: Subject, aad: map<string, string>, ciphertext: Bytes, m: Manifest, newRef: string, call: RewrapCall)
    : RewrapRequest
  {
    RewrapRequest(s, ciphertext, m, aad, m.payload.kmsRef, newRef,
                  call.requestedBy, call.approvedBy, call.auditRef, call.at,
                  call.reason)
  }

  /** A rewrap changes the key version and leaves a link to where it came from. */
  predicate Follows(m: Manifest, next: Manifest) {
    var p, q := m.payload, next.payload;
    && q.previousManifest == Some(m.hash) && q.previousRef == Some(p.kmsRef)
    && q.nonce == p.nonce && q.aadHash == p.aadHash && q.plaintextHash == p.plaintextHash
    && q.ciphertextHash == p.ciphertextHash && q.ciphertextLength == p.ciphertextLength
    && q.encryptedAt == p.encryptedAt
  }

  /** A reference the manifest can name: canonical and honoured as long as it is not destroyed. */
  ghost predicate Names(v: Vault, s: Subject, m: Manifest, key: KeyRef) {
    && m.payload.kmsRef == key.Canonical() && Live(v.policy, {}, s.tenant, s.class_, key)
  }

  lemma NamedRef(v: Vault, destroyed: Destroyed, s: Subject, m: Manifest, key: KeyRef)
    requires Names(v, s, m, key)
    ensures Strip(key.Canonical()) == key.Canonical() && !Blank(key.Canonical())
    ensures ValidateRef(v.policy, destroyed, s.tenant, s.class_, key.Canonical())
            == if key.Canonical() in destroyed then Err(KeyDestroyed) else Ok(key)
  {
    CanonicalShape(key);
    if key.Canonical() !in destroyed {
      ValidatesExactlyLive(v.policy, destroyed, s.tenant, s.class_, key.Canonical(), key);
    } else {
      CanonicalRoundTrip(key);
    }
  }

  lemma NextIsNamed(v: Vault, s: Subject, key: KeyRef)
    requires Live(v.policy, {}, s.tenant, s.class_, key)
    ensures Live(v.policy, {}, s.tenant, s.class_, NextVersion(key))
    ensures Strip(NextVersion(key).Canonical()) == NextVersion(key).Canonical() && !Blank(NextVersion(key).Canonical())
  {
    CanonicalShape(NextVersion(key));
  }

  /** Rewrapping a sealed envelope to the next version succeeds exactly when the current version
      is not destroyed, whatever became of the next, and keeps the envelope sealed. */
  lemma RewrapSeals(
    v: Vault, s: Subject, aad: map<string, string>, dataKey: Bytes, plaintext: Bytes, ciphertext: Bytes, m: Manifest,
    key: KeyRef, call: RewrapCall)
    requires Seals(v, s, aad, dataKey, plaintext, ciphertext, m) && Names(v, s, m, key) && call.Valid()
    ensures var r := RewrapOnce(v, s, aad, ciphertext, m, key, call);
            && (r.Ok? <==> key.Canonical() !in call.destroyed)
            && (r.Ok? ==>
                  && Seals(v, s, aad, dataKey, plaintext, ciphertext, r.value)
                  && Names(v, s, r.value, NextVersion(key))
                  && Follows(m, r.value))
  {
    SealedUnwraps(v, s, aad, dataKey, plaintext, ciphertext, m);
    NamedRef(v, call.destroyed, s, m, key);
    NextIsNamed(v, s, key);
    WrapUndoesItself(v, dataKey, NextVersion(key).Canonical());
  }

  function VersionUp(key: KeyRef, n: nat): KeyRef {
    key.(version := key.version + n)
  }

  /** A manifest and its rewraps, one call after the other, each to the next version. */
  function RewrapAll(
    v: Vault, s: Subject, aad: map<string, string>, ciphertext: Bytes, m: Manifest, key: KeyRef, calls: seq<RewrapCall>)
    : Result<seq<Manifest>, EnvelopeError>
    decreases |calls|
  {
    if calls == [] then Ok([m])
    else
      var next :- RewrapOnce(v, s, aad, ciphertext, m, key, calls[0]);
      var rest :- RewrapAll(v, s, aad, ciphertext, next, NextVersion(key), calls[1..]);
      Ok([m] + rest)
  }

  /** A chain of manifests, each sealed under the version after the one before it. */
  ghost predicate Chain(
    v: Vault, s: Subject, aad: map<string, string>, dataKey: Bytes, plaintext: Bytes, ciphertext: Bytes, key: KeyRef,
    ms: seq<Manifest>)
  {
    && (forall i :: 0 <= i < |ms| ==>
          Seals(v, s, aad, dataKey, plaintext, ciphertext, ms[i]) && Names(v, s, ms[i], VersionUp(key, i)))
    && (forall i :: 0 < i < |ms| ==> Follows(ms[i - 1], ms[i]))
  }

  /** The versions the calls rewrap from are live when they are called. */
  predicate Untouched(key: KeyRef, calls: seq<RewrapCall>) {
    forall i :: 0 <= i < |calls| ==> VersionUp(key, i).Canonical() !in calls[i].destroyed
  }

  lemma {:induction false} RewrapsChain(
    v: Vault, s: Subject, aad: map<string, string>, dataKey: Bytes, plaintext: Bytes, ciphertext: Bytes, m: Manifest,
    key: KeyRef, calls: seq<RewrapCall>)
    requires Seals(v, s, aad, dataKey, plaintext, ciphertext, m) && Names(v, s, m, key)
    requires forall call :: call in calls ==> call.Valid()
    ensures var r := RewrapAll(v, s, aad, ciphertext, m, key, calls);
            && (r.Ok? <==> Untouched(key, calls))
            && (r.Ok? ==> |r.value| == |calls| + 1 && r.value[0] == m
                          && Chain(v, s, aad, dataKey, plaintext, ciphertext, key, r.value))
    decreases |calls|
  {
    if calls != [] {
      RewrapSeals(v, s, aad, dataKey, plaintext, ciphertext, m, key, calls[0]);
      assert VersionUp(key, 0) == key;
      var next := RewrapOnce(v, s, aad, ciphertext, m, key, calls[0]);
      if next.Ok? {
        RewrapsChain(v, s, aad, dataKey, plaintext, ciphertext, next.value, NextVersion(key), calls[1..]);
        UntouchedSplits(key, calls);
        var rest := RewrapAll(v, s, aad, ciphertext, next.value, NextVersion(key), calls[1..]);
        if rest.Ok? {
          ChainGrows(v, s, aad, dataKey, plaintext, ciphertext, key, m, rest.value);
        }
      }
    }
  }

  lemma UntouchedSplits(key: KeyRef, calls: seq<RewrapCall>)
    requires calls != []
    ensures Untouched(key, calls) <==> key.Canonical() !in calls[0].destroyed && Untouched(NextVersion(key), calls[1..])
  {
    assert VersionUp(key, 0) == key;
    assert forall i :: 0 < i < |calls| ==>
        calls[i] == calls[1..][i - 1] && VersionUp(key, i) == VersionUp(NextVersion(key), i - 1);
  }

  lemma ChainGrows(
    v: Vault, s: Subject, aad: map<string, string>, dataKey: Bytes, plaintext: Bytes, ciphertext: Bytes, key: KeyRef,
    m: Manifest, rest: seq<Manifest>)
    requires Seals(v, s, aad, dataKey, plaintext, ciphertext, m) && Names(v, s, m, key)
    requires rest != [] && Follows(m, rest[0])
    requires Chain(v, s, aad, dataKey, plaintext, ciphertext, NextVersion(key), rest)
    ensures Chain(v, s, aad, dataKey, plaintext, ciphertext, key, [m] + rest)
  {
    var ms := [m] + rest;
    assert VersionUp(key, 0) == key;
    forall i | 0 < i < |ms|
      ensures Seals(v, s, aad, dataKey, plaintext, ciphertext, ms[i]) && Names(v, s, ms[i], VersionUp(key, i))
      ensures Follows(ms[i - 1], ms[i])
    {
      assert ms[i] == rest[i - 1];
      assert VersionUp(NextVersion(key), i - 1) == VersionUp(key, i);
      if i > 1 {
        assert ms[i - 1] == rest[i - 2];
      }
    }
  }

  // ---- the main theorems ----

  /** Whoever opens the envelope gets the plaintext, unless exactly this key version is destroyed. */
  ghost predicate OpensUnder(
    v: Vault, s: Subject, aad: map<string, string>, plaintext: Bytes, ciphertext: Bytes, m: Manifest, key: KeyRef)
  {
    && m.payload.kmsRef == key.Canonical()
    && forall destroyed, who :: !Blank(who) ==>
        Decrypt(v, destroyed, DecryptRequest(s, key.Canonical(), ciphertext, m, aad, who))
            == if key.Canonical() in destroyed then Err(Kms(KeyDestroyed)) else Ok(plaintext)
  }

  lemma NamedOpens(
    v: Vault, s: Subject, aad: map<string, string>, dataKey: Bytes, plaintext: Bytes, ciphertext: Bytes,
    m: Manifest, key: KeyRef)
    requires Seals(v, s, aad, dataKey, plaintext, ciphertext, m) && Names(v, s, m, key)
    ensures OpensUnder(v, s, aad, plaintext, ciphertext, m, key)
  {
    forall destroyed, who | !Blank(who)
      ensures Decrypt(v, destroyed, DecryptRequest(s, key.Canonical(), ciphertext, m, aad, who))
              == if key.Canonical() in destroyed then Err(Kms(KeyDestroyed)) else Ok(plaintext)
    {
      NamedRef(v, destroyed, s, m, key);
      SealedDecrypts(v, destroyed, s, aad, dataKey, plaintext, ciphertext, m, who);
    }
  }

  /** What no rewrap touches. */
  predicate SameContent(p: ManifestPayload, q: ManifestPayload) {
    && q.nonce == p.nonce && q.aadHash == p.aadHash && q.plaintextHash == p.plaintextHash
    && q.ciphertextHash == p.ciphertextHash && q.ciphertextLength == p.ciphertextLength
        && q.encryptedAt == p.encryptedAt
  }

  lemma {:induction false} ChainKeepsContent(ms: seq<Manifest>, i: nat)
    requires i < |ms| && forall j :: 0 < j < |ms| ==> Follows(ms[j - 1], ms[j])
    ensures SameContent(ms[0].payload, ms[i].payload)
  {
    if i > 0 {
      ChainKeepsContent(ms, i - 1);
    }
  }

  /** The manifests left by a sealing and its rewraps: manifest `i` names version `key + i`,
      opens to the plaintext unless that version is destroyed, has the first one's content hashes,
      and links to the manifest and the reference before it. */
  ghost predicate UnbrokenHistory(
    v: Vault, s: Subject, aad: map<string, string>, plaintext: Bytes, ciphertext: Bytes, key: KeyRef, ms: seq<Manifest>)
  {
    && ms != []
    && (forall i :: 0 <= i < |ms| ==>
          && OpensUnder(v, s, aad, plaintext, ciphertext, ms[i], VersionUp(key, i))
          && SameContent(ms[0].payload, ms[i].payload))
    && (forall i :: 0 < i < |ms| ==>
          && ms[i].payload.previousManifest == Some(ms[i - 1].hash)
          && ms[i].payload.previousRef == Some(VersionUp(key, i - 1).Canonical()))
  }

  lemma ChainIsHistory(
    v: Vault, s: Subject, aad: map<string, string>, dataKey: Bytes, plaintext: Bytes, ciphertext: Bytes, key: KeyRef,
    ms: seq<Manifest>)
    requires ms != [] && Chain(v, s, aad, dataKey, plaintext, ciphertext, key, ms)
    ensures UnbrokenHistory(v, s, aad, plaintext, ciphertext, key, ms)
  {
    forall i | 0 <= i < |ms|
      ensures OpensUnder(v, s, aad, plaintext, ciphertext, ms[i], VersionUp(key, i))
      ensures SameContent(ms[0].payload, ms[i].payload)
    {
      NamedOpens(v, s, aad, dataKey, plaintext, ciphertext, ms[i], VersionUp(key, i));
      ChainKeepsContent(ms, i);
    }
    forall i | 0 < i < |ms|
      ensures ms[i].payload.previousManifest == Some(ms[i - 1].hash)
      ensures ms[i].payload.previousRef == Some(VersionUp(key, i - 1).Canonical())
    {
      assert Follows(ms[i - 1], ms[i]) && Names(v, s, ms[i - 1], VersionUp(key, i - 1));
    }
  }

  lemma HonouredRef(v: Vault, destroyed: Destroyed, s: Subject, m: Manifest, ref: string)
    requires ValidateRef(v.policy, destroyed, s.tenant, s.class_, ref).Ok? && Trimmed(ref) && m.payload.kmsRef == ref
    ensures Parse(ref).Ok? && Names(v, s, m, Parse(ref).value)
  {
    StripFacts(ref);
    ValidatesExactlyLive(v.policy, destroyed, s.tenant, s.class_, ref, Parse(ref).value);
  }

  /** Encrypt, rewrap any number of times, decrypt: for every plaintext, additional data and
      trimmed reference the adapter honours, the rewraps all succeed exactly when each version is
      still live when it is rewrapped from, and then every manifest along the way opens to the
      plaintext as long as its own version is not destroyed. */
  lemma EncryptRewrapDecrypt(
    v: Vault, destroyed: Destroyed, r: EncryptRequest, dataKey: Bytes, nonce: Bytes, calls: seq<RewrapCall>)
    requires Encryptable(v.policy, destroyed, r, dataKey, nonce) && Trimmed(r.kmsRef)
    requires forall call :: call in calls ==> call.Valid()
    ensures var out := Encrypt(v, destroyed, r, dataKey, nonce);
            && out.Ok? && Parse(r.kmsRef).Ok?
            && var key := Parse(r.kmsRef).value;
               var all := RewrapAll(v, r.subject.Trim(), r.aad, out.value.ciphertext, out.value.manifest, key, calls);
               && (all.Ok? <==> Untouched(key, calls))
               && (all.Ok? ==>
                     && |all.value| == |calls| + 1 && all.value[0] == out.value.manifest
                     && UnbrokenHistory(v, r.subject.Trim(), r.aad, r.plaintext, out.value.ciphertext, key, all.value))
  {
    EncryptSeals(v, destroyed, r, dataKey, nonce);
    var out := Encrypt(v, destroyed, r, dataKey, nonce).value;
    var s := r.subject.Trim();
    HonouredRef(v, destroyed, s, out.manifest, r.kmsRef);
    var key := Parse(r.kmsRef).value;
    RewrapsChain(v, s, r.aad, dataKey, r.plaintext, out.ciphertext, out.manifest, key, calls);
    var all := RewrapAll(v, s, r.aad, out.ciphertext, out.manifest, key, calls);
    if all.Ok? {
      ChainIsHistory(v, s, r.aad, dataKey, r.plaintext, out.ciphertext, key, all.value);
    }
  }

  /** Over a run of destructions, a manifest opens until its version is destroyed and never after,
      whatever happens to the versions before and after it. */
  lemma OpensUntilDestroyed(
    v: Vault, s: Subject, aad: map<string, string>, plaintext: Bytes, ciphertext: Bytes, key: KeyRef, ms: seq<Manifest>,
    k: nat, states: seq<Destroyed>, steps: seq<DestroyCommand>, i: nat, j: nat, who: string)
    requires UnbrokenHistory(v, s, aad, plaintext, ciphertext, key, ms) && k < |ms| && !Blank(who)
    requires Run(v.policy, states, steps) && i <= j < |states|
    ensures var request := DecryptRequest(s, VersionUp(key, k).Canonical(), ciphertext, ms[k], aad, who);
            && (Decrypt(v, states[j], request) == Ok(plaintext) <==> VersionUp(key, k).Canonical() !in states[j])
            && (Decrypt(v, states[i], request).Err? ==> Decrypt(v, states[j], request) == Err(Kms(KeyDestroyed)))
  {
    DestroyedGrows(v.policy, states, steps, i, j);
    assert OpensUnder(v, s, aad, plaintext, ciphertext, ms[k], VersionUp(key, k));
  }

  /** Rewrapping onto a version destroyed beforehand succeeds and leaves an envelope that no longer
      opens: the rotation does not look the new version up. */
  lemma RewrapOntoDestroyedLocks(
    v: Vault, s: Subject, aad: map<string, string>, dataKey: Bytes, plaintext: Bytes, ciphertext: Bytes, m: Manifest,
    key: KeyRef, call: RewrapCall, who: string)
    requires Seals(v, s, aad, dataKey, plaintext, ciphertext, m) && Names(v, s, m, key) && call.Valid() && !Blank(who)
    requires key.Canonical() !in call.destroyed
    ensures var r := RewrapOnce(v, s, aad, ciphertext, m, key, call);
            var next := NextVersion(key).Canonical();
            && r.Ok?
            && (Decrypt(v, call.destroyed, DecryptRequest(s, next, ciphertext, r.value, aad, who)) == Ok(plaintext)
                <==> next !in call.destroyed)
  {
    RewrapSeals(v, s, aad, dataKey, plaintext, ciphertext, m, key, call);
    var r := RewrapOnce(v, s, aad, ciphertext, m, key, call);
    NamedOpens(v, s, aad, dataKey, plaintext, ciphertext, r.value, NextVersion(key));
  }

  /** The adapter does get into such a state: for every envelope sealed under a class that may be
      shredded there is a run after which its rewrap succeeds and the result does not open. */
  lemma LockingRunExists(
    v: Vault, s: Subject, aad: map<string, string>, dataKey: Bytes, plaintext: Bytes, ciphertext: Bytes, m: Manifest,
    key: KeyRef, call: RewrapCall, who: string) returns (states: seq<Destroyed>, steps: seq<DestroyCommand>)
    requires Seals(v, s, aad, dataKey, plaintext, ciphertext, m) && Names(v, s, m, key) && call.Valid() && !Blank(who)
    requires PolicyOk(v.policy) && PolicyFor(v.policy, key.class_).value.cryptoshred
    ensures Run(v.policy, states, steps) && |steps| == 1
    ensures var r := RewrapOnce(v, s, aad, ciphertext, m, key, call.(destroyed := states[1]));
            && r.Ok?
            && Decrypt(v, states[1], DecryptRequest(s, NextVersion(key).Canonical(), ciphertext, r.value, aad, who))
               == Err(Kms(KeyDestroyed))
  {
    states, steps := NextVersionFirst(v.policy, key);
    var locked := call.(destroyed := states[1]);
    RewrapSeals(v, s, aad, dataKey, plaintext, ciphertext, m, key, locked);
    var r := RewrapOnce(v, s, aad, ciphertext, m, key, locked);
    NamedOpens(v, s, aad, dataKey, plaintext, ciphertext, r.value, NextVersion(key));
  }

  // ---- integrity ----

  /** Whatever decrypts under a manifest has the plaintext hash the manifest states, so with a
      collision-free content hash two successful decryptions of manifests with equal plaintext
      hashes agree. */
  lemma DecryptionsAgree(v: Vault, d: Destroyed, d': Destroyed, r: DecryptRequest, r': DecryptRequest)
    requires forall a, b :: v.c.content(a) == v.c.content(b) ==> a == b
    requires Decrypt(v, d, r).Ok? && Decrypt(v, d', r').Ok?
    requires r.manifest.payload.plaintextHash == r'.manifest.payload.plaintextHash
    ensures Decrypt(v, d, r) == Decrypt(v, d', r')
  {
    DecryptedHash(v, d, r);
    DecryptedHash(v, d', r');
  }

  lemma DecryptedHash(v: Vault, d: Destroyed, r: DecryptRequest)
    requires Decrypt(v, d, r).Ok?
    ensures v.c.content(Decrypt(v, d, r).value) == r.manifest.payload.plaintextHash
  {
  }

  // ---- references with outer white space ----

  /** Encrypting and decrypting right away, as a caller would, with the reference the manifest names. */
  function SealAndOpen(v: Vault, destroyed: Destroyed, r: EncryptRequest, dataKey: Bytes, nonce: Bytes)
    : Result<Bytes, EnvelopeError>
  {
    var out :- Encrypt(v, destroyed, r, dataKey, nonce);
    Decrypt(v, destroyed,
            DecryptRequest(r.subject.Trim(), out.manifest.payload.kmsRef, out.ciphertext, out.manifest, r.aad,
                                         r.requestedBy))
  }

  /** Primitives under which wrapping keys differ for a text and its trimmed form, and tags for
      different data keys. */
  function Telltale(ref: string): Crypto {
    Crypto(
      (k: Bytes, m: Bytes) => if k == [] then (if m == Utf8("wrap:" + ref) then Ones() else Zeros())
                              else if |k| == 32 then k else Zeros(),
      (m: Bytes) => Zeros(), (t: string) => Utf8(t), (a: AadPayload) => [], (b: Bytes) => 0, (e: KmsEvidence) => 0,
      (p: ManifestPayload) => 0)
  }

  function Ones(): Block {
    seq(32, _ => 1 as bv8)
  }

  function Zeros(): Block {
    seq(32, _ => 0 as bv8)
  }

  function Utf8(t: string): Bytes {
    seq(|t|, _ => 0 as bv8)
  }

  /** The key an envelope unwraps to must give its tag. */
  lemma WrongKeyFails(
    v: Vault, destroyed: Destroyed, s: Subject, aad: map<string, string>, dataKey: Bytes, plaintext: Bytes,
    ciphertext: Bytes, m: Manifest, requestedBy: string, found: Bytes)
    requires Describes(v, s, aad, dataKey, plaintext, ciphertext, m) && !Blank(requestedBy)
    requires ValidateRef(v.policy, destroyed, s.tenant, s.class_, m.payload.kmsRef).Ok?
    requires Wrap(v, m.payload.wrappedKey, m.payload.kmsRef) == Ok(found)
    requires forall b :: v.c.hmac(found, b) != v.c.hmac(dataKey, b)
    ensures Decrypt(v, destroyed, DecryptRequest(s, m.payload.kmsRef, ciphertext, m, aad, requestedBy))
            == Err(AuthenticationFailed)
  {
    var aadBytes := AadOf(v.c, s, aad);
    var body := XorAll(plaintext, Keystream(v.c, dataKey, m.payload.nonce, aadBytes, |plaintext|).value);
    SplitTag(body, AuthTag(v.c, dataKey, m.payload.nonce, aadBytes, body));
  }

  lemma TelltaleWraps(policy: Policy, ref: string, dataKey: Bytes) returns (found: Bytes)
    requires !Trimmed(ref) && |dataKey| == DATA_KEY_BYTES
    ensures var v := Vault(Telltale(ref), [], policy);
            && Wrap(v, dataKey, ref).Ok? && Wrap(v, Wrap(v, dataKey, ref).value, Strip(ref)) == Ok(found)
            && forall b :: v.c.hmac(found, b) != v.c.hmac(dataKey, b)
  {
    var v := Vault(Telltale(ref), [], policy);
    WrapUndoesItself(v, dataKey, ref);
    var wrapped := Wrap(v, dataKey, ref).value;
    WrapUndoesItself(v, wrapped, Strip(ref));
    found := Wrap(v, wrapped, Strip(ref)).value;
    StripShortens(ref);
    assert |Utf8("wrap:" + ref)| != |Utf8("wrap:" + Strip(ref))|;
    assert wrapped[0] == dataKey[0] ^ 1;
    assert found[0] == wrapped[0] ^ 0;
    var x := dataKey[0];
    assert (x ^ 1) ^ 0 != x;
  }

  /** Under those primitives an untrimmed reference does not open what it sealed. */
  lemma UntrimmedFails(policy: Policy, destroyed: Destroyed, r: EncryptRequest, dataKey: Bytes, nonce: Bytes)
    requires !Trimmed(r.kmsRef) && Encryptable(policy, destroyed, r, dataKey, nonce)
    ensures SealAndOpen(Vault(Telltale(r.kmsRef), [], policy), destroyed, r, dataKey, nonce)
            == Err(AuthenticationFailed)
  {
    var v := Vault(Telltale(r.kmsRef), [], policy);
    var found := TelltaleWraps(policy, r.kmsRef, dataKey);
    EncryptDescribes(v, destroyed, r, dataKey, nonce);
    ParseIgnoresOuterSpace(r.kmsRef);
    var out := Encrypt(v, destroyed, r, dataKey, nonce).value;
    WrongKeyFails(v, destroyed, r.subject.Trim(), r.aad, dataKey, r.plaintext, out.ciphertext, out.manifest,
                  r.requestedBy, found);
  }

  lemma StripShortens(s: string)
    requires !Trimmed(s)
    ensures |Strip(s)| < |s|
  {
    var before, after := StripSlices(s);
    StripFacts(s);
    assert before == "" && after == "" ==> s == Strip(s);
  }

  /** The round trip is guaranteed, whatever the primitives, exactly for trimmed references. */
  lemma RoundTripNeedsTrimmed(policy: Policy, destroyed: Destroyed, r: EncryptRequest, dataKey: Bytes, nonce: Bytes)
    requires Encryptable(policy, destroyed, r, dataKey, nonce)
    ensures (forall c, secret :: SealAndOpen(Vault(c, secret, policy), destroyed, r, dataKey, nonce) == Ok(r.plaintext))
            <==> Trimmed(r.kmsRef)
  {
    if Trimmed(r.kmsRef) {
      forall c, secret ensures SealAndOpen(Vault(c, secret, policy), destroyed, r, dataKey, nonce) == Ok(r.plaintext) {
        TrimmedOpens(Vault(c, secret, policy), destroyed, r, dataKey, nonce);
      }
    } else {
      UntrimmedFails(policy, destroyed, r, dataKey, nonce);
    }
  }

  lemma TrimmedOpens(v: Vault, destroyed: Destroyed, r: EncryptRequest, dataKey: Bytes, nonce: Bytes)
    requires Encryptable(v.policy, destroyed, r, dataKey, nonce) && Trimmed(r.kmsRef)
    ensures SealAndOpen(v, destroyed, r, dataKey, nonce) == Ok(r.plaintext)
  {
    EncryptSeals(v, destroyed, r, dataKey, nonce);
    var out := Encrypt(v, destroyed, r, dataKey, nonce).value;
    SealedDecrypts(v, destroyed, r.subject.Trim(), r.aad, dataKey, r.plaintext, out.ciphertext, out.manifest,
                   r.requestedBy);
  }
}
