/** Cryptoshredding an object by destroying its key version, and the restore drills that must then
    report it unrecoverable. */
module RestoreDrill {
  import opened Wrappers
  import opened Text
  import opened Sorting
  import opened KeyReference
  import opened KmsAdapter
  import opened Envelope

  datatype Hold = NoHold | ActiveHold
  datatype Lifecycle = Working | SavedVersion | BusinessRecord | WormEvidence | Restricted | Deleted | Cryptoshredded
  datatype LockMode = NoLock | Governance | Compliance

  function HoldName(hold: Hold): string {
    if hold.ActiveHold? then "active" else "none"
  }

  function LifecycleName(l: Lifecycle): string {
    match l
    case Working => "working"
    case SavedVersion => "saved_version"
    case BusinessRecord => "business_record"
    case WormEvidence => "worm_evidence"
    case Restricted => "restricted"
    case Deleted => "deleted"
    case Cryptoshredded => "cryptoshredded"
  }

  /** A source object's metadata, with `descriptive` for what nothing here reads. */
  datatype Metadata = Metadata(
    tenant: string, objectId: string, objectType: string, versionId: string, class_: DataClass, retention: string,
    hold: Hold, kmsRef: string, contentHash: Digest, contentLength: nat, lifecycle: Lifecycle, auditRef: string,
    descriptive: string)

  datatype Record = Record(metadata: Metadata, manifestHash: Digest)

  datatype Retention = Retention(
    tenant: string, objectId: string, versionId: string, class_: DataClass, policyId: string, hold: Hold,
    deletionBlocked: bool, worm: bool, earlyShred: bool, retainUntil: Option<int>, lockMode: LockMode, bucketId: string,
    sourceManifestHash: Digest, snapshotHash: Digest)

  datatype StorageFields = StorageFields(
    tenant: string, objectId: string, objectType: string, versionId: string, class_: DataClass, lifecycle: Lifecycle,
    retention: string, hold: Hold, kmsRef: string, sourceManifestHash: Digest, contentHash: Digest, contentLength: nat,
    retentionHash: Digest, snapshotHash: Digest, bucketId: string, lockMode: LockMode, lockUntil: Option<int>,
    lockHold: bool, worm: bool, auditRef: string, location: string)

  datatype Storage = Storage(fields: StorageFields, hash: Digest)

  datatype ShredFields = ShredFields(
    tenant: string, objectId: string, versionId: string, class_: DataClass, retention: string, hold: Hold,
    lifecycle: Lifecycle, kmsRef: string, sourceManifestHash: Digest, retentionHash: Digest, snapshotHash: Digest,
    destructionHash: Digest, approvalRef: string, at: int)

  datatype ShredManifest = ShredManifest(fields: ShredFields, hash: Digest)

  /** The hashes of these records. */
  datatype Hashes = Hashes(
    source: Metadata -> Digest, retention: Retention -> Digest, storage: StorageFields -> Digest,
    shred: ShredFields -> Digest, destruction: (KeyRef, string) -> Digest)

  // ---- cryptoshredding ----

  datatype ShredRequest = ShredRequest(
    tenant: string, objectId: string, versionId: string, record: Record, retention: Retention, approvalRef: string,
    at: int)

  datatype ShredError =
    | WrongObject | RetentionMismatch | HoldActive | ProtectedClass | ProtectedLifecycle | RetentionBlocks
    | NoReleaseTime | RetentionRuns | Adapter(cause: KmsError)

  /** The three `_require_*` checks. */
  function ShredBarrier(r: ShredRequest): Option<ShredError> {
    var m := r.record.metadata;
    var t := r.retention;
    if m.tenant != r.tenant || m.objectId != r.objectId || m.versionId != r.versionId then Some(WrongObject)
    else if t.tenant != m.tenant || t.objectId != m.objectId || t.versionId != m.versionId || t.class_ != m.class_
            || t.policyId != m.retention || t.hold != m.hold || t.sourceManifestHash != r.record.manifestHash
    then Some(RetentionMismatch)
    else if m.hold.ActiveHold? || t.hold.ActiveHold? then Some(HoldActive)
    else if m.class_ == Gobd || m.class_ == LegalHoldClass then Some(ProtectedClass)
    else if m.lifecycle.BusinessRecord? || m.lifecycle.WormEvidence? then Some(ProtectedLifecycle)
    else if t.deletionBlocked || t.worm then Some(RetentionBlocks)
    else if t.earlyShred then None
    else if t.retainUntil.None? then Some(NoReleaseTime)
    else if r.at < t.retainUntil.value then Some(RetentionRuns)
    else None
  }

  function DestructionFor(r: ShredRequest): DestroyCommand {
    var m := r.record.metadata;
    DestroyCommand(r.tenant, m.class_, m.kmsRef, HoldName(m.hold), LifecycleName(m.lifecycle), r.approvalRef)
  }

  function ShredManifestFor(h: Hashes, r: ShredRequest, key: KeyRef): ShredManifest {
    var m := r.record.metadata;
    var f := ShredFields(
      m.tenant, m.objectId, m.versionId, m.class_, m.retention, m.hold, m.lifecycle, Strip(m.kmsRef),
      r.record.manifestHash, h.retention(r.retention), r.retention.snapshotHash, h.destruction(key, r.approvalRef),
      r.approvalRef, r.at);
    ShredManifest(f, h.shred(f))
  }

  /** `simulate`. */
  function SimulateShred(h: Hashes, policy: Policy, destroyed: Destroyed, r: ShredRequest)
    : Result<ShredManifest, ShredError>
  {
    match ShredBarrier(r)
    case Some(e) => Err(e)
    case None =>
      match Destroy(policy, destroyed, DestructionFor(r))
      case Err(e) => Err(Adapter(e))
      case Ok(key) => Ok(ShredManifestFor(h, r, key))
  }

  /** The destroyed set a simulation leaves. */
  function AfterShred(policy: Policy, destroyed: Destroyed, r: ShredRequest): Destroyed {
    if ShredBarrier(r).Some? then destroyed else After(policy, destroyed, DestructionFor(r))
  }

  class CryptoshredSimulator {
    const h: Hashes
    const adapter: LocalKmsAdapter

    constructor (h: Hashes, adapter: LocalKmsAdapter)
      ensures this.h == h && this.adapter == adapter
    {
      this.h, this.adapter := h, adapter;
    }

    method Simulate(r: ShredRequest) returns (result: Result<ShredManifest, ShredError>)
      modifies adapter
      ensures result == SimulateShred(h, adapter.policy, old(adapter.destroyed), r)
      ensures adapter.destroyed == AfterShred(adapter.policy, old(adapter.destroyed), r)
    {
      var barrier := ShredBarrier(r);
      if barrier.Some? {
        return Err(barrier.value);
      }
      var destruction := adapter.RecordKeyDestruction(DestructionFor(r));
      if destruction.Err? {
        return Err(Adapter(destruction.error));
      }
      return Ok(ShredManifestFor(h, r, destruction.value));
    }
  }

  // ---- the drills ----

  datatype DrillError =
    | CommandMismatch | EnvelopeHash | EnvelopeMismatch | StorageHash | SourceHash | StorageSourceMismatch
    | RetentionHashMismatch | StorageRetentionMismatch | HoldEvidenceMissing
    | ContentHashMismatch | ContentLengthMismatch
    | Undecryptable(cause: EnvelopeError) | PlaintextMismatch | RestoredMismatch | ShredHashMismatch | ShredMismatch

  datatype Status = Restored | UnrecoverableByPolicy

  datatype Report = Report(
    status: Status, storageHash: Digest, envelopeHash: Option<Digest>, contentHash: Option<Digest>,
    shredHash: Option<Digest>, destructionHash: Option<Digest>, checks: seq<string>, released: bool, unreadable: bool)
  {
    /** The report's status rules; a drill that restored carries KMS evidence along with the envelope's hash. */
    predicate Consistent() {
      && (status.Restored? ==> released && !unreadable && envelopeHash.Some?)
      && (status.UnrecoverableByPolicy? ==> !released && unreadable && shredHash.Some? && destructionHash.Some?)
    }
  }

  datatype RestoreCommand = RestoreCommand(
    tenant: string, objectId: string, versionId: string, record: Record, storage: Storage, retention: Retention,
    content: Bytes, ciphertext: Bytes, envelope: Manifest, aad: map<string, string>, requestedBy: string)

  datatype ShreddedCommand = ShreddedCommand(
    tenant: string, objectId: string, versionId: string, record: Record, storage: Storage, retention: Retention,
    shred: ShredManifest)

  predicate Addresses(tenant: string, objectId: string, versionId: string, record: Record) {
    record.metadata.tenant == tenant && record.metadata.objectId == objectId && record.metadata.versionId == versionId
  }

  /** `verify_storage_object_restore`. */
  function StorageBarrier(
    h: Hashes, content: Bytes -> Digest, s: Storage, record: Record, t: Retention, restored: Bytes)
    : Option<DrillError>
  {
    var f := s.fields;
    var m := record.metadata;
    if s.hash != h.storage(f) then Some(StorageHash)
    else if record.manifestHash != h.source(m) then Some(SourceHash)
    else if f.tenant != m.tenant || f.objectId != m.objectId || f.objectType != m.objectType
        || f.versionId != m.versionId
            || f.class_ != m.class_ || f.lifecycle != m.lifecycle || f.retention != m.retention || f.hold != m.hold
            || f.kmsRef != m.kmsRef || f.sourceManifestHash != record.manifestHash || f.contentHash != m.contentHash
            || f.contentLength != m.contentLength || f.auditRef != m.auditRef
    then Some(StorageSourceMismatch)
    else if f.retentionHash != h.retention(t) then Some(RetentionHashMismatch)
    else if f.bucketId != t.bucketId || f.snapshotHash != t.snapshotHash || f.lockMode != t.lockMode
            || f.lockUntil != (if t.lockMode.NoLock? then None else t.retainUntil) || f.worm != t.worm
    then Some(StorageRetentionMismatch)
    else if t.hold.ActiveHold? && !f.lockMode.NoLock? && !f.lockHold then Some(HoldEvidenceMissing)
    else if content(restored) != f.contentHash then Some(ContentHashMismatch)
    else if f.contentLength != |restored| then Some(ContentLengthMismatch)
    else None
  }

  function EnvelopeBarrier(c: Crypto, e: Manifest, s: Storage): Option<DrillError> {
    var p := e.payload;
    var f := s.fields;
    if e.hash != c.manifest(p) then Some(EnvelopeHash)
    else if p.tenant != f.tenant || p.objectId != f.objectId || p.sourceVersionId != f.versionId || p.class_ != f.class_
            || p.kmsRef != f.kmsRef || p.plaintextHash != f.contentHash
    then Some(EnvelopeMismatch)
    else None
  }

  const STORAGE_CHECKS: seq<string> := [
    "storage_object_manifest_hash_check", "source_object_manifest_hash_check", "retention_manifest_hash_check",
    "retention_policy_snapshot_hash_check", "content_hash_verifier_check", "object_lock_configuration_check",
    "legal_hold_check" ]

  const ENVELOPE_CHECKS: seq<string> := [
    "envelope_encryption_manifest_hash_check", "ciphertext_hash_check", "aad_hash_check", "wrapped_data_key_hash_check",
    "kms_key_reference_check", "kms_evidence_hash_check", "plaintext_hash_check", "restore_drill_report_hash_check" ]

  const SHRED_CHECKS: seq<string> := [
    "storage_object_manifest_hash_check", "source_object_manifest_hash_check", "retention_manifest_hash_check",
    "retention_policy_snapshot_hash_check", "cryptoshred_manifest_hash_check", "key_destruction_policy_check",
    "no_plaintext_key_export_check", "restore_drill_report_hash_check" ]

  function OpenCommand(c: RestoreCommand): DecryptRequest {
    DecryptRequest(Subject(c.tenant, c.objectId, c.versionId, c.storage.fields.class_), c.storage.fields.kmsRef,
                   c.ciphertext,
                   c.envelope, c.aad, c.requestedBy)
  }

  /** What a restore drill checks before it decrypts. */
  function RestoreBarrier(h: Hashes, c: Crypto, r: RestoreCommand): Option<DrillError> {
    if !Addresses(r.tenant, r.objectId, r.versionId, r.record) then Some(CommandMismatch)
    else if EnvelopeBarrier(c, r.envelope, r.storage).Some? then EnvelopeBarrier(c, r.envelope, r.storage)
    else StorageBarrier(h, c.content, r.storage, r.record, r.retention, r.content)
  }

  /** `verify_encrypted_object_restore`. */
  function VerifyRestore(h: Hashes, v: Vault, destroyed: Destroyed, c: RestoreCommand): Result<Report, DrillError> {
    match RestoreBarrier(h, v.c, c)
    case Some(e) => Err(e)
    case None =>
      match Decrypt(v, destroyed, OpenCommand(c))
      case Err(e) => Err(Undecryptable(e))
      case Ok(plaintext) =>
        if v.c.content(plaintext) != c.storage.fields.contentHash then Err(PlaintextMismatch)
        else if v.c.content(c.content) != v.c.content(plaintext) then Err(RestoredMismatch)
        else Ok(RestoredReport(c))
  }

  function RestoredReport(c: RestoreCommand): Report {
    Report(Restored, c.storage.hash, Some(c.envelope.hash), Some(c.storage.fields.contentHash), None, None,
           Unique(STORAGE_CHECKS + ENVELOPE_CHECKS), true, false)
  }

  /** `_require_storage_manifest_metadata_matches_record` and `_require_storage_manifest_matches_retention`. */
  function ShreddedStorageBarrier(h: Hashes, s: Storage, record: Record, t: Retention): Option<DrillError> {
    var f := s.fields;
    var m := record.metadata;
    if s.hash != h.storage(f) then Some(StorageHash)
    else if record.manifestHash != h.source(m) then Some(SourceHash)
    else if f.tenant != m.tenant || f.objectId != m.objectId || f.versionId != m.versionId || f.class_ != m.class_
            || f.kmsRef != m.kmsRef || f.sourceManifestHash != record.manifestHash
    then Some(StorageSourceMismatch)
    else if f.retentionHash != h.retention(t) then Some(RetentionHashMismatch)
    else if f.snapshotHash != t.snapshotHash then Some(StorageRetentionMismatch)
    else None
  }

  predicate ShredMatches(h: Hashes, c: ShreddedCommand) {
    var f := c.shred.fields;
    var m := c.record.metadata;
    && f.tenant == m.tenant && f.objectId == m.objectId && f.versionId == m.versionId && f.class_ == m.class_
    && f.retention == m.retention && f.hold == m.hold && f.lifecycle == m.lifecycle
    && f.kmsRef == c.storage.fields.kmsRef && f.sourceManifestHash == c.storage.fields.sourceManifestHash
    && f.retentionHash == h.retention(c.retention) && f.snapshotHash == c.retention.snapshotHash
  }

  /** `verify_cryptoshredded_object_restore`. */
  function VerifyShredded(h: Hashes, c: ShreddedCommand): Result<Report, DrillError> {
    if !Addresses(c.tenant, c.objectId, c.versionId, c.record) then Err(CommandMismatch)
    else match ShreddedStorageBarrier(h, c.storage, c.record, c.retention)
         case Some(e) => Err(e)
         case None =>
           if c.shred.hash != h.shred(c.shred.fields) then Err(ShredHashMismatch)
           else if !ShredMatches(h, c) then Err(ShredMismatch)
           else Ok(Report(UnrecoverableByPolicy, c.storage.hash, None, None, Some(c.shred.hash),
                          Some(c.shred.fields.destructionHash), SHRED_CHECKS, false, true))
  }

  // ---- the list of checks ----

  /** The items in the order they first occur. */
  function Unique(s: seq<string>): seq<string> {
    if s == [] then []
    else
      var rest := Unique(s[..|s| - 1]);
      if s[|s| - 1] in rest then rest else rest + [s[|s| - 1]]
  }

  function Flat(groups: seq<seq<string>>): seq<string> {
    if groups == [] then [] else Flat(groups[..|groups| - 1]) + groups[|groups| - 1]
  }

  /** `_unique_checks`. */
  method UniqueChecks(groups: seq<seq<string>>) returns (checks: seq<string>)
    ensures checks == Unique(Flat(groups))
  {
    checks := [];
    for i := 0 to |groups|
      invariant checks == Unique(Flat(groups[..i]))
    {
      assert groups[..i + 1][..i] == groups[..i];
      assert Flat(groups[..i]) + groups[i][..0] == Flat(groups[..i]);
      for j := 0 to |groups[i]|
        invariant checks == Unique(Flat(groups[..i]) + groups[i][..j])
      {
        var seen := Flat(groups[..i]) + groups[i][..j + 1];
        assert seen[..|seen| - 1] == Flat(groups[..i]) + groups[i][..j];
        if groups[i][j] !in checks {
          checks := checks + [groups[i][j]];
        }
      }
      assert groups[i][..|groups[i]|] == groups[i];
    }
    assert groups[..|groups|] == groups;
  }

  /** The position where an item first occurs. */
  predicate FirstAt(s: seq<string>, x: string, i: nat) {
    i < |s| && s[i] == x && x !in s[..i]
  }

  /** No item twice, none lost or invented, and all in the order of first occurrence. */
  lemma {:induction false} UniqueKeepsFirsts(s: seq<string>)
    ensures Distinct(Unique(s)) && forall x :: x in Unique(s) <==> x in s
    ensures forall i, j, a, b ::
              0 <= i < j < |Unique(s)| && FirstAt(s, Unique(s)[i], a) && FirstAt(s, Unique(s)[j], b) ==> a < b
  {
    if s != [] {
      var n := |s| - 1;
      var front, u := s[..n], Unique(s[..n]);
      UniqueKeepsFirsts(front);
      assert s == front + [s[n]];
      forall i, j, a, b | 0 <= i < j < |Unique(s)| && FirstAt(s, Unique(s)[i], a) && FirstAt(s, Unique(s)[j], b)
        ensures a < b
      {
        FirstInFront(s, Unique(s)[i], a);
        if j < |u| {
          FirstInFront(s, Unique(s)[j], b);
        }
      }
    }
  }

  lemma FirstInFront(s: seq<string>, x: string, a: nat)
    requires s != [] && FirstAt(s, x, a) && x in s[..|s| - 1]
    ensures a < |s| - 1 && FirstAt(s[..|s| - 1], x, a)
  {
    var front := s[..|s| - 1];
    var k :| 0 <= k < |front| && front[k] == x;
    assert !(k < a) by {
      assert forall j :: 0 <= j < a ==> s[..a][j] in s[..a];
    }
    assert front[..a] == s[..a];
  }
}
