/** What destruction means for restore drills over whole runs of the key adapter. */
module RestoreDrillRuns {
  import opened Wrappers
  import opened Text
  import opened KeyReference
  import opened KmsAdapter
  import opened Envelope
  import opened EnvelopeRoundTrip
  import opened RestoreDrill

  // ---- simulation ----

  /** When a simulation goes through: the request, the record and its retention manifest agree,
      nothing protects the record, its retention lets go of it, and the adapter honours its key
      and allows the class to be shredded. */
  predicate Shredable(policy: Policy, destroyed: Destroyed, r: ShredRequest) {
    var m := r.record.metadata;
    var t := r.retention;
    && m.tenant == r.tenant && m.objectId == r.objectId && m.versionId == r.versionId
    && t.tenant == m.tenant && t.objectId == m.objectId && t.versionId == m.versionId && t.class_ == m.class_
    && t.policyId == m.retention && t.hold == m.hold && t.sourceManifestHash == r.record.manifestHash
    && m.hold.NoHold? && m.class_ != Gobd && m.class_ != LegalHoldClass
    && !m.lifecycle.BusinessRecord? && !m.lifecycle.WormEvidence?
    && !t.deletionBlocked && !t.worm
    && (t.earlyShred || (t.retainUntil.Some? && t.retainUntil.value <= r.at))
    && ValidateRef(policy, destroyed, m.tenant, m.class_, m.kmsRef).Ok?
    && PolicyFor(policy, m.class_).Some? && PolicyFor(policy, m.class_).value.cryptoshred
    && (PolicyFor(policy, m.class_).value.humanApproval ==> r.approvalRef != "")
  }

  lemma LifecycleNames(l: Lifecycle)
    ensures LifecycleName(l) == "business_record" <==> l.BusinessRecord?
    ensures LifecycleName(l) == "worm_evidence" <==> l.WormEvidence?
  {
    match l {
      case Working => case SavedVersion => case BusinessRecord => case WormEvidence => case Restricted =>
      case Deleted => case Cryptoshredded =>
    }
  }

  lemma HoldNames(hold: Hold)
    ensures HoldName(hold) == "active" <==> hold.ActiveHold?
  {
    assert "none" != "active" by { assert |"none"| != |"active"|; }
  }

  lemma DestroyCondition(policy: Policy, destroyed: Destroyed, c: DestroyCommand)
    ensures Destroy(policy, destroyed, c).Ok?
            <==> ValidateRef(policy, destroyed, c.tenant, c.class_, c.ref).Ok?
                 && DestructionBarrier(PolicyFor(policy, c.class_).value, c).None?
  {
  }

  /** The adapter repeats none of the simulator's checks in vain and adds only its own: both
      together succeed exactly on shredable requests. */
  lemma SimulationSucceeds(h: Hashes, policy: Policy, destroyed: Destroyed, r: ShredRequest)
    ensures SimulateShred(h, policy, destroyed, r).Ok? <==> Shredable(policy, destroyed, r)
  {
    LifecycleNames(r.record.metadata.lifecycle);
    HoldNames(r.record.metadata.hold);
    DestroyCondition(policy, destroyed, DestructionFor(r));
  }

  /** A simulation goes through exactly on shredable requests, and then adds exactly the record's key;
      a refused one changes nothing. */
  lemma SimulationDestroys(h: Hashes, policy: Policy, destroyed: Destroyed, r: ShredRequest)
    ensures SimulateShred(h, policy, destroyed, r).Ok? <==> Shredable(policy, destroyed, r)
    ensures AfterShred(policy, destroyed, r)
            == if SimulateShred(h, policy, destroyed, r).Ok?
                then destroyed + {Strip(r.record.metadata.kmsRef)} else destroyed
  {
    SimulationSucceeds(h, policy, destroyed, r);
    ParsedPrintsBack(r.record.metadata.kmsRef);
  }

  // ---- drills ----

  /** A drill reports RESTORED exactly when the storage evidence matches and the envelope opens to
      content with the stored hash; nothing else it could report. */
  lemma RestoredMeansOpened(h: Hashes, v: Vault, destroyed: Destroyed, c: RestoreCommand)
    ensures var r := VerifyRestore(h, v, destroyed, c);
            && (r.Ok? <==> RestoreBarrier(h, v.c, c).None? && Decrypt(v, destroyed, OpenCommand(c)).Ok?)
            && (r.Ok? ==> r.value.status.Restored? && r.value.Consistent())
            && (r.Ok? ==> v.c.content(Decrypt(v, destroyed, OpenCommand(c)).value) == v.c.content(c.content))
  {
    if Decrypt(v, destroyed, OpenCommand(c)).Ok? {
      DecryptedHash(v, destroyed, OpenCommand(c));
    }
    if RestoreBarrier(h, v.c, c).None? {
      BarrierHashes(h, v.c, c);
    }
  }

  lemma BarrierHashes(h: Hashes, c: Crypto, r: RestoreCommand)
    requires RestoreBarrier(h, c, r).None?
    ensures r.envelope.payload.plaintextHash == r.storage.fields.contentHash == c.content(r.content)
  {
  }

  /** With a collision-free content hash, what a RESTORED report released is what the envelope holds. */
  lemma RestoredContentIsPlaintext(h: Hashes, v: Vault, destroyed: Destroyed, c: RestoreCommand)
    requires forall a, b :: v.c.content(a) == v.c.content(b) ==> a == b
    requires VerifyRestore(h, v, destroyed, c).Ok?
    ensures Decrypt(v, destroyed, OpenCommand(c)) == Ok(c.content)
  {
    RestoredMeansOpened(h, v, destroyed, c);
  }

  /** A decryption asks the adapter about the reference it is given. */
  lemma DecryptAsksAdapter(v: Vault, destroyed: Destroyed, r: DecryptRequest)
    requires Strip(r.kmsRef) in destroyed
    ensures Decrypt(v, destroyed, r).Err?
  {
    GoneIsRefused(v.policy, destroyed, r.subject.Trim().tenant, r.subject.class_, r.kmsRef);
  }

  lemma DecryptIgnoresOthers(v: Vault, destroyed: Destroyed, text: string, r: DecryptRequest)
    requires Strip(r.kmsRef) != text
    ensures Decrypt(v, destroyed + {text}, r) == Decrypt(v, destroyed, r)
  {
    OthersUnchanged(v.policy, destroyed, text, r.subject.Trim().tenant, r.subject.class_, r.kmsRef);
  }

  lemma NoRestoreUnder(h: Hashes, v: Vault, destroyed: Destroyed, c: RestoreCommand)
    requires Strip(c.storage.fields.kmsRef) in destroyed
    ensures VerifyRestore(h, v, destroyed, c).Err?
  {
    DecryptAsksAdapter(v, destroyed, OpenCommand(c));
    RestoredMeansOpened(h, v, destroyed, c);
  }

  lemma RestoreIgnoresOthers(h: Hashes, v: Vault, destroyed: Destroyed, text: string, c: RestoreCommand)
    requires Strip(c.storage.fields.kmsRef) != text
    ensures VerifyRestore(h, v, destroyed + {text}, c) == VerifyRestore(h, v, destroyed, c)
  {
    DecryptIgnoresOthers(v, destroyed, text, OpenCommand(c));
  }

  lemma ShredTakes(
    h: Hashes, policy: Policy, states: seq<Destroyed>, steps: seq<DestroyCommand>, i: nat, r: ShredRequest)
    requires Run(policy, states, steps) && i < |steps| && steps[i] == DestructionFor(r)
    requires SimulateShred(h, policy, states[i], r).Ok?
    ensures states[i + 1] == states[i] + {Strip(r.record.metadata.kmsRef)}
  {
    assert Taken(policy, states, steps, i);
    SimulationDestroys(h, policy, states[i], r);
  }

  /** After a simulation at step `i`, no drill at any later moment reports RESTORED under that key
      reference. */
  lemma ShreddedNeverRestores(
    h: Hashes, v: Vault, states: seq<Destroyed>, steps: seq<DestroyCommand>, i: nat, j: nat, r: ShredRequest,
    c: RestoreCommand)
    requires Run(v.policy, states, steps) && i < j < |states| && steps[i] == DestructionFor(r)
    requires SimulateShred(h, v.policy, states[i], r).Ok?
    requires Strip(c.storage.fields.kmsRef) == Strip(r.record.metadata.kmsRef)
    ensures VerifyRestore(h, v, states[j], c).Err?
  {
    ShredTakes(h, v.policy, states, steps, i, r);
    DestroyedGrows(v.policy, states, steps, i + 1, j);
    NoRestoreUnder(h, v, states[j], c);
  }

  /** And for every other reference the simulation changes no drill's answer. */
  lemma ShreddingSparesOthers(
    h: Hashes, v: Vault, states: seq<Destroyed>, steps: seq<DestroyCommand>, i: nat, r: ShredRequest, c: RestoreCommand)
    requires Run(v.policy, states, steps) && i < |steps| && steps[i] == DestructionFor(r)
    requires SimulateShred(h, v.policy, states[i], r).Ok?
    requires Strip(c.storage.fields.kmsRef) != Strip(r.record.metadata.kmsRef)
    ensures VerifyRestore(h, v, states[i + 1], c) == VerifyRestore(h, v, states[i], c)
  {
    ShredTakes(h, v.policy, states, steps, i, r);
    RestoreIgnoresOthers(h, v, states[i], Strip(r.record.metadata.kmsRef), c);
  }

  /** A sealed envelope whose storage evidence is in order is reported RESTORED for as long as its
      key version is not destroyed, and only so long. */
  lemma SealedRestoresUntilDestroyed(
    h: Hashes, v: Vault, destroyed: Destroyed, c: RestoreCommand, dataKey: Bytes, key: KeyRef)
    requires RestoreBarrier(h, v.c, c).None? && !Blank(c.requestedBy)
    requires Seals(v, OpenCommand(c).subject, c.aad, dataKey, c.content, c.ciphertext, c.envelope)
    requires Names(v, OpenCommand(c).subject, c.envelope, key)
    ensures VerifyRestore(h, v, destroyed, c).Ok? <==> key.Canonical() !in destroyed
  {
    SealedDecrypts(v, destroyed, OpenCommand(c).subject, c.aad, dataKey, c.content, c.ciphertext, c.envelope,
                   c.requestedBy);
    NamedRef(v, destroyed, OpenCommand(c).subject, c.envelope, key);
    RestoredMeansOpened(h, v, destroyed, c);
  }

  /** The simulation's manifest lets the second drill report the object unrecoverable exactly when
      the storage manifest is the record's and the retention manifest's. */
  lemma SimulationProvesUnrecoverable(
    h: Hashes, policy: Policy, destroyed: Destroyed, r: ShredRequest, storage: Storage)
    requires SimulateShred(h, policy, destroyed, r).Ok?
    ensures var shred := SimulateShred(h, policy, destroyed, r).value;
            var command := ShreddedCommand(r.tenant, r.objectId, r.versionId, r.record, storage, r.retention, shred);
            var report := VerifyShredded(h, command);
            && (report.Ok? <==>
                  && ShreddedStorageBarrier(h, storage, r.record, r.retention).None?
                  && Trimmed(r.record.metadata.kmsRef))
            && (report.Ok? ==>
                  && report.value.status.UnrecoverableByPolicy? && report.value.Consistent()
                  && report.value.shredHash == Some(shred.hash)
                  && report.value.destructionHash == Some(shred.fields.destructionHash))
  {
    StripFacts(r.record.metadata.kmsRef);
  }
}
