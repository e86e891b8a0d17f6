/** The records of the knowledge base's governed write protocol.
    Every evidence record is a payload and the hash of that payload. A hash is a number: the
    source's `sha256:<hex>` texts all have one width, so their order is the order of numbers. */
module KnowledgeTypes {
  import opened Wrappers
  import opened KeyReference

  type Digest = nat

  /** The draft value that evidence carries until its hash is known. */
  const ZERO_HASH: Digest := 0

  const STANDARD_RETENTION := "rp-standard"

  datatype Operation = Create | Edit
  datatype ApprovalState = DryRun | ApprovedForWrite | Rejected | Expired
  datatype HoldState = NoHold | ActiveHold
  datatype SourceType = Document | Mail | Attachment | Comment | Wiki | ProcedureDoc

  datatype SourceKey = SourceKey(tenant: string, objectId: string, versionId: string)

  /** `descriptive` stands for the fields no decision reads (title, owner, times, mime type). */
  datatype SourceFields = SourceFields(
    tenant: string, objectId: string, objectType: SourceType, versionId: string,
    classification: DataClass, retention: string, legalHold: HoldState, kmsKeyRef: string,
    sourceSystem: string, aclVersion: nat, contentHash: Digest, descriptive: string)

  datatype SourceRecord = SourceRecord(fields: SourceFields, manifestHash: Digest, content: string) {
    function Key(): SourceKey {
      SourceKey(fields.tenant, fields.objectId, fields.versionId)
    }
  }

  datatype Article = Article(
    tenant: string, objectId: string, key: string, title: string,
    versionId: string, versionLabel: string, sourceId: string, sourceVersionId: string,
    sourceType: SourceType, manifestHash: Digest, contentHash: Digest, aclVersion: nat,
    classification: DataClass, retention: string, legalHold: HoldState,
    sourceSystem: string, auditRef: string, descriptive: string)
  {
    function SourceKeyOf(): SourceKey {
      SourceKey(tenant, sourceId, sourceVersionId)
    }

    /** The record's own validators. */
    predicate Valid() {
      classification == Internal && retention == STANDARD_RETENTION && sourceId == versionId
    }
  }

  datatype VersionPayload = VersionPayload(
    tenant: string, articleId: string, articleVersionId: string, sourceId: string,
    sourceVersionId: string, sourceType: SourceType, manifestHash: Digest, contentHash: Digest,
    aclVersion: nat, classification: DataClass, retention: string, legalHold: HoldState)
  {
    function SourceKeyOf(): SourceKey {
      SourceKey(tenant, sourceId, sourceVersionId)
    }
  }

  datatype VersionEvidence = VersionEvidence(payload: VersionPayload, hash: Digest)

  datatype ChecksumRow = ChecksumRow(
    articleId: string, articleVersionId: string, manifestHash: Digest, contentHash: Digest, evidenceHash: Digest)

  datatype RestorePayload = RestorePayload(
    tenant: string, articleCount: nat, versionCount: nat, evidenceCount: nat,
    evidenceHashes: seq<Digest>, drillReportHash: Digest, rowCountHash: Digest, checksumHash: Digest,
    tenantIsolation: bool, disabledStateRestore: bool, legalHoldRestore: bool, auditRef: string)

  datatype RestoreEvidence = RestoreEvidence(payload: RestorePayload, hash: Digest)

  datatype WriteCommand = WriteCommand(
    approvalReference: string, reason: string, operation: Operation,
    articleId: string, articleKey: string, title: string,
    proposedVersionId: string, proposedVersionLabel: string, proposedSourceId: string,
    proposedSourceVersionId: string, proposedSourceType: SourceType,
    proposedManifestHash: Digest, proposedContentHash: Digest, proposedAclVersion: nat,
    expectedVersionId: Option<string>, classification: DataClass, retention: string,
    legalHold: HoldState, sourceSystem: string)
  {
    /** The command's own validators, without the textual shapes of its references. */
    predicate Valid() {
      && classification == Internal && retention == STANDARD_RETENTION
      && proposedSourceId == proposedVersionId
      && (operation.Edit? <==> expectedVersionId.Some?)
    }
  }

  datatype ApprovalPayload = ApprovalPayload(
    tenant: string, approvalReference: string, operation: Operation, state: ApprovalState,
    articleId: string, articleKey: string, title: string, expectedVersionId: Option<string>,
    proposedVersionId: string, proposedVersionLabel: string, proposedSourceId: string,
    proposedSourceVersionId: string, proposedSourceType: SourceType,
    proposedManifestHash: Digest, proposedContentHash: Digest, proposedAclVersion: nat,
    commandHash: Digest, proposedEvidenceHash: Digest, snapshotHash: Digest,
    transitionSource: Option<Digest>, requestedBy: string,
    persistenceAllowed: bool, ragAllowed: bool, authorityVerified: bool,
    auditEventId: string, sourceSystem: string)

  datatype ApprovalEvidence = ApprovalEvidence(payload: ApprovalPayload, hash: Digest) {
    function Summary(): ApprovalSummary {
      ApprovalSummary(
        hash, payload.transitionSource, payload.operation, payload.articleId, payload.expectedVersionId,
        payload.proposedVersionId, payload.proposedSourceId, payload.proposedSourceVersionId,
        payload.commandHash, payload.proposedEvidenceHash, payload.snapshotHash)
    }
  }

  datatype ApproveCommand = ApproveCommand(dryRunHash: Digest, approvalReference: string, reason: string)

  datatype BlockingReason =
    | ApprovalHashInvalid | NotApproved | PersistenceNotAllowed
    | TargetExists | TargetMissing | TargetTenant | TargetObject | TargetVersion | TargetHold | TargetRetention
    | MetadataGuardFailed(cause: GuardFailure)
    | SourceTenant | SourceObject | SourceVersion | SourceTypeMismatch | SourceManifest | SourceContent
    | SourceAcl | SourceSystemMismatch | SourceClassification | SourceRetention | SourceHold | SourceEvidence
    | RestoreTenant | RestoreMoved | RestoreHashInvalid | RestoreHoldUnverified | RestoreDisabledUnverified
    | RestoreIsolationUnverified

  datatype GuardFailure =
    | FieldMissing | KmsReferenceInvalid | KmsTenant | KmsClass | ContentHashWrong | ManifestHashWrong

  datatype GuardPayload = GuardPayload(
    tenant: string, allowed: bool, reasons: seq<BlockingReason>, approvalHash: Digest,
    state: ApprovalState, operation: Operation, articleId: string, expectedVersionId: Option<string>,
    proposedSourceId: string, proposedSourceVersionId: string, proposedEvidenceHash: Digest,
    snapshotHash: Digest, persistenceAllowed: bool, ragAllowed: bool, authorityVerified: bool)

  datatype GuardDecision = GuardDecision(payload: GuardPayload, ref: Digest)

  datatype PreviewCommand = PreviewCommand(approvalHash: Digest, previewReference: string, reason: string)

  /** The part of an approval that preview and plan hashes repeat. */
  datatype ApprovalSummary = ApprovalSummary(
    approvalHash: Digest, transitionSource: Option<Digest>, operation: Operation, articleId: string,
    expectedVersionId: Option<string>, proposedVersionId: string, proposedSourceId: string,
    proposedSourceVersionId: string, commandHash: Digest, proposedEvidenceHash: Digest, snapshotHash: Digest)

  datatype PreviewPayload = PreviewPayload(
    tenant: string, approval: ApprovalSummary, previewCommandHash: Digest,
    currentHashes: seq<Digest>, projectedHashes: seq<Digest>, countBefore: nat, countAfter: nat)

  datatype Preview = Preview(
    previewCommandHash: Digest, currentHashes: seq<Digest>, projectedHashes: seq<Digest>, previewHash: Digest)

  /** What the skeleton and the execution command have in common. */
  datatype ExecutionTerms = ExecutionTerms(
    approvalHash: Digest, guard: GuardDecision, previewCommandHash: Digest, previewHash: Digest,
    executionReference: string, confirmationReference: string)

  datatype SkeletonCommand = SkeletonCommand(terms: ExecutionTerms, reason: string)

  datatype Skeleton = Skeleton(commandHash: Digest, planHash: Digest)

  datatype PlanPayload = PlanPayload(
    tenant: string, executionReference: string, confirmationReference: string, approval: ApprovalSummary,
    guardRef: Digest, previewCommandHash: Digest, previewHash: Digest, executionCommandHash: Digest)

  datatype ExecutionCommand = ExecutionCommand(
    terms: ExecutionTerms, skeletonCommandHash: Digest, planHash: Digest, record: SourceRecord, reason: string)

  datatype ReceiptPayload = ReceiptPayload(
    fields: SourceFields, manifestHash: Digest, receiptReference: string, auditRef: string, capturedAt: string)
  {
    function Key(): SourceKey {
      SourceKey(fields.tenant, fields.objectId, fields.versionId)
    }
  }

  datatype Receipt = Receipt(payload: ReceiptPayload, hash: Digest)

  /** Everything the protocol hashes. */
  datatype Payload =
    | ContentOf(content: string)
    | ManifestOf(fields: SourceFields)
    | VersionOf(version: VersionPayload)
    | RowCountsOf(tenant: string, articles: nat, evidences: nat)
    | ChecksumOf(rows: seq<ChecksumRow>)
    | RestoreOf(restore: RestorePayload)
    | DrillOf(drillTenant: string)
    | CommandOf(command: WriteCommand)
    | ApprovalOf(approval: ApprovalPayload)
    | GuardOf(guard: GuardPayload)
    | PreviewCommandOf(previewCommand: PreviewCommand)
    | PreviewOf(preview: PreviewPayload)
    | SkeletonCommandOf(skeletonCommand: SkeletonCommand)
    | PlanOf(plan: PlanPayload)
    | ReceiptOf(receipt: ReceiptPayload)

  type Hash = Payload -> Digest

  predicate SameKind(p: Payload, q: Payload) {
    match p
    case ContentOf(_) => q.ContentOf?
    case ManifestOf(_) => q.ManifestOf?
    case VersionOf(_) => q.VersionOf?
    case RowCountsOf(_, _, _) => q.RowCountsOf?
    case ChecksumOf(_) => q.ChecksumOf?
    case RestoreOf(_) => q.RestoreOf?
    case DrillOf(_) => q.DrillOf?
    case CommandOf(_) => q.CommandOf?
    case ApprovalOf(_) => q.ApprovalOf?
    case GuardOf(_) => q.GuardOf?
    case PreviewCommandOf(_) => q.PreviewCommandOf?
    case PreviewOf(_) => q.PreviewOf?
    case SkeletonCommandOf(_) => q.SkeletonCommandOf?
    case PlanOf(_) => q.PlanOf?
    case ReceiptOf(_) => q.ReceiptOf?
  }

  /** No two payloads of one kind share a hash. Payloads of different kinds may: source content
      is arbitrary and can spell out any other payload's text. */
  ghost predicate CollisionFree(h: Hash) {
    forall p, q {:trigger SameKind(p, q)} :: SameKind(p, q) && h(p) == h(q) ==> p == q
  }
}
