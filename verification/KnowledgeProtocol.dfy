/** The governed write protocol as a state machine: what each service call computes from the
    ledger, the articles, the source store and the receipts, and the state it leaves. */
module KnowledgeProtocol {
  import opened Wrappers
  import opened Sorting
  import opened KeyReference
  import opened KnowledgeTypes
  import opened KnowledgeEvidence

  datatype LedgerKey = LedgerKey(tenant: string, hash: Digest)

  datatype State = State(
    articles: seq<Article>,
    store: map<SourceKey, SourceRecord>,
    receipts: map<LedgerKey, Receipt>,
    receiptVersions: set<SourceKey>,
    ledger: map<LedgerKey, ApprovalEvidence>)

  function Look(h: Hash, st: State, tenant: string): Result<View, KbError> {
    ViewOf(h, st.articles, st.store, tenant)
  }

  function LedgerGet(st: State, tenant: string, hash: Digest): Result<ApprovalEvidence, KbError> {
    var key := LedgerKey(tenant, hash);
    if key in st.ledger then Ok(st.ledger[key]) else Err(LedgerMissing)
  }

  /** The target check all steps share: an edit needs the article at the expected version, a
      creation needs the id to be free. */
  function CheckTarget(articles: seq<Article>, operation: Operation, id: string, expected: Option<string>)
    : Result<Option<Article>, KbError>
  {
    var existing := FindArticle(articles, id);
    if operation.Edit? then
      if existing.None? then Err(ArticleNotFound)
      else if expected != Some(existing.value.versionId) then Err(VersionMoved)
      else Ok(existing)
    else if existing.Some? then Err(ArticleExists) else Ok(existing)
  }

  /** `dry_run_write_approval`: the ledger entry it appends. */
  function DryRunWrite(h: Hash, st: State, tenant: string, user: string, c: WriteCommand, auditEventId: string)
    : Result<ApprovalEvidence, KbError>
  {
    if !c.Valid() then Err(InvalidCommand)
    else
      var mine := Records(st.articles, tenant);
      var _ :- CheckTarget(mine, c.operation, c.articleId, c.expectedVersionId);
      if c.operation.Create? && exists a | a in mine :: a.key == c.articleKey then Err(ArticleKeyExists)
      else
        var view :- Look(h, st, tenant);
        var evidence := DryRunEvidence(h, tenant, user, c, view.restore.hash, auditEventId);
        if LedgerKey(tenant, evidence.hash) in st.ledger then Err(LedgerDuplicate) else Ok(evidence)
  }

  predicate Approves(e: ApprovalEvidence, tenant: string, dryRunHash: Digest) {
    e.payload.tenant == tenant && e.payload.transitionSource == Some(dryRunHash) && e.payload.state.ApprovedForWrite?
  }

  /** `approve_write_approval`: the approved ledger entry it appends. */
  function ApproveWrite(h: Hash, st: State, tenant: string, user: string, c: ApproveCommand, auditEventId: string)
    : Result<ApprovalEvidence, KbError>
  {
    var dryRun :- LedgerGet(st, tenant, c.dryRunHash);
    var p := dryRun.payload;
    if !p.state.DryRun? then Err(NotDryRun)
    else if h(ApprovalOf(p)) != dryRun.hash then Err(HashInvalid)
    else if p.persistenceAllowed || p.ragAllowed || p.authorityVerified then Err(FlagsInvalid)
    else if exists k | k in st.ledger :: k.tenant == tenant && Approves(st.ledger[k], tenant, dryRun.hash)
    then Err(AlreadyApproved)
    else
      var _ :- CheckTarget(Records(st.articles, tenant), p.operation, p.articleId, p.expectedVersionId);
      var view :- Look(h, st, tenant);
      if view.restore.hash != p.snapshotHash then Err(SnapshotMoved)
      else if dryRun.hash == ZERO_HASH then Err(HashInvalid)
      else
        var evidence := TransitionEvidence(h, dryRun, c.approvalReference, user, auditEventId);
        if LedgerKey(evidence.payload.tenant, evidence.hash) in st.ledger then Err(LedgerDuplicate) else Ok(evidence)
  }

  /** An approved entry, its target and the unchanged snapshot: what preview, skeleton and
      execution all begin with. */
  datatype Grounds = Grounds(approved: ApprovalEvidence, existing: Option<Article>, view: View)

  function Ground(h: Hash, st: State, tenant: string, approvalHash: Digest): Result<Grounds, KbError> {
    var approved :- LedgerGet(st, tenant, approvalHash);
    var p := approved.payload;
    if !p.state.ApprovedForWrite? then Err(NotApprovedForWrite)
    else if h(ApprovalOf(p)) != approved.hash then Err(HashInvalid)
    else if !p.persistenceAllowed || p.transitionSource.None? then Err(FlagsInvalid)
    else
      var existing :- CheckTarget(Records(st.articles, tenant), p.operation, p.articleId, p.expectedVersionId);
      var view :- Look(h, st, tenant);
      if view.restore.hash != p.snapshotHash then Err(SnapshotMoved)
      else Ok(Grounds(approved, existing, view))
  }

  /** The validators of the preview's answer: no hash twice, and as many hashes as counted. */
  predicate PreviewOk(p: PreviewPayload) {
    && Distinct(p.currentHashes) && Distinct(p.projectedHashes)
    && |p.currentHashes| == p.countBefore && |p.projectedHashes| == p.countAfter
  }

  /** `preview_write_evidence_refresh`. */
  function PreviewRefresh(h: Hash, st: State, tenant: string, c: PreviewCommand): Result<Preview, KbError> {
    var g :- Ground(h, st, tenant, c.approvalHash);
    PreviewOn(h, tenant, c, g)
  }

  /** The same, once there are grounds. */
  function PreviewOn(h: Hash, tenant: string, c: PreviewCommand, g: Grounds): Result<Preview, KbError> {
    var projected :- Projection(g.approved.payload, g.view.evidences);
    var commandHash := h(PreviewCommandOf(c));
    var p := PreviewPayloadFor(tenant, g.approved, commandHash, g.view, projected);
    if PreviewOk(p) then Ok(Preview(commandHash, p.currentHashes, projected, h(PreviewOf(p)))) else Err(PreviewInvalid)
  }

  /** A condition that blocks a write, and the reason it adds to the decision. */
  datatype Check = Check(blocks: bool, reason: BlockingReason)

  function Blocking(checks: seq<Check>): seq<BlockingReason> {
    if checks == [] then [] else Noted(checks[0]) + Blocking(checks[1..])
  }

  function Noted(c: Check): seq<BlockingReason> {
    if c.blocks then [c.reason] else []
  }

  function ApprovalChecks(h: Hash, e: ApprovalEvidence): seq<Check> {
    [ Check(h(ApprovalOf(e.payload)) != e.hash, ApprovalHashInvalid),
      Check(!e.payload.state.ApprovedForWrite?, NotApproved),
      Check(!e.payload.persistenceAllowed, PersistenceNotAllowed) ]
  }

  /** `_evaluate_expected_version`. */
  function TargetChecks(tenant: string, p: ApprovalPayload, current: Option<Article>): seq<Check> {
    if p.operation.Create? then [Check(current.Some?, TargetExists)]
    else if current.None? then [Check(true, TargetMissing)]
    else
      var a := current.value;
      [ Check(a.tenant != tenant, TargetTenant), Check(a.objectId != p.articleId, TargetObject),
        Check(p.expectedVersionId != Some(a.versionId), TargetVersion), Check(a.legalHold.ActiveHold?, TargetHold),
        Check(a.retention != STANDARD_RETENTION, TargetRetention) ]
  }

  /** The record is storable and is the object version the approval names. */
  function IdentityChecks(h: Hash, tenant: string, p: ApprovalPayload, record: SourceRecord): seq<Check> {
    var f := record.fields;
    var failure := WriteGuard(h, record);
    [ Check(failure.Some?, MetadataGuardFailed(if failure.Some? then failure.value else FieldMissing)),
      Check(f.tenant != tenant, SourceTenant), Check(f.objectId != p.proposedSourceId, SourceObject),
      Check(f.versionId != p.proposedSourceVersionId, SourceVersion),
      Check(f.objectType != p.proposedSourceType, SourceTypeMismatch) ]
  }

  /** It carries what the approval was given for. */
  function ContentChecks(p: ApprovalPayload, record: SourceRecord): seq<Check> {
    var f := record.fields;
    [ Check(record.manifestHash != p.proposedManifestHash, SourceManifest),
      Check(f.contentHash != p.proposedContentHash, SourceContent),
      Check(f.aclVersion != p.proposedAclVersion, SourceAcl),
      Check(p.operation.Create? && f.sourceSystem != p.sourceSystem, SourceSystemMismatch) ]
  }

  function PolicyChecks(h: Hash, tenant: string, p: ApprovalPayload, record: SourceRecord): seq<Check> {
    var f := record.fields;
    [ Check(f.classification != Internal, SourceClassification),
      Check(f.retention != STANDARD_RETENTION, SourceRetention),
      Check(f.legalHold.ActiveHold?, SourceHold),
      Check(EvidenceForRecord(h, tenant, p.articleId, p.proposedVersionId, record).hash != p.proposedEvidenceHash,
            SourceEvidence) ]
  }

  /** `_evaluate_proposed_source`. */
  function SourceChecks(h: Hash, tenant: string, p: ApprovalPayload, record: SourceRecord): seq<Check> {
    IdentityChecks(h, tenant, p, record) + ContentChecks(p, record) + PolicyChecks(h, tenant, p, record)
  }

  /** `_evaluate_restore_evidence`. */
  function RestoreChecks(h: Hash, tenant: string, p: ApprovalPayload, restore: RestoreEvidence): seq<Check> {
    [ Check(restore.payload.tenant != tenant, RestoreTenant), Check(restore.hash != p.snapshotHash, RestoreMoved),
      Check(h(RestoreOf(restore.payload)) != restore.hash, RestoreHashInvalid),
      Check(!restore.payload.legalHoldRestore, RestoreHoldUnverified),
      Check(!restore.payload.disabledStateRestore, RestoreDisabledUnverified),
      Check(!restore.payload.tenantIsolation, RestoreIsolationUnverified) ]
  }

  /** The reasons in the order the guard collects them. */
  function Reasons(
    h: Hash, tenant: string, e: ApprovalEvidence, current: Option<Article>, record: SourceRecord,
    restore: RestoreEvidence): seq<BlockingReason>
  {
    Blocking(ApprovalChecks(h, e)) + Blocking(TargetChecks(tenant, e.payload, current))
    + Blocking(SourceChecks(h, tenant, e.payload, record)) + Blocking(RestoreChecks(h, tenant, e.payload, restore))
  }

  /** `KnowledgeBaseSourceObjectWriteGuard.evaluate`. */
  function Decide(
    h: Hash, tenant: string, e: ApprovalEvidence, current: Option<Article>, record: SourceRecord,
    restore: RestoreEvidence): GuardDecision
  {
    var reasons := Reasons(h, tenant, e, current, record, restore);
    var allowed := reasons == [];
    var p := GuardPayload(
      tenant, allowed, reasons, e.hash, e.payload.state, e.payload.operation, e.payload.articleId,
      e.payload.expectedVersionId, e.payload.proposedSourceId, e.payload.proposedSourceVersionId,
      e.payload.proposedEvidenceHash, e.payload.snapshotHash, allowed && e.payload.persistenceAllowed,
      allowed && e.payload.ragAllowed, allowed);
    GuardDecision(p, h(GuardOf(p)))
  }

  /** `evaluate_source_object_write_guard`. */
  function EvaluateGuard(h: Hash, st: State, tenant: string, approvalHash: Digest, record: SourceRecord)
    : Result<GuardDecision, KbError>
  {
    var view :- Look(h, st, tenant);
    var e :- LedgerGet(st, tenant, approvalHash);
    Ok(Decide(h, tenant, e, FindArticle(view.articles, e.payload.articleId), record, view.restore))
  }

  /** `_require_matching_source_object_write_guard_decision`. */
  predicate GuardMatches(h: Hash, e: ApprovalEvidence, d: GuardDecision) {
    var p := e.payload;
    var g := d.payload;
    && h(GuardOf(g)) == d.ref && g.allowed && g.reasons == [] && g.persistenceAllowed && !g.ragAllowed
    && g.authorityVerified && g.approvalHash == e.hash && g.state == p.state && g.operation == p.operation
    && g.articleId == p.articleId && g.expectedVersionId == p.expectedVersionId
    && g.proposedSourceId == p.proposedSourceId && g.proposedSourceVersionId == p.proposedSourceVersionId
    && g.proposedEvidenceHash == p.proposedEvidenceHash && g.snapshotHash == p.snapshotHash
  }

  /** The preview hash recomputed from the live state. */
  function LivePreviewHash(h: Hash, tenant: string, g: Grounds, terms: ExecutionTerms, projected: seq<Digest>): Digest {
    h(PreviewOf(PreviewPayloadFor(tenant, g.approved, terms.previewCommandHash, g.view, projected)))
  }

  /** `prepare_write_execution_skeleton`. */
  function PrepareSkeleton(h: Hash, st: State, tenant: string, c: SkeletonCommand): Result<Skeleton, KbError> {
    var g :- Ground(h, st, tenant, c.terms.approvalHash);
    if !GuardMatches(h, g.approved, c.terms.guard) then Err(GuardMismatch)
    else
      var projected :- Projection(g.approved.payload, g.view.evidences);
      if LivePreviewHash(h, tenant, g, c.terms, projected) != c.terms.previewHash then Err(PreviewMismatch)
      else
        var commandHash := h(SkeletonCommandOf(c));
        Ok(Skeleton(commandHash, h(PlanOf(PlanPayloadFor(tenant, g.approved, c.terms, commandHash)))))
  }

  datatype Cleared = Cleared(grounds: Grounds, projected: seq<Digest>)

  /** Every check `execute_write` makes before its first write. */
  function Clear(h: Hash, st: State, tenant: string, c: ExecutionCommand): Result<Cleared, KbError> {
    var g :- Ground(h, st, tenant, c.terms.approvalHash);
    ClearOn(h, st.store, tenant, c, g)
  }

  /** The same checks, once there are grounds. */
  function ClearOn(h: Hash, store: map<SourceKey, SourceRecord>, tenant: string, c: ExecutionCommand, g: Grounds)
    : Result<Cleared, KbError>
  {
    if !GuardMatches(h, g.approved, c.terms.guard) then Err(GuardMismatch)
    else if Decide(h, tenant, g.approved, g.existing, c.record, g.view.restore).ref != c.terms.guard.ref
    then Err(GuardMoved)
    else
      var projected :- Projection(g.approved.payload, g.view.evidences);
      if LivePreviewHash(h, tenant, g, c.terms, projected) != c.terms.previewHash then Err(PreviewMismatch)
      else if h(PlanOf(PlanPayloadFor(tenant, g.approved, c.terms, c.skeletonCommandHash))) != c.planHash
      then Err(PlanMismatch)
      else if SourceKey(tenant, g.approved.payload.proposedSourceId,
                        g.approved.payload.proposedSourceVersionId) in store then Err(SourceExists)
      else Ok(Cleared(g, projected))
  }

  function AuditRef(c: ExecutionCommand): string {
    "audit:" + c.terms.executionReference
  }

  function ReceiptFor(h: Hash, c: ExecutionCommand, capturedAt: string): Receipt {
    var p := ReceiptPayload(c.record.fields, c.record.manifestHash, "receipt:" + c.terms.executionReference,
                            AuditRef(c), capturedAt);
    Receipt(p, h(ReceiptOf(p)))
  }

  /** `InMemorySourceObjectWriteReceiptStore.append`. */
  function AppendReceipt(h: Hash, st: State, r: Receipt): Result<State, KbError> {
    var key := LedgerKey(r.payload.fields.tenant, r.hash);
    if r.hash != h(ReceiptOf(r.payload)) then Err(ReceiptHashInvalid)
    else if key in st.receipts || r.payload.Key() in st.receiptVersions then Err(ReceiptExists)
    else Ok(st.(receipts := st.receipts[key := r], receiptVersions := st.receiptVersions + {r.payload.Key()}))
  }

  /** `InMemorySourceObjectRepository.add`. */
  function AddSource(h: Hash, store: map<SourceKey, SourceRecord>, record: SourceRecord)
    : Result<map<SourceKey, SourceRecord>, KbError>
  {
    var failure := WriteGuard(h, record);
    if failure.Some? then Err(SourceRejected(failure.value))
    else if record.Key() in store then Err(SourceExists)
    else Ok(store[record.Key() := record])
  }

  /** `require_source_record_matches_write_evidence`. */
  predicate RecordMatches(tenant: string, p: ApprovalPayload, record: SourceRecord) {
    var f := record.fields;
    && f.tenant == tenant && f.objectId == p.proposedSourceId && f.versionId == p.proposedSourceVersionId
    && f.objectType == p.proposedSourceType && record.manifestHash == p.proposedManifestHash
    && f.contentHash == p.proposedContentHash && f.aclVersion == p.proposedAclVersion
  }

  /** `build_created_article_from_write_evidence`. */
  function CreatedArticle(tenant: string, p: ApprovalPayload, record: SourceRecord, auditRef: string)
    : Result<Article, KbError>
  {
    var f := record.fields;
    if !RecordMatches(tenant, p, record) || f.sourceSystem != p.sourceSystem then Err(WriteMismatch)
    else
      var a := Article(
        tenant, p.articleId, p.articleKey, p.title, p.proposedVersionId, p.proposedVersionLabel, p.proposedSourceId,
        p.proposedSourceVersionId, p.proposedSourceType, record.manifestHash, f.contentHash, f.aclVersion,
        f.classification, f.retention, f.legalHold, p.sourceSystem, auditRef, f.descriptive);
      if a.Valid() then Ok(a) else Err(ArticleInvalid)
  }

  /** `build_edited_article_from_write_evidence`; the copy is not validated again. */
  function EditedArticle(tenant: string, p: ApprovalPayload, record: SourceRecord, old_: Article, auditRef: string)
    : Result<Article, KbError>
  {
    if !RecordMatches(tenant, p, record) then Err(WriteMismatch)
    else if p.expectedVersionId != Some(old_.versionId) then Err(VersionMoved)
    else Ok(old_.(
      versionId := p.proposedVersionId, versionLabel := p.proposedVersionLabel, sourceId := p.proposedSourceId,
      sourceVersionId := p.proposedSourceVersionId, sourceType := p.proposedSourceType,
      manifestHash := record.manifestHash, contentHash := record.fields.contentHash,
      aclVersion := record.fields.aclVersion, auditRef := auditRef))
  }

  predicate IsTarget(a: Article, tenant: string, id: string) {
    a.tenant == tenant && a.objectId == id
  }

  /** The position of the first article an edit addresses, or the length. */
  function TargetIndex(articles: seq<Article>, tenant: string, id: string): (i: nat)
    ensures i <= |articles|
    ensures i < |articles| ==> IsTarget(articles[i], tenant, id)
    ensures forall j :: 0 <= j < i ==> !IsTarget(articles[j], tenant, id)
  {
    if articles == [] || IsTarget(articles[0], tenant, id) then 0 else 1 + TargetIndex(articles[1..], tenant, id)
  }

  /** `InMemoryKnowledgeBaseArticleRepository.apply_write`. */
  function ApplyWrite(
    articles: seq<Article>, tenant: string, p: ApprovalPayload, record: SourceRecord, auditRef: string)
    : Result<seq<Article>, KbError>
  {
    if p.operation.Create? then
      if exists a | a in articles :: IsTarget(a, tenant, p.articleId) then Err(ArticleExists)
      else if exists a | a in articles :: a.tenant == tenant && a.key == p.articleKey then Err(ArticleKeyExists)
      else
        var created :- CreatedArticle(tenant, p, record, auditRef);
        Ok(articles + [created])
    else
      var i := TargetIndex(articles, tenant, p.articleId);
      if i == |articles| then Err(ArticleNotFound)
      else
        var edited :- EditedArticle(tenant, p, record, articles[i], auditRef);
        Ok(articles[i := edited])
  }

  /** The two comparisons `execute_write` makes after writing. */
  function PostChecks(h: Hash, st: State, tenant: string, cleared: Cleared): Result<View, KbError> {
    var p := cleared.grounds.approved.payload;
    var view :- Look(h, st, tenant);
    var refreshed := FindEvidence(view.evidences, p.articleId);
    if refreshed.None? || refreshed.value.hash != p.proposedEvidenceHash then Err(PostWriteEvidence)
    else if view.restore.payload.evidenceHashes != cleared.projected then Err(PostWriteProjection)
    else Ok(view)
  }

  /** `execute_write`, write by write: an error after the first write leaves the writes before it. */
  function Execute(h: Hash, st: State, tenant: string, c: ExecutionCommand, capturedAt: string)
    : (State, Result<View, KbError>)
  {
    match Clear(h, st, tenant, c)
    case Err(e) => (st, Err(e))
    case Ok(cleared) => WriteAll(h, st, tenant, c, capturedAt, cleared)
  }

  /** The three writes and the comparisons after them. */
  function WriteAll(h: Hash, st: State, tenant: string, c: ExecutionCommand, capturedAt: string, cleared: Cleared)
    : (State, Result<View, KbError>)
  {
    match AppendReceipt(h, st, ReceiptFor(h, c, capturedAt))
    case Err(e) => (st, Err(e))
    case Ok(st1) =>
      match AddSource(h, st1.store, c.record)
      case Err(e) => (st1, Err(e))
      case Ok(store) =>
        var st2 := st1.(store := store);
        match ApplyWrite(st2.articles, tenant, cleared.grounds.approved.payload, c.record, AuditRef(c))
        case Err(e) => (st2, Err(e))
        case Ok(articles) =>
          var st3 := st2.(articles := articles);
          (st3, PostChecks(h, st3, tenant, cleared))
  }

  /** One call that can change the state. `ForeignSource` is any other writer of the source store. */
  datatype Step =
    | DryRunStep(tenant: string, user: string, write: WriteCommand, auditEventId: string)
    | ApproveStep(tenant: string, user: string, approve: ApproveCommand, auditEventId: string)
    | ExecuteStep(tenant: string, execute: ExecutionCommand, capturedAt: string)
    | ForeignSource(record: SourceRecord)

  function Record(st: State, e: ApprovalEvidence): State {
    st.(ledger := st.ledger[LedgerKey(e.payload.tenant, e.hash) := e])
  }

  function Next(h: Hash, st: State, s: Step): State {
    match s
    case DryRunStep(t, user, c, audit) =>
      var r := DryRunWrite(h, st, t, user, c, audit);
      if r.Ok? then Record(st, r.value) else st
    case ApproveStep(t, user, c, audit) =>
      var r := ApproveWrite(h, st, t, user, c, audit);
      if r.Ok? then Record(st, r.value) else st
    case ExecuteStep(t, c, at) => Execute(h, st, t, c, at).0
    case ForeignSource(record) =>
      var r := AddSource(h, st.store, record);
      if r.Ok? then st.(store := r.value) else st
  }

  predicate Executes(h: Hash, st: State, s: Step, tenant: string) {
    s.ExecuteStep? && s.tenant == tenant && Execute(h, st, tenant, s.execute, s.capturedAt).1.Ok?
  }
}
