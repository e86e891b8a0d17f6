/** The evidence builders: source-version evidence, restore evidence over a tenant's articles,
    the projection of a pending write, and the checks on proposed source records. */
module KnowledgeEvidence {
  import opened Wrappers
  import opened Text
  import opened Sorting
  import opened KeyReference
  import opened KnowledgeTypes

  datatype KbError =
    | InvalidCommand | ArticleNotFound | ArticleExists | ArticleKeyExists | VersionMoved
    | SourceMissing | EvidenceMismatch | RestoreInvalid
    | LedgerMissing | LedgerDuplicate | NotDryRun | AlreadyApproved | HashInvalid | FlagsInvalid
    | NotApprovedForWrite | SnapshotMoved | GuardMismatch | GuardMoved | ProjectionInvalid
    | PreviewInvalid | PreviewMismatch | PlanMismatch | SourceExists | ReceiptHashInvalid | ReceiptExists
    | SourceRejected(cause: GuardFailure)
    | WriteMismatch | ArticleInvalid | PostWriteEvidence | PostWriteProjection

  /** `SourceObjectWriteGuard.validate_before_write`. */
  function WriteGuard(h: Hash, record: SourceRecord): Option<GuardFailure> {
    var f := record.fields;
    if Blank(f.tenant) || Blank(f.retention) || Blank(f.kmsKeyRef) then Some(FieldMissing)
    else match Parse(f.kmsKeyRef)
         case Err(_) => Some(KmsReferenceInvalid)
         case Ok(key) =>
           if key.tenant != f.tenant then Some(KmsTenant)
           else if key.class_ != f.classification then Some(KmsClass)
           else if f.contentHash != h(ContentOf(record.content)) then Some(ContentHashWrong)
           else if record.manifestHash != h(ManifestOf(f)) then Some(ManifestHashWrong)
           else None
  }

  function VersionPayloadFor(tenant: string, articleId: string, versionId: string, record: SourceRecord)
    : VersionPayload
  {
    var f := record.fields;
    VersionPayload(tenant, articleId, versionId, f.objectId, f.versionId, f.objectType, record.manifestHash,
                   f.contentHash, f.aclVersion, f.classification, f.retention, f.legalHold)
  }

  /** `build_source_version_evidence_for_source_record`. */
  function EvidenceForRecord(h: Hash, tenant: string, articleId: string, versionId: string, record: SourceRecord)
    : VersionEvidence
  {
    var p := VersionPayloadFor(tenant, articleId, versionId, record);
    VersionEvidence(p, h(VersionOf(p)))
  }

  /** `build_proposed_source_version_evidence`. */
  function ProposedEvidence(h: Hash, tenant: string, c: WriteCommand): VersionEvidence {
    var p := VersionPayload(tenant, c.articleId, c.proposedVersionId, c.proposedSourceId, c.proposedSourceVersionId,
                            c.proposedSourceType, c.proposedManifestHash, c.proposedContentHash,
                            c.proposedAclVersion, c.classification, c.retention, c.legalHold);
    VersionEvidence(p, h(VersionOf(p)))
  }

  /** An article's stored source backs it up: every mirrored field agrees and both hashes are
      those of the stored bytes and metadata. */
  predicate Backed(h: Hash, a: Article, record: SourceRecord) {
    var f := record.fields;
    && f.tenant == a.tenant && f.objectId == a.sourceId && f.versionId == a.sourceVersionId
    && f.objectId == a.versionId && f.objectType == a.sourceType
    && record.manifestHash == a.manifestHash && record.manifestHash == h(ManifestOf(f))
    && f.contentHash == a.contentHash && f.contentHash == h(ContentOf(record.content))
    && f.aclVersion == a.aclVersion && f.classification == a.classification
    && f.retention == a.retention && f.legalHold == a.legalHold
  }

  /** `source_version_evidence` of the service: look the source up, then check it. */
  function LiveEvidence(h: Hash, store: map<SourceKey, SourceRecord>, a: Article): Result<VersionEvidence, KbError> {
    if a.SourceKeyOf() !in store then Err(SourceMissing)
    else if !Backed(h, a, store[a.SourceKeyOf()]) then Err(EvidenceMismatch)
    else Ok(EvidenceForRecord(h, a.tenant, a.objectId, a.versionId, store[a.SourceKeyOf()]))
  }

  function LiveEvidences(h: Hash, store: map<SourceKey, SourceRecord>, articles: seq<Article>)
    : Result<seq<VersionEvidence>, KbError>
  {
    if articles == [] then Ok([])
    else
      var first :- LiveEvidence(h, store, articles[0]);
      var rest :- LiveEvidences(h, store, articles[1..]);
      Ok([first] + rest)
  }

  function TenantArticles(articles: seq<Article>, tenant: string): seq<Article> {
    if articles == [] then []
    else (if articles[0].tenant == tenant then [articles[0]] else []) + TenantArticles(articles[1..], tenant)
  }

  /** The sort key `(title.lower(), object_id)`. */
  predicate TitleLeq(a: Article, b: Article) {
    if Lower(a.title) == Lower(b.title) then StringLeq(a.objectId, b.objectId)
    else StringLeq(Lower(a.title), Lower(b.title))
  }

  /** What every step works on: the tenant's articles, sorted by title. */
  function Records(articles: seq<Article>, tenant: string): seq<Article> {
    Sort(TenantArticles(articles, tenant), (a, b) => TitleLeq(a, b))
  }

  /** Looks an id up in a dictionary filled from the list: of several articles the last one counts. */
  function FindArticle(articles: seq<Article>, id: string): Option<Article> {
    if articles == [] then None
    else
      var n := |articles| - 1;
      if articles[n].objectId == id then Some(articles[n]) else FindArticle(articles[..n], id)
  }

  /** The same for evidence. */
  function FindEvidence(evidences: seq<VersionEvidence>, id: string): Option<VersionEvidence> {
    if evidences == [] then None
    else
      var n := |evidences| - 1;
      if evidences[n].payload.articleId == id then Some(evidences[n]) else FindEvidence(evidences[..n], id)
  }

  function Hashes(evidences: seq<VersionEvidence>): seq<Digest> {
    seq(|evidences|, i requires 0 <= i < |evidences| => evidences[i].hash)
  }

  function SortDigests(s: seq<Digest>): seq<Digest> {
    Sort(s, (a, b) => a <= b)
  }

  function SortByArticle(evidences: seq<VersionEvidence>): seq<VersionEvidence> {
    Sort(evidences, (a: VersionEvidence, b: VersionEvidence) => StringLeq(a.payload.articleId, b.payload.articleId))
  }

  function ChecksumRows(evidences: seq<VersionEvidence>): seq<ChecksumRow> {
    seq(|evidences|, i requires 0 <= i < |evidences| =>
      var e := evidences[i];
      ChecksumRow(e.payload.articleId, e.payload.articleVersionId, e.payload.manifestHash, e.payload.contentHash,
                  e.hash))
  }

  function ArticleIds(articles: seq<Article>): set<string> {
    set a | a in articles :: a.objectId
  }

  function CoveredIds(evidences: seq<VersionEvidence>): set<string> {
    set e | e in evidences :: e.payload.articleId
  }

  /** `build_knowledge_base_restore_evidence`, with the evidence record's own validators. */
  function BuildRestore(h: Hash, tenant: string, articles: seq<Article>, evidences: seq<VersionEvidence>)
    : Result<RestoreEvidence, KbError>
  {
    var hashes := SortDigests(Hashes(evidences));
    if exists a | a in articles :: a.tenant != tenant then Err(RestoreInvalid)
    else if exists e | e in evidences :: e.payload.tenant != tenant then Err(RestoreInvalid)
    else if ArticleIds(articles) != CoveredIds(evidences) then Err(RestoreInvalid)
    else if !Distinct(hashes) || |articles| != |evidences| then Err(RestoreInvalid)
    else
      var p := RestorePayload(
        tenant, |articles|, |articles|, |evidences|, hashes, h(DrillOf(tenant)),
        h(RowCountsOf(tenant, |articles|, |evidences|)),
        h(ChecksumOf(ChecksumRows(SortByArticle(evidences)))),
        true, true, true, "audit:knowledge-base-restore-evidence");
      Ok(RestoreEvidence(p, h(RestoreOf(p))))
  }

  /** What every protocol step derives first: the tenant's records, their evidence and the restore
      evidence over them. */
  datatype View = View(articles: seq<Article>, evidences: seq<VersionEvidence>, restore: RestoreEvidence)

  function ViewOf(h: Hash, articles: seq<Article>, store: map<SourceKey, SourceRecord>, tenant: string)
    : Result<View, KbError>
  {
    var mine := Records(articles, tenant);
    var evidences :- LiveEvidences(h, store, mine);
    var restore :- BuildRestore(h, tenant, mine, evidences);
    Ok(View(mine, evidences, restore))
  }

  /** A Python dictionary from article id to evidence hash: insertion order, one entry an id. */
  type HashIndex = seq<(string, Digest)>

  function Upsert(index: HashIndex, id: string, hash: Digest): HashIndex {
    if index == [] then [(id, hash)]
    else if index[0].0 == id then [(id, hash)] + index[1..]
    else [index[0]] + Upsert(index[1..], id, hash)
  }

  predicate HasId(index: HashIndex, id: string) {
    exists entry | entry in index :: entry.0 == id
  }

  function IndexOf(evidences: seq<VersionEvidence>): HashIndex {
    if evidences == [] then []
    else
      var last := evidences[|evidences| - 1];
      Upsert(IndexOf(evidences[..|evidences| - 1]), last.payload.articleId, last.hash)
  }

  function Values(index: HashIndex): seq<Digest> {
    seq(|index|, i requires 0 <= i < |index| => index[i].1)
  }

  /** `build_projected_source_version_evidence_hashes`: the sorted hashes the write should leave. */
  function Projection(approved: ApprovalPayload, evidences: seq<VersionEvidence>): Result<seq<Digest>, KbError> {
    var index := IndexOf(SortByArticle(evidences));
    if approved.operation.Edit? then
      if !HasId(index, approved.articleId) then Err(ArticleNotFound)
      else
        var projected := SortDigests(Values(Upsert(index, approved.articleId, approved.proposedEvidenceHash)));
        if Distinct(projected) then Ok(projected) else Err(ProjectionInvalid)
    else if HasId(index, approved.articleId) then Err(ArticleExists)
    else
      var projected := SortDigests(Values(index) + [approved.proposedEvidenceHash]);
      if Distinct(projected) then Ok(projected) else Err(ProjectionInvalid)
  }

  function PreviewPayloadFor(
    tenant: string, approved: ApprovalEvidence, previewCommandHash: Digest, view: View, projected: seq<Digest>)
    : PreviewPayload
  {
    var before := |view.articles|;
    PreviewPayload(
      tenant, approved.Summary(), previewCommandHash, SortDigests(Hashes(view.evidences)), projected,
      before, before + if approved.payload.operation.Create? then 1 else 0)
  }

  function PlanPayloadFor(tenant: string, approved: ApprovalEvidence, terms: ExecutionTerms, commandHash: Digest)
    : PlanPayload
  {
    PlanPayload(
      tenant, terms.executionReference, terms.confirmationReference, approved.Summary(), terms.guard.ref,
      terms.previewCommandHash, terms.previewHash, commandHash)
  }

  /** `build_write_approval_evidence` as the dry run calls it. */
  function DryRunEvidence(
    h: Hash, tenant: string, user: string, c: WriteCommand, snapshotHash: Digest, auditEventId: string)
    : ApprovalEvidence
  {
    var p := ApprovalPayload(
      tenant, c.approvalReference, c.operation, DryRun, c.articleId, c.articleKey, c.title, c.expectedVersionId,
      c.proposedVersionId, c.proposedVersionLabel, c.proposedSourceId, c.proposedSourceVersionId,
      c.proposedSourceType, c.proposedManifestHash, c.proposedContentHash, c.proposedAclVersion,
      h(CommandOf(c)), ProposedEvidence(h, tenant, c).hash, snapshotHash, None, user,
      false, false, false, auditEventId, c.sourceSystem);
    ApprovalEvidence(p, h(ApprovalOf(p)))
  }

  /** `build_write_approval_transition_evidence`. */
  function TransitionEvidence(
    h: Hash, dryRun: ApprovalEvidence, approvalReference: string, user: string, auditEventId: string)
    : ApprovalEvidence
  {
    var p := dryRun.payload.(
      approvalReference := approvalReference, state := ApprovedForWrite, transitionSource := Some(dryRun.hash),
      requestedBy := user, persistenceAllowed := true, ragAllowed := false, authorityVerified := false,
      auditEventId := auditEventId);
    ApprovalEvidence(p, h(ApprovalOf(p)))
  }
}
