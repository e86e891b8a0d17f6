/** The stores and the service as objects that change in place, proved against the state machine
    of `KnowledgeProtocol`. A call that fails part-way leaves what it had written by then; that
    this never happens to tenants with unique ids is among `Execute`'s postconditions. */
module KnowledgeService {
  import opened Wrappers
  import opened KeyReference
  import opened KnowledgeTypes
  import opened KnowledgeEvidence
  import opened KnowledgeProtocol
  import opened KnowledgeFacts
  import opened KnowledgeInvariant
  import opened KnowledgeRuns

  class ArticleRepository {
    var articles: seq<Article>

    constructor (seed: seq<Article>)
      ensures articles == seed
    {
      articles := seed;
    }

    /** Appends the created article, or replaces the first one the write addresses. */
    method ApplyWrite(tenant: string, p: ApprovalPayload, record: SourceRecord, auditRef: string)
      returns (r: Result<Article, KbError>)
      modifies this
      ensures match KnowledgeProtocol.ApplyWrite(old(articles), tenant, p, record, auditRef)
              case Ok(after) => articles == after && r.Ok? && r.value in articles
              case Err(e) => articles == old(articles) && r == Err(e)
    {
      if p.operation.Create? {
        if exists a | a in articles :: IsTarget(a, tenant, p.articleId) {
          return Err(ArticleExists);
        }
        if exists a | a in articles :: a.tenant == tenant && a.key == p.articleKey {
          return Err(ArticleKeyExists);
        }
        var created :- CreatedArticle(tenant, p, record, auditRef);
        articles := articles + [created];
        return Ok(created);
      }
      for i := 0 to |articles|
        invariant articles == old(articles)
        invariant forall j :: 0 <= j < i ==> !IsTarget(articles[j], tenant, p.articleId)
      {
        if IsTarget(articles[i], tenant, p.articleId) {
          FirstTarget(articles, tenant, p.articleId, i);
          var edited :- EditedArticle(tenant, p, record, articles[i], auditRef);
          articles := articles[i := edited];
          assert articles[i] == edited;
          return Ok(edited);
        }
      }
      return Err(ArticleNotFound);
    }
  }

  lemma FirstTarget(articles: seq<Article>, tenant: string, id: string, i: nat)
    requires i < |articles| && IsTarget(articles[i], tenant, id)
    requires forall j :: 0 <= j < i ==> !IsTarget(articles[j], tenant, id)
    ensures TargetIndex(articles, tenant, id) == i
  {
  }

  class ApprovalLedger {
    var evidences: map<LedgerKey, ApprovalEvidence>

    constructor ()
      ensures evidences == map[]
    {
      evidences := map[];
    }

    method Append(e: ApprovalEvidence) returns (r: Result<ApprovalEvidence, KbError>)
      modifies this
      ensures var key := LedgerKey(e.payload.tenant, e.hash);
              if key in old(evidences) then r == Err(LedgerDuplicate) && evidences == old(evidences)
              else r == Ok(e) && evidences == old(evidences)[key := e]
    {
      var key := LedgerKey(e.payload.tenant, e.hash);
      if key in evidences {
        return Err(LedgerDuplicate);
      }
      evidences := evidences[key := e];
      return Ok(e);
    }
  }

  class SourceRepository {
    var records: Store

    constructor (seed: Store)
      ensures records == seed
    {
      records := seed;
    }

    method Add(h: Hash, record: SourceRecord) returns (r: Result<(), KbError>)
      modifies this
      ensures match AddSource(h, old(records), record)
              case Ok(after) => r.Ok? && records == after
              case Err(e) => r == Err(e) && records == old(records)
    {
      var failure := WriteGuard(h, record);
      if failure.Some? {
        return Err(SourceRejected(failure.value));
      }
      if record.Key() in records {
        return Err(SourceExists);
      }
      records := records[record.Key() := record];
      return Ok(());
    }
  }

  class ReceiptStore {
    var receipts: map<LedgerKey, Receipt>
    var versions: set<SourceKey>

    constructor ()
      ensures receipts == map[] && versions == {}
    {
      receipts, versions := map[], {};
    }

    method Append(h: Hash, r: Receipt) returns (result: Result<(), KbError>)
      modifies this
      ensures var key := LedgerKey(r.payload.fields.tenant, r.hash);
              if r.hash != h(ReceiptOf(r.payload))
              then result == Err(ReceiptHashInvalid) && receipts == old(receipts) && versions == old(versions)
              else if key in old(receipts) || r.payload.Key() in old(versions)
              then result == Err(ReceiptExists) && receipts == old(receipts) && versions == old(versions)
              else result.Ok? && receipts == old(receipts)[key := r] && versions == old(versions) + {r.payload.Key()}
    {
      if r.hash != h(ReceiptOf(r.payload)) {
        return Err(ReceiptHashInvalid);
      }
      var key := LedgerKey(r.payload.fields.tenant, r.hash);
      if key in receipts || r.payload.Key() in versions {
        return Err(ReceiptExists);
      }
      receipts := receipts[key := r];
      versions := versions + {r.payload.Key()};
      return Ok(());
    }
  }

  // ---- the guard ----

  /** The list of reasons the guard's evaluations append to. `noted` remembers every condition
      that was put to it. */
  class ReasonList {
    var reasons: seq<BlockingReason>
    ghost var noted: seq<Check>

    ghost predicate Valid()
      reads this
    {
      reasons == Blocking(noted)
    }

    constructor ()
      ensures Valid() && noted == []
    {
      reasons, noted := [], [];
    }

    method Note(blocks: bool, reason: BlockingReason)
      requires Valid()
      modifies this
      ensures Valid() && noted == old(noted) + [Check(blocks, reason)]
    {
      BlockingJoins(noted, [Check(blocks, reason)]);
      if blocks {
        reasons := reasons + [reason];
      }
      noted := noted + [Check(blocks, reason)];
    }
  }

  method EvaluateApproval(h: Hash, e: ApprovalEvidence, list: ReasonList)
    requires list.Valid()
    modifies list
    ensures list.Valid() && list.noted == old(list.noted) + ApprovalChecks(h, e)
  {
    list.Note(h(ApprovalOf(e.payload)) != e.hash, ApprovalHashInvalid);
    list.Note(!e.payload.state.ApprovedForWrite?, NotApproved);
    list.Note(!e.payload.persistenceAllowed, PersistenceNotAllowed);
  }

  method EvaluateTarget(tenant: string, p: ApprovalPayload, current: Option<Article>, list: ReasonList)
    requires list.Valid()
    modifies list
    ensures list.Valid() && list.noted == old(list.noted) + TargetChecks(tenant, p, current)
  {
    if p.operation.Create? {
      list.Note(current.Some?, TargetExists);
      return;
    }
    if current.None? {
      list.Note(true, TargetMissing);
      return;
    }
    var a := current.value;
    list.Note(a.tenant != tenant, TargetTenant);
    list.Note(a.objectId != p.articleId, TargetObject);
    list.Note(p.expectedVersionId != Some(a.versionId), TargetVersion);
    list.Note(a.legalHold.ActiveHold?, TargetHold);
    list.Note(a.retention != STANDARD_RETENTION, TargetRetention);
  }

  method EvaluateIdentity(h: Hash, tenant: string, p: ApprovalPayload, record: SourceRecord, list: ReasonList)
    requires list.Valid()
    modifies list
    ensures list.Valid() && list.noted == old(list.noted) + IdentityChecks(h, tenant, p, record)
  {
    var f := record.fields;
    var failure := WriteGuard(h, record);
    list.Note(failure.Some?, MetadataGuardFailed(if failure.Some? then failure.value else FieldMissing));
    list.Note(f.tenant != tenant, SourceTenant);
    list.Note(f.objectId != p.proposedSourceId, SourceObject);
    list.Note(f.versionId != p.proposedSourceVersionId, SourceVersion);
    list.Note(f.objectType != p.proposedSourceType, SourceTypeMismatch);
  }

  method EvaluateContent(p: ApprovalPayload, record: SourceRecord, list: ReasonList)
    requires list.Valid()
    modifies list
    ensures list.Valid() && list.noted == old(list.noted) + ContentChecks(p, record)
  {
    var f := record.fields;
    list.Note(record.manifestHash != p.proposedManifestHash, SourceManifest);
    list.Note(f.contentHash != p.proposedContentHash, SourceContent);
    list.Note(f.aclVersion != p.proposedAclVersion, SourceAcl);
    list.Note(p.operation.Create? && f.sourceSystem != p.sourceSystem, SourceSystemMismatch);
  }

  method EvaluatePolicy(h: Hash, tenant: string, p: ApprovalPayload, record: SourceRecord, list: ReasonList)
    requires list.Valid()
    modifies list
    ensures list.Valid() && list.noted == old(list.noted) + PolicyChecks(h, tenant, p, record)
  {
    var f := record.fields;
    list.Note(f.classification != Internal, SourceClassification);
    list.Note(f.retention != STANDARD_RETENTION, SourceRetention);
    list.Note(f.legalHold.ActiveHold?, SourceHold);
    list.Note(EvidenceForRecord(h, tenant, p.articleId, p.proposedVersionId, record).hash != p.proposedEvidenceHash,
              SourceEvidence);
  }

  method EvaluateRestore(h: Hash, tenant: string, p: ApprovalPayload, restore: RestoreEvidence, list: ReasonList)
    requires list.Valid()
    modifies list
    ensures list.Valid() && list.noted == old(list.noted) + RestoreChecks(h, tenant, p, restore)
  {
    list.Note(restore.payload.tenant != tenant, RestoreTenant);
    list.Note(restore.hash != p.snapshotHash, RestoreMoved);
    list.Note(h(RestoreOf(restore.payload)) != restore.hash, RestoreHashInvalid);
    list.Note(!restore.payload.legalHoldRestore, RestoreHoldUnverified);
    list.Note(!restore.payload.disabledStateRestore, RestoreDisabledUnverified);
    list.Note(!restore.payload.tenantIsolation, RestoreIsolationUnverified);
  }

  /** The decision carries every reason that holds, in order, and allows exactly without any. */
  method EvaluateWrite(
    h: Hash, tenant: string, e: ApprovalEvidence, current: Option<Article>, record: SourceRecord,
    restore: RestoreEvidence)
    returns (d: GuardDecision)
    ensures d == Decide(h, tenant, e, current, record, restore)
  {
    var list := new ReasonList();
    EvaluateApproval(h, e, list);
    EvaluateTarget(tenant, e.payload, current, list);
    EvaluateIdentity(h, tenant, e.payload, record, list);
    EvaluateContent(e.payload, record, list);
    EvaluatePolicy(h, tenant, e.payload, record, list);
    EvaluateRestore(h, tenant, e.payload, restore, list);
    ReasonsListed(h, tenant, e, current, record, restore);
    var allowed := list.reasons == [];
    var p := GuardPayload(
      tenant, allowed, list.reasons, e.hash, e.payload.state, e.payload.operation, e.payload.articleId,
      e.payload.expectedVersionId, e.payload.proposedSourceId, e.payload.proposedSourceVersionId,
      e.payload.proposedEvidenceHash, e.payload.snapshotHash, allowed && e.payload.persistenceAllowed,
      allowed && e.payload.ragAllowed, allowed);
    d := GuardDecision(p, h(GuardOf(p)));
  }

  lemma ReasonsListed(
    h: Hash, tenant: string, e: ApprovalEvidence, current: Option<Article>, record: SourceRecord,
    restore: RestoreEvidence)
    ensures Blocking([] + ApprovalChecks(h, e) + TargetChecks(tenant, e.payload, current)
                     + IdentityChecks(h, tenant, e.payload, record) + ContentChecks(e.payload, record)
                     + PolicyChecks(h, tenant, e.payload, record) + RestoreChecks(h, tenant, e.payload, restore))
            == Reasons(h, tenant, e, current, record, restore)
  {
    var start := [] + ApprovalChecks(h, e) + TargetChecks(tenant, e.payload, current);
    var identity := IdentityChecks(h, tenant, e.payload, record);
    var content := ContentChecks(e.payload, record);
    var policy := PolicyChecks(h, tenant, e.payload, record);
    assert start + identity + content + policy == start + (identity + content + policy);
    Joins4(ApprovalChecks(h, e), TargetChecks(tenant, e.payload, current), SourceChecks(h, tenant, e.payload, record),
           RestoreChecks(h, tenant, e.payload, restore));
  }

  lemma Joins4(a: seq<Check>, b: seq<Check>, c: seq<Check>, d: seq<Check>)
    ensures Blocking([] + a + b + c + d) == Blocking(a) + Blocking(b) + Blocking(c) + Blocking(d)
  {
    assert [] + a == a;
    BlockingJoins(a, b);
    BlockingJoins(a + b, c);
    BlockingJoins(a + b + c, d);
  }

  // ---- the service ----

  class ArticleService {
    const h: Hash
    const repository: ArticleRepository
    const ledger: ApprovalLedger
    const sources: SourceRepository
    const receipts: ReceiptStore

    ghost function State(): State
      reads repository, ledger, sources, receipts
    {
      KnowledgeProtocol.State(repository.articles, sources.records, receipts.receipts, receipts.versions,
                              ledger.evidences)
    }

    ghost predicate Valid()
      reads repository, ledger, sources, receipts
    {
      CollisionFree(h) && Sound(h, State())
    }

    /** What besides holds for a tenant whose articles have unique ids. */
    ghost predicate ValidFor(tenant: string)
      reads repository, ledger, sources, receipts
    {
      CollisionFree(h) && Inv(h, State(), tenant)
    }

    constructor (h: Hash, articles: seq<Article>, records: Store)
      requires CollisionFree(h) && ArticlesValid(articles)
      ensures Valid() && Initial(State()) && repository.articles == articles && sources.records == records
      ensures forall tenant :: UniqueFor(articles, tenant) ==> ValidFor(tenant)
      ensures fresh(repository) && fresh(ledger) && fresh(sources) && fresh(receipts)
    {
      this.h := h;
      repository := new ArticleRepository(articles);
      ledger := new ApprovalLedger();
      sources := new SourceRepository(records);
      receipts := new ReceiptStore();
    }

    lemma StaysValid(s: Step)
      ensures Valid() ==> CollisionFree(h) && Sound(h, Next(h, State(), s))
      ensures forall tenant :: ValidFor(tenant) ==> CollisionFree(h) && Inv(h, Next(h, State(), s), tenant)
    {
      if Valid() {
        NextKeepsSound(h, State(), s);
      }
      forall tenant | ValidFor(tenant) ensures Inv(h, Next(h, State(), s), tenant) {
        NextKeepsInv(h, State(), s, tenant);
      }
    }

    method DryRunWrite(tenant: string, user: string, c: WriteCommand, auditEventId: string)
      returns (r: Result<ApprovalEvidence, KbError>)
      modifies ledger
      ensures old(Valid()) ==> Valid()
      ensures forall t :: old(ValidFor(t)) ==> ValidFor(t)
      ensures r == KnowledgeProtocol.DryRunWrite(h, old(State()), tenant, user, c, auditEventId)
      ensures State() == Next(h, old(State()), DryRunStep(tenant, user, c, auditEventId))
    {
      StaysValid(DryRunStep(tenant, user, c, auditEventId));
      if !c.Valid() {
        return Err(InvalidCommand);
      }
      var mine := Records(repository.articles, tenant);
      var _ :- CheckTarget(mine, c.operation, c.articleId, c.expectedVersionId);
      if c.operation.Create? && exists a | a in mine :: a.key == c.articleKey {
        return Err(ArticleKeyExists);
      }
      var view :- ViewOf(h, repository.articles, sources.records, tenant);
      r := ledger.Append(DryRunEvidence(h, tenant, user, c, view.restore.hash, auditEventId));
    }

    method ApproveWrite(tenant: string, user: string, c: ApproveCommand, auditEventId: string)
      returns (r: Result<ApprovalEvidence, KbError>)
      modifies ledger
      ensures old(Valid()) ==> Valid()
      ensures forall t :: old(ValidFor(t)) ==> ValidFor(t)
      ensures r == KnowledgeProtocol.ApproveWrite(h, old(State()), tenant, user, c, auditEventId)
      ensures State() == Next(h, old(State()), ApproveStep(tenant, user, c, auditEventId))
    {
      StaysValid(ApproveStep(tenant, user, c, auditEventId));
      if LedgerKey(tenant, c.dryRunHash) !in ledger.evidences {
        return Err(LedgerMissing);
      }
      var dryRun := ledger.evidences[LedgerKey(tenant, c.dryRunHash)];
      var p := dryRun.payload;
      if !p.state.DryRun? {
        return Err(NotDryRun);
      }
      if h(ApprovalOf(p)) != dryRun.hash {
        return Err(HashInvalid);
      }
      if p.persistenceAllowed || p.ragAllowed || p.authorityVerified {
        return Err(FlagsInvalid);
      }
      if exists k | k in ledger.evidences :: k.tenant == tenant && Approves(ledger.evidences[k], tenant, dryRun.hash) {
        return Err(AlreadyApproved);
      }
      var _ :- CheckTarget(Records(repository.articles, tenant), p.operation, p.articleId, p.expectedVersionId);
      var view :- ViewOf(h, repository.articles, sources.records, tenant);
      if view.restore.hash != p.snapshotHash {
        return Err(SnapshotMoved);
      }
      if dryRun.hash == ZERO_HASH {
        return Err(HashInvalid);
      }
      r := ledger.Append(TransitionEvidence(h, dryRun, c.approvalReference, user, auditEventId));
    }

    /** The checks preview, skeleton and execution begin with. */
    method FindGrounds(tenant: string, approvalHash: Digest) returns (r: Result<Grounds, KbError>)
      ensures r == Ground(h, State(), tenant, approvalHash)
    {
      if LedgerKey(tenant, approvalHash) !in ledger.evidences {
        return Err(LedgerMissing);
      }
      var approved := ledger.evidences[LedgerKey(tenant, approvalHash)];
      var p := approved.payload;
      if !p.state.ApprovedForWrite? {
        return Err(NotApprovedForWrite);
      }
      if h(ApprovalOf(p)) != approved.hash {
        return Err(HashInvalid);
      }
      if !p.persistenceAllowed || p.transitionSource.None? {
        return Err(FlagsInvalid);
      }
      var existing :- CheckTarget(Records(repository.articles, tenant), p.operation, p.articleId, p.expectedVersionId);
      var view :- ViewOf(h, repository.articles, sources.records, tenant);
      if view.restore.hash != p.snapshotHash {
        return Err(SnapshotMoved);
      }
      return Ok(Grounds(approved, existing, view));
    }

    method PreviewRefresh(tenant: string, c: PreviewCommand) returns (r: Result<Preview, KbError>)
      ensures r == KnowledgeProtocol.PreviewRefresh(h, State(), tenant, c)
    {
      var grounds := FindGrounds(tenant, c.approvalHash);
      var g :- grounds;
      var projected :- Projection(g.approved.payload, g.view.evidences);
      var commandHash := h(PreviewCommandOf(c));
      var p := PreviewPayloadFor(tenant, g.approved, commandHash, g.view, projected);
      if !PreviewOk(p) {
        return Err(PreviewInvalid);
      }
      return Ok(Preview(commandHash, p.currentHashes, projected, h(PreviewOf(p))));
    }

    method EvaluateGuard(tenant: string, approvalHash: Digest, record: SourceRecord)
      returns (r: Result<GuardDecision, KbError>)
      ensures r == KnowledgeProtocol.EvaluateGuard(h, State(), tenant, approvalHash, record)
    {
      var view :- ViewOf(h, repository.articles, sources.records, tenant);
      if LedgerKey(tenant, approvalHash) !in ledger.evidences {
        return Err(LedgerMissing);
      }
      var e := ledger.evidences[LedgerKey(tenant, approvalHash)];
      var d := EvaluateWrite(h, tenant, e, FindArticle(view.articles, e.payload.articleId), record, view.restore);
      return Ok(d);
    }

    method PrepareSkeleton(tenant: string, c: SkeletonCommand) returns (r: Result<Skeleton, KbError>)
      ensures r == KnowledgeProtocol.PrepareSkeleton(h, State(), tenant, c)
    {
      var grounds := FindGrounds(tenant, c.terms.approvalHash);
      var g :- grounds;
      if !GuardMatches(h, g.approved, c.terms.guard) {
        return Err(GuardMismatch);
      }
      var projected :- Projection(g.approved.payload, g.view.evidences);
      if LivePreviewHash(h, tenant, g, c.terms, projected) != c.terms.previewHash {
        return Err(PreviewMismatch);
      }
      var commandHash := h(SkeletonCommandOf(c));
      return Ok(Skeleton(commandHash, h(PlanOf(PlanPayloadFor(tenant, g.approved, c.terms, commandHash)))));
    }

    method RequireClearance(tenant: string, c: ExecutionCommand) returns (r: Result<Cleared, KbError>)
      ensures r == Clear(h, State(), tenant, c)
    {
      var grounds := FindGrounds(tenant, c.terms.approvalHash);
      var g :- grounds;
      if !GuardMatches(h, g.approved, c.terms.guard) {
        return Err(GuardMismatch);
      }
      var again := EvaluateWrite(h, tenant, g.approved, g.existing, c.record, g.view.restore);
      if again.ref != c.terms.guard.ref {
        return Err(GuardMoved);
      }
      var projected :- Projection(g.approved.payload, g.view.evidences);
      if LivePreviewHash(h, tenant, g, c.terms, projected) != c.terms.previewHash {
        return Err(PreviewMismatch);
      }
      if h(PlanOf(PlanPayloadFor(tenant, g.approved, c.terms, c.skeletonCommandHash))) != c.planHash {
        return Err(PlanMismatch);
      }
      if SourceKey(tenant, g.approved.payload.proposedSourceId,
                   g.approved.payload.proposedSourceVersionId) in sources.records {
        return Err(SourceExists);
      }
      return Ok(Cleared(g, projected));
    }

    lemma AtomicWhenValid(tenant: string, c: ExecutionCommand, capturedAt: string)
      ensures var (after, r) := KnowledgeProtocol.Execute(h, State(), tenant, c, capturedAt);
              ValidFor(tenant) ==> (r.Err? ==> after == State()) && (r.Ok? <==> Clear(h, State(), tenant, c).Ok?)
    {
      if ValidFor(tenant) {
        ExecutionIsAtomic(h, State(), tenant, c, capturedAt);
      }
    }

    /** Three stores are written in turn and the result compared with the projection; an error on
        the way would leave the earlier writes. If the tenant's ids are unique there is none. */
    method Execute(tenant: string, c: ExecutionCommand, capturedAt: string) returns (r: Result<View, KbError>)
      modifies repository, sources, receipts
      ensures (State(), r) == KnowledgeProtocol.Execute(h, old(State()), tenant, c, capturedAt)
      ensures old(Valid()) ==> Valid()
      ensures forall t :: old(ValidFor(t)) ==> ValidFor(t)
      ensures old(ValidFor(tenant)) ==>
                && (r.Err? ==> State() == old(State()))
                && (r.Ok? <==> Clear(h, old(State()), tenant, c).Ok?)
    {
      StaysValid(ExecuteStep(tenant, c, capturedAt));
      AtomicWhenValid(tenant, c, capturedAt);
      var clearance := RequireClearance(tenant, c);
      var cleared :- clearance;
      r := WriteAll(tenant, c, capturedAt, cleared);
    }

    method WriteAll(tenant: string, c: ExecutionCommand, capturedAt: string, cleared: Cleared)
      returns (r: Result<View, KbError>)
      modifies repository, sources, receipts
      ensures (State(), r) == KnowledgeProtocol.WriteAll(h, old(State()), tenant, c, capturedAt, cleared)
    {
      var appended := receipts.Append(h, ReceiptFor(h, c, capturedAt));
      var _ :- appended;
      var added := sources.Add(h, c.record);
      var _ :- added;
      var p := cleared.grounds.approved.payload;
      var applied := repository.ApplyWrite(tenant, p, c.record, AuditRef(c));
      var _ :- applied;
      var view :- ViewOf(h, repository.articles, sources.records, tenant);
      var refreshed := FindEvidence(view.evidences, p.articleId);
      if refreshed.None? || refreshed.value.hash != p.proposedEvidenceHash {
        return Err(PostWriteEvidence);
      }
      if view.restore.payload.evidenceHashes != cleared.projected {
        return Err(PostWriteProjection);
      }
      return Ok(view);
    }
  }
}
