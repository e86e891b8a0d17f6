/** The invariant of the write protocol, and why an execution that passes its checks commits. */
module KnowledgeInvariant {
  import opened Wrappers
  import opened Sorting
  import opened KeyReference
  import opened KnowledgeTypes
  import opened KnowledgeEvidence
  import opened KnowledgeProtocol
  import opened KnowledgeFacts

  predicate ArticlesValid(articles: seq<Article>) {
    forall a :: a in articles ==> a.Valid()
  }

  predicate ReceiptsOk(h: Hash, st: State) {
    && st.receiptVersions <= st.store.Keys
    && forall k :: k in st.receipts ==>
         && st.receipts[k].payload.Key() in st.receiptVersions
         && st.receipts[k].hash == h(ReceiptOf(st.receipts[k].payload))
         && k == LedgerKey(st.receipts[k].payload.fields.tenant, st.receipts[k].hash)
  }

  /** The proposal an entry carries is untouched by its approval. */
  predicate SameProposal(p: ApprovalPayload, q: ApprovalPayload) {
    q == p.(approvalReference := q.approvalReference, state := q.state, transitionSource := q.transitionSource,
            requestedBy := q.requestedBy, persistenceAllowed := q.persistenceAllowed, ragAllowed := q.ragAllowed,
            authorityVerified := q.authorityVerified, auditEventId := q.auditEventId)
  }

  predicate EntryOk(ledger: map<LedgerKey, ApprovalEvidence>, e: ApprovalEvidence) {
    var p := e.payload;
    && p.proposedSourceId == p.proposedVersionId
    && (p.operation.Edit? <==> p.expectedVersionId.Some?)
    && !p.ragAllowed && !p.authorityVerified
    && match p.state
       case DryRun => p.transitionSource.None? && !p.persistenceAllowed
       case ApprovedForWrite =>
         && p.persistenceAllowed && p.transitionSource.Some?
         && var source := LedgerKey(p.tenant, p.transitionSource.value);
            source in ledger && ledger[source].payload.state.DryRun? && SameProposal(ledger[source].payload, p)
       case _ => false
  }

  predicate SameSource(p: ApprovalPayload, q: ApprovalPayload) {
    p.tenant == q.tenant && p.transitionSource.Some? && p.transitionSource == q.transitionSource
  }

  /** Every entry is filed under its own tenant and hash; every approved one names a dry run of
      its tenant with the same proposal; no dry run has two approvals. */
  predicate LineageOk(h: Hash, ledger: map<LedgerKey, ApprovalEvidence>) {
    && (forall k :: k in ledger ==>
          && k == LedgerKey(ledger[k].payload.tenant, ledger[k].hash)
          && ledger[k].hash == h(ApprovalOf(ledger[k].payload))
          && EntryOk(ledger, ledger[k]))
    && (forall k, l :: k in ledger && l in ledger && SameSource(ledger[k].payload, ledger[l].payload) ==> k == l)
  }

  /** The hash is that of evidence over a source version the store holds. */
  ghost predicate VersionStored(h: Hash, store: Store, hash: Digest) {
    exists q: VersionPayload :: h(VersionOf(q)) == hash && q.SourceKeyOf() in store
  }

  /** The hash is that of restore evidence which only rests on source versions the store holds. */
  ghost predicate SnapshotStored(h: Hash, store: Store, hash: Digest) {
    exists p: RestorePayload ::
      h(RestoreOf(p)) == hash && forall x :: x in p.evidenceHashes ==> VersionStored(h, store, x)
  }

  predicate KeyFree(articles: seq<Article>, tenant: string, key: string) {
    forall a :: a in articles && a.tenant == tenant ==> a.key != key
  }

  /** The proposed evidence hash is that of evidence for the addressed article. */
  ghost predicate ProposalHashed(h: Hash, p: ApprovalPayload) {
    exists q: VersionPayload :: q.articleId == p.articleId && h(VersionOf(q)) == p.proposedEvidenceHash
  }

  ghost predicate ProposalsHashed(h: Hash, ledger: map<LedgerKey, ApprovalEvidence>) {
    forall k :: k in ledger ==> ProposalHashed(h, ledger[k].payload)
  }

  /** A ledger entry's snapshot was taken of stored sources, the tenant's view is still
      well-formed, and while the snapshot stands a creation's key is still free. */
  ghost predicate SnapshotOk(h: Hash, st: State, p: ApprovalPayload) {
    && SnapshotStored(h, st.store, p.snapshotHash)
    && Look(h, st, p.tenant).Ok?
    && (p.operation.Create? && Look(h, st, p.tenant).value.restore.hash == p.snapshotHash ==>
          KeyFree(st.articles, p.tenant, p.articleKey))
  }

  /** What every reachable state satisfies, whatever articles it started from. */
  ghost predicate Sound(h: Hash, st: State) {
    && ArticlesValid(st.articles) && ReceiptsOk(h, st)
    && LineageOk(h, st.ledger) && ProposalsHashed(h, st.ledger)
  }

  ghost predicate SnapshotsOk(h: Hash, st: State, tenant: string) {
    forall k :: k in st.ledger && k.tenant == tenant ==> SnapshotOk(h, st, st.ledger[k].payload)
  }

  /** What every reachable state satisfies for a tenant whose articles started with unique ids,
      whatever other tenants hold. */
  ghost predicate Inv(h: Hash, st: State, tenant: string) {
    Sound(h, st) && UniqueFor(st.articles, tenant) && SnapshotsOk(h, st, tenant)
  }

  /** The state a service starts from: seeded articles, sources and no protocol history. */
  predicate Initial(st: State) {
    ArticlesValid(st.articles) && st.receipts == map[] && st.receiptVersions == {} && st.ledger == map[]
  }

  lemma EvidenceStored(h: Hash, store: Store, articles: seq<Article>)
    requires LiveEvidences(h, store, articles).Ok?
    ensures forall e :: e in LiveEvidences(h, store, articles).value ==> VersionStored(h, store, e.hash)
  {
    EvidencesPointwise(h, store, articles);
    var evidences := LiveEvidences(h, store, articles).value;
    forall e | e in evidences ensures VersionStored(h, store, e.hash) {
      var i :| 0 <= i < |evidences| && evidences[i] == e;
      assert LiveEvidence(h, store, articles[i]) == Ok(e);
      assert h(VersionOf(e.payload)) == e.hash && e.payload.SourceKeyOf() in store;
    }
  }

  lemma HashesListed(evidences: seq<VersionEvidence>)
    ensures forall x :: x in SortDigests(Hashes(evidences)) <==> exists e :: e in evidences && e.hash == x
  {
    Rearranged(Hashes(evidences), SortDigests(Hashes(evidences)));
    forall e | e in evidences ensures e.hash in Hashes(evidences) {
      var i :| 0 <= i < |evidences| && evidences[i] == e;
      assert Hashes(evidences)[i] == e.hash;
    }
    forall x | x in Hashes(evidences) ensures exists e :: e in evidences && e.hash == x {
      var i :| 0 <= i < |evidences| && Hashes(evidences)[i] == x;
      assert evidences[i] in evidences;
    }
  }

  /** A tenant's view rests on stored sources. */
  lemma ViewStored(h: Hash, articles: seq<Article>, store: Store, tenant: string)
    requires ViewOf(h, articles, store, tenant).Ok?
    ensures SnapshotStored(h, store, ViewOf(h, articles, store, tenant).value.restore.hash)
  {
    var view := ViewOf(h, articles, store, tenant).value;
    EvidenceStored(h, store, view.articles);
    HashesListed(view.evidences);
    var p := view.restore.payload;
    assert h(RestoreOf(p)) == view.restore.hash && p.evidenceHashes == SortDigests(Hashes(view.evidences));
  }

  lemma StoredSnapshotsStay(h: Hash, store: Store, store': Store, hash: Digest)
    requires Extends(store, store') && SnapshotStored(h, store, hash)
    ensures SnapshotStored(h, store', hash)
  {
    var p: RestorePayload :|
      h(RestoreOf(p)) == hash && forall x :: x in p.evidenceHashes ==> VersionStored(h, store, x);
    forall x | x in p.evidenceHashes ensures VersionStored(h, store', x) {
      var q: VersionPayload :| h(VersionOf(q)) == x && q.SourceKeyOf() in store;
      assert q.SourceKeyOf() in store';
    }
  }

  /** Evidence over a source version the store lacked gives a snapshot no stored one equals. */
  lemma FreshSnapshot(h: Hash, store: Store, evidence: VersionEvidence, restore: RestoreEvidence)
    requires CollisionFree(h)
    requires evidence.hash == h(VersionOf(evidence.payload)) && evidence.payload.SourceKeyOf() !in store
    requires restore.hash == h(RestoreOf(restore.payload)) && evidence.hash in restore.payload.evidenceHashes
    ensures !SnapshotStored(h, store, restore.hash)
  {
    if SnapshotStored(h, store, restore.hash) {
      var p: RestorePayload :|
        h(RestoreOf(p)) == restore.hash && forall x :: x in p.evidenceHashes ==> VersionStored(h, store, x);
      assert SameKind(RestoreOf(p), RestoreOf(restore.payload));
      assert VersionStored(h, store, evidence.hash);
      var q: VersionPayload :| h(VersionOf(q)) == evidence.hash && q.SourceKeyOf() in store;
      assert SameKind(VersionOf(q), VersionOf(evidence.payload));
      assert false;
    }
  }

  // ---- what the guard's empty list of reasons means ----

  lemma {:induction false} NothingBlocks(checks: seq<Check>)
    ensures Blocking(checks) == [] <==> forall i :: 0 <= i < |checks| ==> !checks[i].blocks
  {
    if checks != [] {
      NothingBlocks(checks[1..]);
      assert forall i :: 1 <= i < |checks| ==> checks[i] == checks[1..][i - 1];
    }
  }

  /** The proposed record is storable, is the approved one, and carries nothing that bars it. */
  predicate Admissible(h: Hash, tenant: string, p: ApprovalPayload, record: SourceRecord) {
    && WriteGuard(h, record).None? && RecordMatches(tenant, p, record)
    && (p.operation.Create? ==> record.fields.sourceSystem == p.sourceSystem)
    && record.fields.classification == Internal && record.fields.retention == STANDARD_RETENTION
    && record.fields.legalHold.NoHold?
    && EvidenceForRecord(h, tenant, p.articleId, p.proposedVersionId, record).hash == p.proposedEvidenceHash
  }

  lemma {:induction false} BlockingJoins(a: seq<Check>, b: seq<Check>)
    ensures Blocking(a + b) == Blocking(a) + Blocking(b)
  {
    if a == [] {
      assert a + b == b;
    } else {
      assert (a + b)[1..] == a[1..] + b;
      BlockingJoins(a[1..], b);
      ReasonsAssociate(Noted(a[0]), Blocking(a[1..]), Blocking(b));
    }
  }

  lemma ReasonsAssociate(a: seq<BlockingReason>, b: seq<BlockingReason>, c: seq<BlockingReason>)
    ensures a + (b + c) == a + b + c
  {
  }

  lemma NothingBlocksEither(a: seq<Check>, b: seq<Check>)
    ensures Blocking(a + b) == [] <==> Blocking(a) == [] && Blocking(b) == []
  {
    BlockingJoins(a, b);
    assert |Blocking(a + b)| == |Blocking(a)| + |Blocking(b)|;
  }

  lemma NoIdentityReasons(h: Hash, tenant: string, p: ApprovalPayload, record: SourceRecord)
    ensures Blocking(IdentityChecks(h, tenant, p, record)) == []
            <==> WriteGuard(h, record).None? && record.fields.tenant == tenant
                 && record.fields.objectId == p.proposedSourceId
                 && record.fields.versionId == p.proposedSourceVersionId
                 && record.fields.objectType == p.proposedSourceType
  {
    var checks := IdentityChecks(h, tenant, p, record);
    NothingBlocks(checks);
    assert !checks[0].blocks && !checks[1].blocks && !checks[2].blocks && !checks[3].blocks && !checks[4].blocks
           <==> forall i :: 0 <= i < |checks| ==> !checks[i].blocks;
  }

  lemma NoContentReasons(p: ApprovalPayload, record: SourceRecord)
    ensures Blocking(ContentChecks(p, record)) == []
            <==> record.manifestHash == p.proposedManifestHash && record.fields.contentHash == p.proposedContentHash
                 && record.fields.aclVersion == p.proposedAclVersion
                 && (p.operation.Create? ==> record.fields.sourceSystem == p.sourceSystem)
  {
    var checks := ContentChecks(p, record);
    NothingBlocks(checks);
    assert !checks[0].blocks && !checks[1].blocks && !checks[2].blocks && !checks[3].blocks
           <==> forall i :: 0 <= i < |checks| ==> !checks[i].blocks;
  }

  lemma NoPolicyReasons(h: Hash, tenant: string, p: ApprovalPayload, record: SourceRecord)
    ensures Blocking(PolicyChecks(h, tenant, p, record)) == []
            <==> record.fields.classification == Internal && record.fields.retention == STANDARD_RETENTION
                 && record.fields.legalHold.NoHold?
                 && EvidenceForRecord(h, tenant, p.articleId, p.proposedVersionId, record).hash
                     == p.proposedEvidenceHash
  {
    var checks := PolicyChecks(h, tenant, p, record);
    NothingBlocks(checks);
    assert !checks[0].blocks && !checks[1].blocks && !checks[2].blocks && !checks[3].blocks
           <==> forall i :: 0 <= i < |checks| ==> !checks[i].blocks;
  }

  lemma NoSourceReasons(h: Hash, tenant: string, p: ApprovalPayload, record: SourceRecord)
    ensures Blocking(SourceChecks(h, tenant, p, record)) == [] <==> Admissible(h, tenant, p, record)
  {
    var identity, content := IdentityChecks(h, tenant, p, record), ContentChecks(p, record);
    NothingBlocksEither(identity + content, PolicyChecks(h, tenant, p, record));
    NothingBlocksEither(identity, content);
    NoIdentityReasons(h, tenant, p, record);
    NoContentReasons(p, record);
    NoPolicyReasons(h, tenant, p, record);
  }

  /** The addressed article is the expected version and neither held nor specially retained; a
      creation addresses none. */
  predicate TargetFits(tenant: string, p: ApprovalPayload, current: Option<Article>) {
    match p.operation
    case Create => current.None?
    case Edit =>
      && current.Some? && IsTarget(current.value, tenant, p.articleId)
      && p.expectedVersionId == Some(current.value.versionId)
      && current.value.legalHold.NoHold? && current.value.retention == STANDARD_RETENTION
  }

  lemma NoTargetReasons(tenant: string, p: ApprovalPayload, current: Option<Article>)
    ensures Blocking(TargetChecks(tenant, p, current)) == [] <==> TargetFits(tenant, p, current)
  {
    var checks := TargetChecks(tenant, p, current);
    NothingBlocks(checks);
    assert TargetFits(tenant, p, current) || checks[0].blocks || p.operation.Edit?;
    if p.operation.Edit? && current.Some? {
      assert TargetFits(tenant, p, current) || checks[0].blocks || checks[1].blocks || checks[2].blocks
             || checks[3].blocks || checks[4].blocks;
    }
  }

  /** Passing the execution checks means the guard, evaluated again on the very record to be
      written, found nothing to block: the command's decision hashes to the same payload. */
  lemma ClearedMeansAllowed(h: Hash, store: Store, tenant: string, c: ExecutionCommand, g: Grounds)
    requires CollisionFree(h) && ClearOn(h, store, tenant, c, g).Ok?
    ensures Reasons(h, tenant, g.approved, g.existing, c.record, g.view.restore) == []
  {
    var again := Decide(h, tenant, g.approved, g.existing, c.record, g.view.restore);
    assert SameKind(GuardOf(again.payload), GuardOf(c.terms.guard.payload));
  }

  // ---- the writes ----

  lemma EvidenceReplaced(
    h: Hash, store: Store, store': Store, mine: seq<Article>, j: nat, a: Article, e: VersionEvidence)
    requires Extends(store, store') && LiveEvidences(h, store, mine).Ok? && j < |mine|
    requires LiveEvidence(h, store', a) == Ok(e)
    ensures |LiveEvidences(h, store, mine).value| == |mine|
    ensures LiveEvidences(h, store', mine[j := a]) == Ok(LiveEvidences(h, store, mine).value[j := e])
  {
    EvidencesPointwise(h, store, mine);
    EvidencesPointwise(h, store', mine[j := a]);
    var evidences := LiveEvidences(h, store, mine).value;
    assert forall i :: 0 <= i < |mine| && i != j ==> LiveEvidence(h, store', mine[i]) == Ok(evidences[i]);
    assert LiveEvidences(h, store', mine[j := a]).value == evidences[j := e];
  }

  lemma EvidenceAdded(h: Hash, store: Store, store': Store, mine: seq<Article>, a: Article, e: VersionEvidence)
    requires Extends(store, store') && LiveEvidences(h, store, mine).Ok?
    requires LiveEvidence(h, store', a) == Ok(e)
    ensures LiveEvidences(h, store', mine + [a]) == Ok(LiveEvidences(h, store, mine).value + [e])
  {
    EvidencesPointwise(h, store, mine);
    EvidencesPointwise(h, store', mine + [a]);
    var evidences := LiveEvidences(h, store, mine).value;
    assert forall i :: 0 <= i < |mine| ==> LiveEvidence(h, store', mine[i]) == Ok(evidences[i]);
    assert LiveEvidences(h, store', mine + [a]).value == evidences + [e];
  }

  lemma UniqueSame(articles: seq<Article>, a: Article, b: Article)
    requires UniqueIds(articles) && a in articles && b in articles && a.tenant == b.tenant && a.objectId == b.objectId
    ensures a == b
  {
    var i, j :| 0 <= i < |articles| && 0 <= j < |articles| && articles[i] == a && articles[j] == b;
  }

  lemma UniqueVersions(articles: seq<Article>, tenant: string)
    requires UniqueFor(articles, tenant)
    ensures DistinctVersions(Records(articles, tenant))
  {
    RecordsUnique(articles, tenant);
    RecordsMembers(articles, tenant);
    var records := Records(articles, tenant);
    assert forall i :: 0 <= i < |records| ==> records[i] in records;
  }

  /** A view of own, live articles over different versions exists. */
  lemma ViewBuilds(h: Hash, articles: seq<Article>, store: Store, tenant: string)
    requires CollisionFree(h) && DistinctVersions(Records(articles, tenant))
    requires LiveEvidences(h, store, Records(articles, tenant)).Ok?
    ensures ViewOf(h, articles, store, tenant).Ok?
  {
    var records := Records(articles, tenant);
    RecordsMembers(articles, tenant);
    LiveEvidenceOf(h, store, tenant, records);
    RestoreBuilds(h, tenant, records, LiveEvidences(h, store, records).value);
  }

  /** A view's evidence is that of its articles, and covers no id twice exactly if the tenant's ids
      are unique. */
  lemma ViewDistinct(h: Hash, articles: seq<Article>, store: Store, tenant: string)
    requires ViewOf(h, articles, store, tenant).Ok?
    ensures var v := ViewOf(h, articles, store, tenant).value;
            && EvidenceOf(h, tenant, v.articles, v.evidences)
            && (DistinctArticles(v.evidences) <==> UniqueFor(articles, tenant))
  {
    var v := ViewOf(h, articles, store, tenant).value;
    RecordsMembers(articles, tenant);
    RecordsUnique(articles, tenant);
    LiveEvidenceOf(h, store, tenant, v.articles);
  }

  /** The state an execution commits. */
  function Committed(
    h: Hash, st: State, tenant: string, c: ExecutionCommand, capturedAt: string, articles: seq<Article>): State
  {
    var r := ReceiptFor(h, c, capturedAt);
    State(articles, st.store[c.record.Key() := c.record],
          st.receipts[LedgerKey(c.record.fields.tenant, r.hash) := r],
          st.receiptVersions + {c.record.Key()}, st.ledger)
  }

  /** What a committed write did: exactly one article of the tenant is new or replaced, it rests
      on the freshly stored record, and its evidence is the approved one. */
  predicate WroteArticle(
    st: State, tenant: string, p: ApprovalPayload, record: SourceRecord, articles: seq<Article>, a: Article)
  {
    && a.tenant == tenant && a.objectId == p.articleId && a.Valid()
    && a.SourceKeyOf() == record.Key() && record.Key() !in st.store
    && match p.operation
       case Create =>
         a.key == p.articleKey && a.title == p.title && KeyFree(st.articles, tenant, p.articleKey)
         && articles == st.articles + [a]
       case Edit =>
         exists i | 0 <= i < |st.articles| ::
           && st.articles[i].tenant == tenant && st.articles[i].objectId == p.articleId
           && p.expectedVersionId == Some(st.articles[i].versionId)
           && a.key == st.articles[i].key && a.title == st.articles[i].title
           && articles == st.articles[i := a]
  }

  lemma AppendKeepsUnique(articles: seq<Article>, a: Article)
    requires forall b :: b in articles ==> !IsTarget(b, a.tenant, a.objectId)
    ensures UniqueFor(articles + [a], a.tenant) <==> UniqueFor(articles, a.tenant)
  {
    var mine := TenantArticles(articles, a.tenant);
    TenantArticlesAppend(articles, a, a.tenant);
    TenantArticlesMembers(articles, a.tenant);
    assert forall i :: 0 <= i < |mine| ==> mine[i] in mine && (mine + [a])[i] == mine[i];
  }

  lemma ReplaceKeepsUnique(articles: seq<Article>, i: nat, a: Article)
    requires i < |articles| && IsTarget(articles[i], a.tenant, a.objectId)
    ensures UniqueFor(articles[i := a], a.tenant) <==> UniqueFor(articles, a.tenant)
  {
    var mine := TenantArticles(articles, a.tenant);
    var j := TenantArticlesReplace(articles, i, a, a.tenant);
    var mine' := mine[j := a];
    assert forall k :: 0 <= k < |mine| ==> mine'[k].objectId == mine[k].objectId && mine'[k].tenant == mine[k].tenant;
  }

  lemma TargetAbsent(articles: seq<Article>, tenant: string, id: string)
    requires FindArticle(Records(articles, tenant), id).None?
    ensures forall b :: b in articles ==> !IsTarget(b, tenant, id)
  {
    FindArticleFinds(Records(articles, tenant), id);
    RecordsMembers(articles, tenant);
  }

  lemma CreateWrites(h: Hash, st: State, tenant: string, c: ExecutionCommand, p: ApprovalPayload)
    returns (a: Article)
    requires p.operation.Create? && p.proposedSourceId == p.proposedVersionId
    requires FindArticle(Records(st.articles, tenant), p.articleId).None?
    requires KeyFree(st.articles, tenant, p.articleKey)
    requires Admissible(h, tenant, p, c.record) && c.record.Key() !in st.store
    ensures var articles := st.articles + [a];
            && ApplyWrite(st.articles, tenant, p, c.record, AuditRef(c)) == Ok(articles)
            && WroteArticle(st, tenant, p, c.record, articles, a)
            && (UniqueFor(articles, tenant) <==> UniqueFor(st.articles, tenant))
            && Backed(h, a, c.record)
            && a.versionId == p.proposedVersionId
  {
    TargetAbsent(st.articles, tenant, p.articleId);
    a := CreatedArticle(tenant, p, c.record, AuditRef(c)).value;
    AppendKeepsUnique(st.articles, a);
  }

  lemma EditWrites(h: Hash, st: State, tenant: string, c: ExecutionCommand, p: ApprovalPayload, existing: Article)
    returns (i: nat, a: Article)
    requires ArticlesValid(st.articles) && UniqueFor(st.articles, tenant)
    requires p.operation.Edit? && p.proposedSourceId == p.proposedVersionId
    requires FindArticle(Records(st.articles, tenant), p.articleId) == Some(existing)
    requires TargetFits(tenant, p, Some(existing))
    requires Admissible(h, tenant, p, c.record) && c.record.Key() !in st.store
    ensures i < |st.articles|
    ensures var articles := st.articles[i := a];
            && ApplyWrite(st.articles, tenant, p, c.record, AuditRef(c)) == Ok(articles)
            && WroteArticle(st, tenant, p, c.record, articles, a) && UniqueFor(articles, tenant)
            && Backed(h, a, c.record)
            && a.versionId == p.proposedVersionId && st.articles[i] == existing
  {
    var records := Records(st.articles, tenant);
    FindArticleFinds(records, p.articleId);
    RecordsMembers(st.articles, tenant);
    RecordsUnique(st.articles, tenant);
    i := TargetIndex(st.articles, tenant, p.articleId);
    var k :| 0 <= k < |st.articles| && st.articles[k] == existing;
    assert IsTarget(st.articles[k], tenant, p.articleId);
    UniqueSame(records, st.articles[i], existing);
    a := EditedArticle(tenant, p, c.record, st.articles[i], AuditRef(c)).value;
    ReplaceKeepsUnique(st.articles, i, a);
  }

  /** Storing a new source extends the store. */
  lemma StoreExtends(store: Store, key: SourceKey, record: SourceRecord)
    requires key !in store
    ensures Extends(store, store[key := record])
  {
  }

  /** Live evidence over unique own articles, in whichever order, makes a view with those hashes,
      sorted. */
  lemma ViewFromEvidence(
    h: Hash, articles: seq<Article>, store: Store, tenant: string, evidences: seq<VersionEvidence>)
    requires CollisionFree(h) && UniqueFor(articles, tenant)
    requires LiveEvidences(h, store, TenantArticles(articles, tenant)) == Ok(evidences)
    ensures var view := ViewOf(h, articles, store, tenant);
            && view.Ok? && multiset(view.value.evidences) == multiset(evidences)
            && view.value.restore.payload.evidenceHashes == SortDigests(Hashes(evidences))
  {
    EvidencesRearranged(h, store, TenantArticles(articles, tenant), Records(articles, tenant));
    UniqueVersions(articles, tenant);
    ViewBuilds(h, articles, store, tenant);
    var sorted := ViewOf(h, articles, store, tenant).value.evidences;
    HashesRearranged(sorted, evidences);
    SortedDigestsForgetOrder(Hashes(sorted), Hashes(evidences));
  }

  /** What a write did to the tenant's evidence list. */
  predicate EvidenceWritten(
    p: ApprovalPayload, before: seq<VersionEvidence>, evidence: VersionEvidence, after: seq<VersionEvidence>)
  {
    match p.operation
    case Create => after == before + [evidence] && forall e :: e in before ==> e.payload.articleId != p.articleId
    case Edit =>
      exists j | 0 <= j < |before| :: before[j].payload.articleId == p.articleId && after == before[j := evidence]
  }

  lemma CreationMeetsProjection(p: ApprovalPayload, before: seq<VersionEvidence>, evidence: VersionEvidence)
    requires p.operation.Create? && DistinctArticles(before) && evidence.hash == p.proposedEvidenceHash
    requires forall e :: e in before ==> e.payload.articleId != p.articleId
    ensures var hashes := SortDigests(Hashes(before + [evidence]));
            Projection(p, before) == if Distinct(hashes) then Ok(hashes) else Err(ProjectionInvalid)
  {
    CreateProjection(p, before);
    assert Hashes(before + [evidence]) == Hashes(before) + [evidence.hash];
  }

  lemma EditMeetsProjection(p: ApprovalPayload, before: seq<VersionEvidence>, j: nat, evidence: VersionEvidence)
    requires p.operation.Edit? && DistinctArticles(before) && evidence.hash == p.proposedEvidenceHash
    requires j < |before| && before[j].payload.articleId == p.articleId
    ensures var hashes := SortDigests(Hashes(before[j := evidence]));
            Projection(p, before) == if Distinct(hashes) then Ok(hashes) else Err(ProjectionInvalid)
  {
    EditProjection(p, before, j);
    assert Hashes(before[j := evidence]) == Hashes(before)[j := evidence.hash];
  }

  /** The projection made from the old evidence is the sorted hash list of the new. */
  lemma ProjectionMet(
    p: ApprovalPayload, before: seq<VersionEvidence>, evidence: VersionEvidence, after: seq<VersionEvidence>,
    projected: seq<Digest>)
    requires DistinctArticles(before) && Projection(p, before) == Ok(projected)
    requires evidence.hash == p.proposedEvidenceHash && EvidenceWritten(p, before, evidence, after)
    ensures evidence in after && projected == SortDigests(Hashes(after))
  {
    if p.operation.Create? {
      CreationMeetsProjection(p, before, evidence);
      assert after[|before|] == evidence;
    } else {
      var j :| 0 <= j < |before| && before[j].payload.articleId == p.articleId && after == before[j := evidence];
      EditMeetsProjection(p, before, j, evidence);
      assert after[j] == evidence;
    }
  }

  /** The write as seen by the two repositories: article `a`, resting on the fresh record, was
      appended or took the place of the addressed one. */
  predicate Placed(
    st: State, tenant: string, p: ApprovalPayload, record: SourceRecord, articles: seq<Article>, i: nat, a: Article)
  {
    && a.tenant == tenant && a.objectId == p.articleId && a.versionId == p.proposedVersionId
    && a.SourceKeyOf() == record.Key() && record.Key() !in st.store
    && match p.operation
       case Create => articles == st.articles + [a]
       case Edit =>
         && i < |st.articles| && IsTarget(st.articles[i], tenant, p.articleId)
         && articles == st.articles[i := a]
  }

  /** The evidence before and after a write, gathered in the order the articles are stored in. */
  lemma EvidenceAfterWrite(
    h: Hash, st: State, tenant: string, p: ApprovalPayload, record: SourceRecord, before: seq<VersionEvidence>,
    articles: seq<Article>, i: nat, a: Article) returns (after: seq<VersionEvidence>)
    requires LiveEvidences(h, st.store, TenantArticles(st.articles, tenant)) == Ok(before)
    requires Placed(st, tenant, p, record, articles, i, a) && Backed(h, a, record)
    requires p.operation.Create? ==> forall e :: e in before ==> e.payload.articleId != p.articleId
    ensures LiveEvidences(h, st.store[record.Key() := record], TenantArticles(articles, tenant)) == Ok(after)
    ensures EvidenceWritten(p, before, EvidenceForRecord(h, tenant, p.articleId, p.proposedVersionId, record), after)
  {
    var store := st.store[record.Key() := record];
    var evidence := EvidenceForRecord(h, tenant, p.articleId, p.proposedVersionId, record);
    var mine := TenantArticles(st.articles, tenant);
    StoreExtends(st.store, record.Key(), record);
    assert LiveEvidence(h, store, a) == Ok(evidence);
    EvidencesPointwise(h, st.store, mine);
    if p.operation.Create? {
      TenantArticlesAppend(st.articles, a, tenant);
      EvidenceAdded(h, st.store, store, mine, a, evidence);
      after := before + [evidence];
    } else {
      var j := TenantArticlesReplace(st.articles, i, a, tenant);
      EvidenceReplaced(h, st.store, store, mine, j, a, evidence);
      after := before[j := evidence];
      assert LiveEvidence(h, st.store, mine[j]) == Ok(before[j]);
    }
  }

  /** After an approved creation or edit the recomputed view exists, holds the approved evidence
      for the written article, and its hashes are the projection made beforehand. */
  lemma WriteMeetsProjection(
    h: Hash, st: State, tenant: string, p: ApprovalPayload, record: SourceRecord, view: View, articles: seq<Article>,
    i: nat, a: Article, projected: seq<Digest>)
    requires CollisionFree(h) && UniqueFor(st.articles, tenant) && UniqueFor(articles, tenant)
    requires Look(h, st, tenant) == Ok(view) && Projection(p, view.evidences) == Ok(projected)
    requires Placed(st, tenant, p, record, articles, i, a) && Backed(h, a, record)
    requires p.operation.Create? ==> FindArticle(Records(st.articles, tenant), p.articleId).None?
    requires EvidenceForRecord(h, tenant, p.articleId, p.proposedVersionId, record).hash == p.proposedEvidenceHash
    ensures var evidence := EvidenceForRecord(h, tenant, p.articleId, p.proposedVersionId, record);
            var after := ViewOf(h, articles, st.store[record.Key() := record], tenant);
            && after.Ok? && evidence in after.value.evidences
            && evidence.hash in after.value.restore.payload.evidenceHashes
            && after.value.restore.payload.evidenceHashes == projected
  {
    var evidence := EvidenceForRecord(h, tenant, p.articleId, p.proposedVersionId, record);
    var store := st.store[record.Key() := record];
    var before := EvidenceBeforeWrite(h, st, tenant, p, view);
    var evidences := EvidenceAfterWrite(h, st, tenant, p, record, before, articles, i, a);
    ViewFromEvidence(h, articles, store, tenant, evidences);
    ProjectionMet(p, before, evidence, evidences, projected);
    Rearranged(ViewOf(h, articles, store, tenant).value.evidences, evidences);
    HashesListed(evidences);
  }

  /** The view's evidence in the order the articles are stored in: no id twice, and the same projection. */
  lemma EvidenceBeforeWrite(h: Hash, st: State, tenant: string, p: ApprovalPayload, view: View)
    returns (before: seq<VersionEvidence>)
    requires UniqueFor(st.articles, tenant) && Look(h, st, tenant) == Ok(view)
    requires p.operation.Create? ==> FindArticle(Records(st.articles, tenant), p.articleId).None?
    ensures LiveEvidences(h, st.store, TenantArticles(st.articles, tenant)) == Ok(before)
    ensures DistinctArticles(before) && Projection(p, before) == Projection(p, view.evidences)
    ensures p.operation.Create? ==> forall e :: e in before ==> e.payload.articleId != p.articleId
  {
    EvidencesRearranged(h, st.store, view.articles, TenantArticles(st.articles, tenant));
    before := LiveEvidences(h, st.store, TenantArticles(st.articles, tenant)).value;
    ViewDistinct(h, st.articles, st.store, tenant);
    SameProjection(p, view.evidences, before);
    if p.operation.Create? {
      NewIdUncovered(h, st.articles, st.store, tenant, p.articleId, before);
    }
  }

  lemma SameProjection(p: ApprovalPayload, s: seq<VersionEvidence>, t: seq<VersionEvidence>)
    requires multiset(s) == multiset(t) && DistinctArticles(s)
    ensures DistinctArticles(t) && Projection(p, t) == Projection(p, s)
  {
    DistinctArticlesRearranged(s, t);
    ProjectionForgetsOrder(p, s, t);
  }

  lemma NewIdUncovered(
    h: Hash, articles: seq<Article>, store: Store, tenant: string, id: string, evidences: seq<VersionEvidence>)
    requires FindArticle(Records(articles, tenant), id).None?
    requires LiveEvidences(h, store, TenantArticles(articles, tenant)) == Ok(evidences)
    ensures forall e :: e in evidences ==> e.payload.articleId != id
  {
    var mine := TenantArticles(articles, tenant);
    TargetAbsent(articles, tenant, id);
    TenantArticlesMembers(articles, tenant);
    EvidencesPointwise(h, store, mine);
    forall e | e in evidences ensures e.payload.articleId != id {
      var k :| 0 <= k < |evidences| && evidences[k] == e;
      assert mine[k] in mine && LiveEvidence(h, store, mine[k]) == Ok(evidences[k]);
    }
  }

  /** A receipt for an absent source version is never refused: neither its hash nor its key is at fault. */
  lemma ReceiptAccepted(h: Hash, st: State, c: ExecutionCommand, capturedAt: string)
    requires CollisionFree(h) && ReceiptsOk(h, st) && c.record.Key() !in st.store
    ensures AppendReceipt(h, st, ReceiptFor(h, c, capturedAt)).Ok?
  {
    var r := ReceiptFor(h, c, capturedAt);
    var key := LedgerKey(r.payload.fields.tenant, r.hash);
    assert r.payload.Key() == c.record.Key();
    if key in st.receipts {
      assert SameKind(ReceiptOf(st.receipts[key].payload), ReceiptOf(r.payload));
    }
  }

  /** What clearing an execution settles about the approval, the target and the record. */
  ghost predicate Writable(h: Hash, st: State, tenant: string, c: ExecutionCommand, cleared: Cleared) {
    var g := cleared.grounds;
    var p := g.approved.payload;
    && Look(h, st, tenant) == Ok(g.view) && Projection(p, g.view.evidences) == Ok(cleared.projected)
    && g.existing == FindArticle(Records(st.articles, tenant), p.articleId)
    && TargetFits(tenant, p, g.existing) && Admissible(h, tenant, p, c.record)
    && p.tenant == tenant && p.proposedSourceId == p.proposedVersionId
    && c.record.Key() !in st.store
    && (p.operation.Create? ==> KeyFree(st.articles, tenant, p.articleKey))
  }

  lemma ClearedAdmits(h: Hash, st: State, tenant: string, c: ExecutionCommand, cleared: Cleared)
    requires CollisionFree(h) && Clear(h, st, tenant, c) == Ok(cleared)
    ensures var g := cleared.grounds;
            var p := g.approved.payload;
            TargetFits(tenant, p, g.existing) && Admissible(h, tenant, p, c.record)
  {
    var g := cleared.grounds;
    ClearedGround(h, st, tenant, c, cleared);
    ClearedMeansAllowed(h, st.store, tenant, c, g);
    NoSourceReasons(h, tenant, g.approved.payload, c.record);
    NoTargetReasons(tenant, g.approved.payload, g.existing);
  }

  /** What every grounded call has established. */
  lemma Grounded(h: Hash, st: State, tenant: string, approvalHash: Digest, g: Grounds)
    requires Sound(h, st) && Ground(h, st, tenant, approvalHash) == Ok(g)
    ensures var p := g.approved.payload;
            && LedgerKey(tenant, approvalHash) in st.ledger && st.ledger[LedgerKey(tenant, approvalHash)] == g.approved
            && p.state.ApprovedForWrite? && p.tenant == tenant && g.approved.hash == approvalHash
            && p.proposedSourceId == p.proposedVersionId && !p.ragAllowed && p.persistenceAllowed
            && Look(h, st, tenant) == Ok(g.view) && g.view.restore.hash == p.snapshotHash
            && g.existing == FindArticle(Records(st.articles, tenant), p.articleId)
            && (p.operation.Edit? <==> g.existing.Some?)
  {
    assert EntryOk(st.ledger, g.approved);
  }

  lemma ClearedGround(h: Hash, st: State, tenant: string, c: ExecutionCommand, cleared: Cleared)
    requires Clear(h, st, tenant, c) == Ok(cleared)
    ensures var p := cleared.grounds.approved.payload;
            && Ground(h, st, tenant, c.terms.approvalHash) == Ok(cleared.grounds)
            && Projection(p, cleared.grounds.view.evidences) == Ok(cleared.projected)
            && SourceKey(tenant, p.proposedSourceId, p.proposedSourceVersionId) !in st.store
  {
    ClearedOn(h, st.store, tenant, c, Ground(h, st, tenant, c.terms.approvalHash).value, cleared);
  }

  lemma ClearedOn(h: Hash, store: Store, tenant: string, c: ExecutionCommand, g: Grounds, cleared: Cleared)
    requires ClearOn(h, store, tenant, c, g) == Ok(cleared)
    ensures cleared.grounds == g && Projection(g.approved.payload, g.view.evidences) == Ok(cleared.projected)
    ensures SourceKey(tenant, g.approved.payload.proposedSourceId, g.approved.payload.proposedSourceVersionId) !in store
  {
  }

  lemma ClearedFacts(h: Hash, st: State, tenant: string, c: ExecutionCommand, cleared: Cleared)
    requires CollisionFree(h) && Inv(h, st, tenant) && Clear(h, st, tenant, c) == Ok(cleared)
    ensures Writable(h, st, tenant, c, cleared)
  {
    ClearedAdmits(h, st, tenant, c, cleared);
    ClearedGround(h, st, tenant, c, cleared);
    Grounded(h, st, tenant, c.terms.approvalHash, cleared.grounds);
    assert SnapshotOk(h, st, cleared.grounds.approved.payload);
  }

  lemma WriteAccepted(h: Hash, st: State, tenant: string, c: ExecutionCommand, cleared: Cleared)
    returns (articles: seq<Article>, i: nat, a: Article)
    requires ArticlesValid(st.articles) && UniqueFor(st.articles, tenant) && Writable(h, st, tenant, c, cleared)
    ensures var p := cleared.grounds.approved.payload;
            && ApplyWrite(st.articles, tenant, p, c.record, AuditRef(c)) == Ok(articles)
            && WroteArticle(st, tenant, p, c.record, articles, a) && UniqueFor(articles, tenant)
            && Placed(st, tenant, p, c.record, articles, i, a) && Backed(h, a, c.record)
  {
    var g := cleared.grounds;
    var p := g.approved.payload;
    i := 0;
    if p.operation.Create? {
      a := CreateWrites(h, st, tenant, c, p);
      articles := st.articles + [a];
    } else {
      i, a := EditWrites(h, st, tenant, c, p, g.existing.value);
      articles := st.articles[i := a];
    }
  }

  /** The evidence over the record a command writes. */
  function WrittenEvidence(h: Hash, tenant: string, c: ExecutionCommand, p: ApprovalPayload): VersionEvidence {
    EvidenceForRecord(h, tenant, p.articleId, p.proposedVersionId, c.record)
  }

  /** The commit theorem: in every state satisfying the tenant's invariant, an execution that passes
      its checks completes all its writes, and its post-write comparisons hold. */
  lemma ClearedCommits(
    h: Hash, st: State, tenant: string, c: ExecutionCommand, capturedAt: string, cleared: Cleared)
    returns (articles: seq<Article>, a: Article)
    requires CollisionFree(h) && Inv(h, st, tenant) && Clear(h, st, tenant, c) == Ok(cleared)
    ensures var p := cleared.grounds.approved.payload;
            var (after, result) := Execute(h, st, tenant, c, capturedAt);
            && result.Ok? && after == Committed(h, st, tenant, c, capturedAt, articles)
            && WroteArticle(st, tenant, p, c.record, articles, a) && UniqueFor(articles, tenant)
            && Look(h, after, tenant) == result
            && WrittenEvidence(h, tenant, c, p).hash in result.value.restore.payload.evidenceHashes
            && WrittenEvidence(h, tenant, c, p).payload.SourceKeyOf() == c.record.Key()
  {
    ClearedFacts(h, st, tenant, c, cleared);
    var i;
    articles, i, a := WriteAccepted(h, st, tenant, c, cleared);
    ReceiptAccepted(h, st, c, capturedAt);
    CommittedView(h, st, tenant, c, capturedAt, cleared, articles, i, a);
    ExecutionUnfolds(h, st, tenant, c, capturedAt, cleared, articles);
  }

  /** The writes one after the other, given that none is refused. */
  lemma ExecutionUnfolds(
    h: Hash, st: State, tenant: string, c: ExecutionCommand, capturedAt: string, cleared: Cleared,
    articles: seq<Article>)
    requires Clear(h, st, tenant, c) == Ok(cleared)
    requires AppendReceipt(h, st, ReceiptFor(h, c, capturedAt)).Ok?
    requires WriteGuard(h, c.record).None? && c.record.Key() !in st.store
    requires ApplyWrite(st.articles, tenant, cleared.grounds.approved.payload, c.record, AuditRef(c)) == Ok(articles)
    ensures var after := Committed(h, st, tenant, c, capturedAt, articles);
            Execute(h, st, tenant, c, capturedAt) == (after, PostChecks(h, after, tenant, cleared))
  {
  }

  lemma CommittedView(
    h: Hash, st: State, tenant: string, c: ExecutionCommand, capturedAt: string, cleared: Cleared,
    articles: seq<Article>, i: nat, a: Article)
    requires CollisionFree(h) && UniqueFor(st.articles, tenant) && UniqueFor(articles, tenant)
    requires Writable(h, st, tenant, c, cleared)
    requires Placed(st, tenant, cleared.grounds.approved.payload, c.record, articles, i, a) && Backed(h, a, c.record)
    ensures WriteGuard(h, c.record).None?
    ensures var p := cleared.grounds.approved.payload;
            var after := Committed(h, st, tenant, c, capturedAt, articles);
            && Look(h, after, tenant).Ok? && PostChecks(h, after, tenant, cleared) == Look(h, after, tenant)
            && WrittenEvidence(h, tenant, c, p).hash
               in Look(h, after, tenant).value.restore.payload.evidenceHashes
            && WrittenEvidence(h, tenant, c, p).payload.SourceKeyOf() == c.record.Key()
  {
    var p := cleared.grounds.approved.payload;
    WriteMeetsProjection(h, st, tenant, p, c.record, cleared.grounds.view, articles, i, a, cleared.projected);
    var after := Committed(h, st, tenant, c, capturedAt, articles);
    ViewDistinct(h, after.articles, after.store, tenant);
    PostChecksPass(h, after, tenant, cleared, WrittenEvidence(h, tenant, c, p));
  }

  lemma PostChecksPass(h: Hash, st: State, tenant: string, cleared: Cleared, evidence: VersionEvidence)
    requires var p := cleared.grounds.approved.payload;
             var after := Look(h, st, tenant);
             && after.Ok? && DistinctArticles(after.value.evidences) && evidence in after.value.evidences
             && evidence.payload.articleId == p.articleId && evidence.hash == p.proposedEvidenceHash
             && after.value.restore.payload.evidenceHashes == cleared.projected
    ensures PostChecks(h, st, tenant, cleared) == Look(h, st, tenant)
  {
    FindEvidenceFinds(Look(h, st, tenant).value.evidences, evidence.payload.articleId);
  }
}
