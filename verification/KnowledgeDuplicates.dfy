/** What the write protocol does with articles that share an id: a tenant that has some can take a
    creation through every step but the preview, and its execution then fails with all writes done. */
module KnowledgeDuplicates {
  import opened Wrappers
  import opened Text
  import opened Sorting
  import opened KeyReference
  import opened KnowledgeTypes
  import opened KnowledgeEvidence
  import opened KnowledgeProtocol
  import opened KnowledgeFacts
  import opened KnowledgeInvariant
  import opened KnowledgeUniqueness
  import opened KnowledgeRuns
  import opened KnowledgeCompletion

  /** The execution command a caller assembles who computes the preview hash from the tenant's
      evidence instead of asking for a preview. */
  function OwnCommand(h: Hash, plan: Plan, g: Grounds): ExecutionCommand
    requires Projection(g.approved.payload, g.view.evidences).Ok?
  {
    var projected := Projection(g.approved.payload, g.view.evidences).value;
    var previewCommandHash := h(PreviewCommandOf(plan.Preview()));
    var p := PreviewPayloadFor(plan.tenant, g.approved, previewCommandHash, g.view, projected);
    var preview := Preview(previewCommandHash, p.currentHashes, projected, h(PreviewOf(p)));
    var decision := Decide(h, plan.tenant, g.approved, g.existing, plan.record, g.view.restore);
    var commandHash := h(SkeletonCommandOf(plan.Prepare(preview, decision)));
    var planHash := h(PlanOf(PlanPayloadFor(plan.tenant, g.approved, plan.Terms(preview, decision), commandHash)));
    plan.Execute(preview, decision, Skeleton(commandHash, planHash))
  }

  /** Whatever ids the tenant's articles have, on grounds such a command passes every check of the
      execution, if the guard has nothing against the write and the source version is absent. */
  lemma OwnCommandClears(h: Hash, st: State, plan: Plan, g: Grounds)
    requires CollisionFree(h) && Sound(h, st) && Ground(h, st, plan.tenant, plan.approvalHash) == Ok(g)
    requires TargetFits(plan.tenant, g.approved.payload, g.existing)
    requires Admissible(h, plan.tenant, g.approved.payload, plan.record) && plan.record.Key() !in st.store
    ensures Projection(g.approved.payload, g.view.evidences).Ok?
    ensures Clear(h, st, plan.tenant, OwnCommand(h, plan, g)).Ok? && OwnCommand(h, plan, g).record == plan.record
  {
    GroundsProject(h, st, plan.tenant, plan.approvalHash, g);
    GuardDecides(h, st, plan.tenant, plan.approvalHash, g, plan.record);
    AllowedMatches(h, st, plan.tenant, plan.approvalHash, g, plan.record);
    OwnCommandOn(h, st.store, plan, g);
  }

  lemma OwnCommandOn(h: Hash, store: Store, plan: Plan, g: Grounds)
    requires Projection(g.approved.payload, g.view.evidences).Ok? && plan.approvalHash == g.approved.hash
    requires GuardMatches(
               h, g.approved, Decide(h, plan.tenant, g.approved, g.existing, plan.record, g.view.restore))
    requires SourceKey(plan.tenant, g.approved.payload.proposedSourceId, g.approved.payload.proposedSourceVersionId)
             !in store
    ensures ClearOn(h, store, plan.tenant, OwnCommand(h, plan, g), g).Ok?
  {
  }

  // ---- a creation from dry run to execution ----

  /** The record can be stored under a new article of the tenant. */
  predicate Creatable(h: Hash, st: State, tenant: string, record: SourceRecord, id: string, key: string) {
    var f := record.fields;
    && WriteGuard(h, record).None? && record.Key() !in st.store && f.tenant == tenant
    && f.classification == Internal && f.retention == STANDARD_RETENTION && f.legalHold.NoHold?
    && KeyFree(st.articles, tenant, key)
    && forall a :: a in st.articles ==> !IsTarget(a, tenant, id)
  }

  /** The command that asks for it. */
  function Creation(record: SourceRecord, id: string, key: string): WriteCommand {
    var f := record.fields;
    WriteCommand("apr:1", "new", Create, id, key, "New", f.objectId, "v1", f.objectId, f.versionId, f.objectType,
                 record.manifestHash, f.contentHash, f.aclVersion, None, Internal, STANDARD_RETENTION, NoHold,
                 f.sourceSystem)
  }

  ghost predicate NoZeroHash(h: Hash) {
    forall p: ApprovalPayload :: h(ApprovalOf(p)) != ZERO_HASH
  }

  lemma CreationDryRuns(h: Hash, st: State, tenant: string, record: SourceRecord, id: string, key: string)
    returns (e: ApprovalEvidence)
    requires Initial(st) && Look(h, st, tenant).Ok? && Creatable(h, st, tenant, record, id, key)
    ensures DryRunWrite(h, st, tenant, "author", Creation(record, id, key), "event:1") == Ok(e)
  {
    FindArticleFinds(Records(st.articles, tenant), id);
    RecordsMembers(st.articles, tenant);
    e := CreationAccepted(h, st, tenant, "author", Creation(record, id, key), "event:1");
  }

  /** What lets a dry run of a creation succeed. */
  lemma CreationAccepted(h: Hash, st: State, tenant: string, user: string, c: WriteCommand, audit: string)
    returns (e: ApprovalEvidence)
    requires c.Valid() && c.operation.Create? && st.ledger == map[] && Look(h, st, tenant).Ok?
    requires FindArticle(Records(st.articles, tenant), c.articleId).None?
    requires forall a :: a in Records(st.articles, tenant) ==> a.key != c.articleKey
    ensures DryRunWrite(h, st, tenant, user, c, audit) == Ok(e)
  {
    e := DryRunEvidence(h, tenant, user, c, Look(h, st, tenant).value.restore.hash, audit);
  }

  /** In the state after the dry run its approval succeeds. */
  lemma CreationIsApproved(
    h: Hash, st: State, tenant: string, record: SourceRecord, id: string, key: string, e: ApprovalEvidence)
    returns (approved: ApprovalEvidence)
    requires CollisionFree(h) && NoZeroHash(h) && Initial(st)
    requires DryRunWrite(h, st, tenant, "author", Creation(record, id, key), "event:1") == Ok(e)
    ensures ApproveWrite(h, Record(st, e), tenant, "approver", ApproveCommand(e.hash, "apr:2", "ok"), "event:2")
            == Ok(approved)
    ensures Sound(h, Record(st, e))
  {
    var command := ApproveCommand(e.hash, "apr:2", "ok");
    InitialInv(h, st);
    DryRunKeepsSound(h, st, tenant, "author", Creation(record, id, key), "event:1", e);
    DryRunFinds(h, st, tenant, "author", Creation(record, id, key), "event:1", e);
    DryRunIsSound(h, st, tenant, "author", Creation(record, id, key), "event:1", e);
    ApprovalCondition(h, Record(st, e), tenant, "approver", command, "event:2", e);
    approved := ApproveWrite(h, Record(st, e), tenant, "approver", command, "event:2").value;
  }

  /** The entry proposes that creation. */
  predicate Proposes(
    h: Hash, p: ApprovalPayload, tenant: string, record: SourceRecord, id: string, key: string)
  {
    var f := record.fields;
    && p.operation.Create? && p.articleId == id && p.articleKey == key
    && p.proposedVersionId == f.objectId && p.proposedSourceId == f.objectId
    && p.proposedSourceVersionId == f.versionId && p.proposedSourceType == f.objectType
    && p.proposedManifestHash == record.manifestHash && p.proposedContentHash == f.contentHash
    && p.proposedAclVersion == f.aclVersion && p.sourceSystem == f.sourceSystem
    && p.proposedEvidenceHash == ProposedEvidence(h, tenant, Creation(record, id, key)).hash
  }

  lemma DryRunProposes(
    h: Hash, st: State, tenant: string, record: SourceRecord, id: string, key: string, e: ApprovalEvidence)
    requires DryRunWrite(h, st, tenant, "author", Creation(record, id, key), "event:1") == Ok(e)
    ensures Proposes(h, e.payload, tenant, record, id, key)
  {
  }

  lemma ApprovalProposes(
    h: Hash, p: ApprovalPayload, q: ApprovalPayload, tenant: string, record: SourceRecord, id: string, key: string)
    requires Proposes(h, p, tenant, record, id, key) && SameProposal(p, q)
    ensures Proposes(h, q, tenant, record, id, key)
  {
  }

  lemma ProposedIsAdmissible(
    h: Hash, st: State, p: ApprovalPayload, tenant: string, record: SourceRecord, id: string, key: string)
    requires Creatable(h, st, tenant, record, id, key) && Proposes(h, p, tenant, record, id, key)
    ensures Admissible(h, tenant, p, record)
  {
    var c := Creation(record, id, key);
    assert ProposedEvidence(h, tenant, c).payload == VersionPayloadFor(tenant, id, p.proposedVersionId, record);
  }

  /** An execution that passes its checks, fails, and leaves the source version and a new article
      behind; no preview would have been given for it. */
  ghost predicate HalfCommits(h: Hash, st: State, tenant: string, c: ExecutionCommand, at: string, id: string) {
    var (after, result) := Execute(h, st, tenant, c, at);
    && Clear(h, st, tenant, c).Ok? && result.Err?
    && c.record.Key() !in st.store && c.record.Key() in after.store
    && (exists a :: after.articles == st.articles + [a] && IsTarget(a, tenant, id))
    && PreviewsRefused(h, st, tenant, c.terms.approvalHash)
  }

  ghost predicate PreviewsRefused(h: Hash, st: State, tenant: string, approvalHash: Digest) {
    forall c: PreviewCommand :: c.approvalHash == approvalHash ==> PreviewRefresh(h, st, tenant, c).Err?
  }

  lemma DuplicatesGetNoPreview(h: Hash, st: State, tenant: string, approvalHash: Digest)
    requires CollisionFree(h) && Sound(h, st) && !UniqueFor(st.articles, tenant)
    requires Ground(h, st, tenant, approvalHash).Ok?
    ensures PreviewsRefused(h, st, tenant, approvalHash)
  {
    forall c: PreviewCommand | c.approvalHash == approvalHash ensures PreviewRefresh(h, st, tenant, c).Err? {
      PreviewAnswersExactly(h, st, tenant, c);
    }
  }

  /** Every cleared creation of a tenant with a duplicate id ends like that. */
  lemma CreationHalfCommits(h: Hash, st: State, tenant: string, c: ExecutionCommand, at: string, g: Grounds)
    requires CollisionFree(h) && Sound(h, st) && !UniqueFor(st.articles, tenant)
    requires Ground(h, st, tenant, c.terms.approvalHash) == Ok(g) && Clear(h, st, tenant, c).Ok?
    requires g.approved.payload.operation.Create? && KeyFree(st.articles, tenant, g.approved.payload.articleKey)
    ensures HalfCommits(h, st, tenant, c, at, g.approved.payload.articleId)
  {
    var cleared := Clear(h, st, tenant, c).value;
    ClearedGround(h, st, tenant, c, cleared);
    ClearedAdmits(h, st, tenant, c, cleared);
    DuplicateIdsHalfCommit(h, st, tenant, c, at);
    ClearedWrites(h, st, tenant, c, at, cleared);
    Grounded(h, st, tenant, c.terms.approvalHash, g);
    var a := CreateWrites(h, st, tenant, c, g.approved.payload);
    assert ArticlesAfter(st, tenant, c, cleared) == st.articles + [a];
    DuplicatesGetNoPreview(h, st, tenant, c.terms.approvalHash);
  }

  /** The three steps. */
  function StepsOf(
    tenant: string, record: SourceRecord, id: string, key: string, e: ApprovalEvidence, c: ExecutionCommand): seq<Step>
  {
    [ DryRunStep(tenant, "author", Creation(record, id, key), "event:1"),
      ApproveStep(tenant, "approver", ApproveCommand(e.hash, "apr:2", "ok"), "event:2"),
      ExecuteStep(tenant, c, "2026-01-01T00:00:00Z") ]
  }

  lemma ThreeSteps(h: Hash, st: State, steps: seq<Step>) returns (states: seq<State>)
    requires CollisionFree(h) && Initial(st) && |steps| == 3
    ensures Run(h, states, steps) && states[0] == st
    ensures states[2] == Next(h, Next(h, st, steps[0]), steps[1])
  {
    var st1 := Next(h, st, steps[0]);
    var st2 := Next(h, st1, steps[1]);
    states := [st, st1, st2, Next(h, st2, steps[2])];
    assert Taken(h, states, steps, 0) && Taken(h, states, steps, 1) && Taken(h, states, steps, 2);
  }

  /** From every initial state in which a tenant with a duplicate id has a well-formed view, every
      creation leads there: a dry run, its approval, and an execution. */
  lemma DuplicatesHalfCommit(h: Hash, st: State, tenant: string, record: SourceRecord, id: string, key: string)
    returns (states: seq<State>, steps: seq<Step>)
    requires CollisionFree(h) && NoZeroHash(h) && Initial(st) && !UniqueFor(st.articles, tenant)
    requires Look(h, st, tenant).Ok? && Creatable(h, st, tenant, record, id, key)
    ensures Run(h, states, steps) && states[0] == st && |steps| == 3
    ensures steps[2].ExecuteStep? && steps[2].tenant == tenant && steps[2].execute.record == record
    ensures HalfCommits(h, states[2], tenant, steps[2].execute, steps[2].capturedAt, id)
  {
    var e := CreationDryRuns(h, st, tenant, record, id, key);
    var approved := CreationIsApproved(h, st, tenant, record, id, key, e);
    var st1 := Record(st, e);
    var c, g := CreationClears(h, st, st1, tenant, record, id, key, e, approved);
    steps := StepsOf(tenant, record, id, key, e, c);
    states := ThreeSteps(h, st, steps);
    assert states[2] == Record(st1, approved);
    CreationHalfCommits(h, states[2], tenant, c, "2026-01-01T00:00:00Z", g);
  }

  lemma CreationClears(
    h: Hash, st: State, st1: State, tenant: string, record: SourceRecord, id: string, key: string,
    e: ApprovalEvidence, approved: ApprovalEvidence) returns (c: ExecutionCommand, g: Grounds)
    requires CollisionFree(h) && Sound(h, st1) && st1 == Record(st, e) && Creatable(h, st, tenant, record, id, key)
    requires DryRunWrite(h, st, tenant, "author", Creation(record, id, key), "event:1") == Ok(e)
    requires ApproveWrite(h, st1, tenant, "approver", ApproveCommand(e.hash, "apr:2", "ok"), "event:2") == Ok(approved)
    ensures var st2 := Record(st1, approved);
            && Sound(h, st2) && Ground(h, st2, tenant, c.terms.approvalHash) == Ok(g)
            && Clear(h, st2, tenant, c).Ok? && c.record == record && g.approved == approved
    ensures approved.payload.operation.Create?
    ensures approved.payload.articleId == id && approved.payload.articleKey == key
  {
    var command := ApproveCommand(e.hash, "apr:2", "ok");
    DryRunProposes(h, st, tenant, record, id, key, e);
    DryRunIsSound(h, st, tenant, "author", Creation(record, id, key), "event:1", e);
    ApprovalIsSound(h, st1, tenant, "approver", command, "event:2", approved);
    ApprovalProposes(h, e.payload, approved.payload, tenant, record, id, key);
    ProposedIsAdmissible(h, st, approved.payload, tenant, record, id, key);
    ApprovalHasGrounds(h, st1, tenant, "approver", command, "event:2", approved);
    ApproveKeepsSound(h, st1, tenant, "approver", command, "event:2", approved);
    var st2 := Record(st1, approved);
    g := Ground(h, st2, tenant, approved.hash).value;
    GroundsTarget(h, st2, tenant, approved.hash, g);
    var plan := Plan(tenant, approved.hash, record, "preview:1", "execution:1", "confirmation:1", "go");
    OwnCommandClears(h, st2, plan, g);
    c := OwnCommand(h, plan, g);
  }

  // ---- two articles with one id ----

  function WikiRecord(h: Hash, version: string): SourceRecord {
    var f := SourceFields("t", version, Wiki, "1", Internal, STANDARD_RETENTION, NoHold,
                          KeyRef("t", Internal, 1).Canonical(), "native", 1, h(ContentOf(version)), "");
    SourceRecord(f, h(ManifestOf(f)), version)
  }

  /** An article of tenant `t` resting on that version. */
  function WikiArticle(h: Hash, id: string, key: string, version: string): Article {
    var r := WikiRecord(h, version);
    Article("t", id, key, key, version, "v1", version, "1", Wiki, r.manifestHash, r.fields.contentHash, 1, Internal,
            STANDARD_RETENTION, NoHold, "native", "audit:seed", "")
  }

  /** Seeded articles and sources, all of them valid by themselves. */
  function Seeded(h: Hash): State {
    var x, y := WikiRecord(h, "x"), WikiRecord(h, "y");
    State([WikiArticle(h, "a", "K-1", "x"), WikiArticle(h, "a", "K-2", "y")], map[x.Key() := x, y.Key() := y],
          map[], {}, map[])
  }

  lemma WikiRecordStorable(h: Hash, version: string)
    ensures WriteGuard(h, WikiRecord(h, version)).None?
  {
    var key := KeyRef("t", Internal, 1);
    PrintableIsSolid('t');
    PrintableIsSolid('r');
    StripFacts("t");
    StripFacts(STANDARD_RETENTION);
    assert "t"[0] == 't' && STANDARD_RETENTION[0] == 'r';
    CanonicalRoundTrip(key);
    ParsedPrintsBack(key.Canonical());
    assert Strip(key.Canonical()) == key.Canonical() != "";
  }

  lemma DistinctVersionsRearranged(s: seq<Article>, t: seq<Article>)
    requires multiset(s) == multiset(t) && DistinctVersions(s)
    ensures DistinctVersions(t)
  {
    assert Distinct(s);
    Rearranged(s, t);
    forall i, j | 0 <= i < j < |t|
      ensures t[i].objectId != t[j].objectId || t[i].SourceKeyOf() != t[j].SourceKeyOf()
    {
      assert t[i] in s && t[j] in s && t[i] != t[j];
    }
  }

  lemma DifferentNames()
    ensures "x" != "y" && "x" != "z" && "y" != "z" && "a" != "b"
  {
    assert "x"[0] != "y"[0] && "x"[0] != "z"[0] && "y"[0] != "z"[0] && "a"[0] != "b"[0];
  }

  predicate AllStorable(h: Hash, store: Store) {
    forall k :: k in store ==> WriteGuard(h, store[k]).None?
  }

  lemma PairStorable(h: Hash, x: SourceRecord, y: SourceRecord)
    requires WriteGuard(h, x).None? && WriteGuard(h, y).None?
    ensures AllStorable(h, map[x.Key() := x, y.Key() := y])
  {
  }

  /** The seeded sources satisfy the write guard. */
  lemma SeededSources(h: Hash)
    ensures AllStorable(h, Seeded(h).store)
  {
    WikiRecordStorable(h, "x");
    WikiRecordStorable(h, "y");
    PairStorable(h, WikiRecord(h, "x"), WikiRecord(h, "y"));
  }

  lemma NewVersionAbsent(h: Hash)
    ensures WikiRecord(h, "z").Key() !in Seeded(h).store
  {
    DifferentNames();
  }

  lemma SeededInitial(h: Hash)
    ensures Initial(Seeded(h)) && Creatable(h, Seeded(h), "t", WikiRecord(h, "z"), "b", "K-3")
  {
    NewVersionAbsent(h);
    WikiRecordStorable(h, "z");
    DifferentNames();
    assert "K-1"[2] != "K-3"[2] && "K-2"[2] != "K-3"[2];
  }

  lemma SeededArticles(h: Hash) returns (a: Article, b: Article)
    ensures a == WikiArticle(h, "a", "K-1", "x") && b == WikiArticle(h, "a", "K-2", "y")
    ensures TenantArticles(Seeded(h).articles, "t") == [a, b] && !UniqueFor(Seeded(h).articles, "t")
    ensures DistinctVersions([a, b]) && LiveEvidences(h, Seeded(h).store, [a, b]).Ok?
  {
    var st := Seeded(h);
    a, b := st.articles[0], st.articles[1];
    assert st.articles[1..] == [b] && [b][1..] == [];
    assert TenantArticles([b], "t") == [b];
    assert "x"[0] != "y"[0];
    assert LiveEvidence(h, st.store, a).Ok? && LiveEvidence(h, st.store, b).Ok?;
    EvidencesPointwise(h, st.store, [a, b]);
  }

  lemma SeededView(h: Hash)
    requires CollisionFree(h)
    ensures Look(h, Seeded(h), "t").Ok? && !UniqueFor(Seeded(h).articles, "t")
  {
    var st := Seeded(h);
    var a, b := SeededArticles(h);
    EvidencesRearranged(h, st.store, [a, b], Records(st.articles, "t"));
    DistinctVersionsRearranged([a, b], Records(st.articles, "t"));
    ViewBuilds(h, st.articles, st.store, "t");
  }

  /** A concrete input: two seeded articles `a`, resting on the stored versions `x` and `y`, and the
      creation of an article `b` with version `z`. */
  lemma TwoArticlesOneId(h: Hash) returns (states: seq<State>, steps: seq<Step>)
    requires CollisionFree(h) && NoZeroHash(h)
    ensures Run(h, states, steps) && states[0] == Seeded(h) && AllStorable(h, Seeded(h).store) && |steps| == 3
    ensures steps[2].ExecuteStep? && steps[2].tenant == "t" && steps[2].execute.record == WikiRecord(h, "z")
    ensures HalfCommits(h, states[2], "t", steps[2].execute, steps[2].capturedAt, "b")
  {
    SeededView(h);
    SeededSources(h);
    SeededInitial(h);
    states, steps := DuplicatesHalfCommit(h, Seeded(h), "t", WikiRecord(h, "z"), "b", "K-3");
  }
}
