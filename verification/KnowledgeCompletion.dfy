/** Completeness of the write protocol: what has been approved goes through. */
module KnowledgeCompletion {
  import opened Wrappers
  import opened Sorting
  import opened KnowledgeTypes
  import opened KnowledgeEvidence
  import opened KnowledgeProtocol
  import opened KnowledgeFacts
  import opened KnowledgeInvariant
  import opened KnowledgeUniqueness
  import opened KnowledgeRuns

  /** The state right after an approval gives the approval its grounds. */
  lemma ApprovalHasGrounds(
    h: Hash, st: State, tenant: string, user: string, c: ApproveCommand, audit: string, e: ApprovalEvidence)
    requires LineageOk(h, st.ledger) && ApproveWrite(h, st, tenant, user, c, audit) == Ok(e)
    ensures Ground(h, Record(st, e), tenant, e.hash).Ok?
    ensures Ground(h, Record(st, e), tenant, e.hash).value.approved == e
  {
    ApprovalIsSound(h, st, tenant, user, c, audit, e);
  }

  /** Grounds depend on the ledger entry and the tenant's view alone. */
  lemma GroundsStay(h: Hash, st: State, st': State, tenant: string, approvalHash: Digest)
    requires Ground(h, st, tenant, approvalHash).Ok? && LedgerExtends(st.ledger, st'.ledger)
    requires Look(h, st', tenant) == Look(h, st, tenant)
    ensures Ground(h, st', tenant, approvalHash) == Ground(h, st, tenant, approvalHash)
  {
    assert Records(st'.articles, tenant) == Look(h, st', tenant).value.articles;
  }

  // ---- every approved write has a projection ----

  predicate IdsDistinct(index: HashIndex) {
    forall i, j :: 0 <= i < j < |index| ==> index[i].0 != index[j].0
  }

  /** The hash is that of evidence for the article with that id. */
  ghost predicate Owned(h: Hash, id: string, hash: Digest) {
    exists q: VersionPayload :: q.articleId == id && h(VersionOf(q)) == hash
  }

  ghost predicate AllOwned(h: Hash, index: HashIndex) {
    forall entry :: entry in index ==> Owned(h, entry.0, entry.1)
  }

  /** Different articles never share an evidence hash. */
  lemma OwnedDistinct(h: Hash, index: HashIndex)
    requires CollisionFree(h) && IdsDistinct(index) && AllOwned(h, index)
    ensures Distinct(SortDigests(Values(index)))
  {
    var values := Values(index);
    forall i, j | 0 <= i < j < |values| ensures values[i] != values[j] {
      assert index[i] in index && index[j] in index;
      var p: VersionPayload :| p.articleId == index[i].0 && h(VersionOf(p)) == index[i].1;
      var q: VersionPayload :| q.articleId == index[j].0 && h(VersionOf(q)) == index[j].1;
      assert SameKind(VersionOf(p), VersionOf(q));
    }
    Rearranged(values, SortDigests(values));
  }

  /** Setting an entry of a dictionary leaves the entries of other ids, and one an id. */
  lemma {:induction false} UpsertKeeps(index: HashIndex, id: string, hash: Digest)
    requires IdsDistinct(index)
    ensures IdsDistinct(Upsert(index, id, hash))
    ensures forall entry :: entry in Upsert(index, id, hash) ==>
              entry == (id, hash) || (entry in index && entry.0 != id)
  {
    if index != [] {
      var rest := index[1..];
      assert index == [index[0]] + rest;
      if index[0].0 == id {
        assert forall i :: 0 <= i < |rest| ==> rest[i] == index[i + 1];
      } else {
        UpsertKeeps(rest, id, hash);
        var after := Upsert(rest, id, hash);
        forall entry | entry in after ensures entry.0 != index[0].0 {
          if entry in rest {
            var i :| 0 <= i < |rest| && rest[i] == entry;
            assert index[i + 1] == entry;
          }
        }
        assert forall i :: 0 <= i < |after| ==> after[i] in after;
      }
    }
  }

  lemma {:induction false} IndexOwned(h: Hash, evidences: seq<VersionEvidence>)
    requires forall e :: e in evidences ==> e.hash == h(VersionOf(e.payload))
    ensures IdsDistinct(IndexOf(evidences)) && AllOwned(h, IndexOf(evidences))
  {
    if evidences != [] {
      var n := |evidences| - 1;
      IndexOwned(h, evidences[..n]);
      UpsertKeeps(IndexOf(evidences[..n]), evidences[n].payload.articleId, evidences[n].hash);
    }
  }

  lemma EditProjects(h: Hash, p: ApprovalPayload, evidences: seq<VersionEvidence>, index: HashIndex)
    requires CollisionFree(h) && p.operation.Edit? && index == IndexOf(SortByArticle(evidences))
    requires IdsDistinct(index) && AllOwned(h, index) && Owned(h, p.articleId, p.proposedEvidenceHash)
    requires HasId(index, p.articleId)
    ensures Projection(p, evidences).Ok?
  {
    UpsertKeeps(index, p.articleId, p.proposedEvidenceHash);
    OwnedDistinct(h, Upsert(index, p.articleId, p.proposedEvidenceHash));
  }

  lemma CreationProjects(h: Hash, p: ApprovalPayload, evidences: seq<VersionEvidence>, index: HashIndex)
    requires CollisionFree(h) && p.operation.Create? && index == IndexOf(SortByArticle(evidences))
    requires IdsDistinct(index) && AllOwned(h, index) && Owned(h, p.articleId, p.proposedEvidenceHash)
    requires !HasId(index, p.articleId)
    ensures Projection(p, evidences).Ok?
  {
    var longer := index + [(p.articleId, p.proposedEvidenceHash)];
    assert forall i :: 0 <= i < |index| ==> longer[i] == index[i] && index[i] in index;
    OwnedDistinct(h, longer);
    assert Values(longer) == Values(index) + [p.proposedEvidenceHash];
  }

  /** Whatever ids a tenant's articles have, an approved write has a projection. */
  lemma TargetProjects(h: Hash, tenant: string, p: ApprovalPayload, view: View)
    requires CollisionFree(h) && ProposalHashed(h, p) && EvidenceOf(h, tenant, view.articles, view.evidences)
    requires p.operation.Edit? <==> FindArticle(view.articles, p.articleId).Some?
    ensures Projection(p, view.evidences).Ok?
  {
    var sorted := SortByArticle(view.evidences);
    SortedOwned(h, tenant, view);
    ViewCovers(h, tenant, view, p.articleId);
    IndexIds(sorted, p.articleId);
    assert Owned(h, p.articleId, p.proposedEvidenceHash);
    if p.operation.Edit? {
      EditProjects(h, p, view.evidences, IndexOf(sorted));
    } else {
      CreationProjects(h, p, view.evidences, IndexOf(sorted));
    }
  }

  lemma SortedOwned(h: Hash, tenant: string, view: View)
    requires EvidenceOf(h, tenant, view.articles, view.evidences)
    ensures var index := IndexOf(SortByArticle(view.evidences)); IdsDistinct(index) && AllOwned(h, index)
  {
    Rearranged(view.evidences, SortByArticle(view.evidences));
    IndexOwned(h, SortByArticle(view.evidences));
  }

  /** A view's evidence covers exactly the ids of its articles. */
  lemma ViewCovers(h: Hash, tenant: string, view: View, id: string)
    requires EvidenceOf(h, tenant, view.articles, view.evidences)
    ensures Covered(SortByArticle(view.evidences), id) <==> FindArticle(view.articles, id).Some?
  {
    FindArticleFinds(view.articles, id);
    Rearranged(view.evidences, SortByArticle(view.evidences));
    if FindArticle(view.articles, id).Some? {
      var k :| 0 <= k < |view.articles| && view.articles[k] == FindArticle(view.articles, id).value;
      assert view.evidences[k] in view.evidences && view.evidences[k].payload.articleId == id;
    }
    if Covered(SortByArticle(view.evidences), id) {
      var e :| e in SortByArticle(view.evidences) && e.payload.articleId == id;
      assert e in view.evidences;
      var k :| 0 <= k < |view.evidences| && view.evidences[k] == e;
      assert view.articles[k] in view.articles;
    }
  }

  lemma CheckedTarget(articles: seq<Article>, operation: Operation, id: string, expected: Option<string>)
    requires CheckTarget(articles, operation, id, expected).Ok?
    ensures CheckTarget(articles, operation, id, expected) == Ok(FindArticle(articles, id))
    ensures operation.Edit? <==> FindArticle(articles, id).Some?
  {
  }

  lemma GroundsTarget(h: Hash, st: State, tenant: string, approvalHash: Digest, g: Grounds)
    requires Ground(h, st, tenant, approvalHash) == Ok(g)
    ensures Look(h, st, tenant) == Ok(g.view)
    ensures g.existing == FindArticle(g.view.articles, g.approved.payload.articleId)
    ensures g.approved.payload.operation.Edit? <==> g.existing.Some?
  {
    var p := LedgerGet(st, tenant, approvalHash).value.payload;
    CheckedTarget(Records(st.articles, tenant), p.operation, p.articleId, p.expectedVersionId);
    GroundLooks(h, st, tenant, approvalHash, g);
  }

  /** A write with grounds has a projection. */
  lemma GroundsProject(h: Hash, st: State, tenant: string, approvalHash: Digest, g: Grounds)
    requires CollisionFree(h) && Sound(h, st) && Ground(h, st, tenant, approvalHash) == Ok(g)
    ensures Projection(g.approved.payload, g.view.evidences).Ok?
  {
    Grounded(h, st, tenant, approvalHash, g);
    GroundsTarget(h, st, tenant, approvalHash, g);
    ViewDistinct(h, st.articles, st.store, tenant);
    TargetProjects(h, tenant, g.approved.payload, g.view);
  }

  lemma GroundsView(h: Hash, st: State, tenant: string, view: View)
    requires Look(h, st, tenant) == Ok(view)
    ensures view.articles == Records(st.articles, tenant)
    ensures EvidenceOf(h, tenant, view.articles, view.evidences)
    ensures DistinctArticles(view.evidences) <==> UniqueFor(st.articles, tenant)
    ensures BuildRestore(h, tenant, view.articles, view.evidences) == Ok(view.restore)
  {
    ViewDistinct(h, st.articles, st.store, tenant);
  }

  // ---- the guard ----

  lemma NoApprovalReasons(h: Hash, e: ApprovalEvidence)
    requires e.hash == h(ApprovalOf(e.payload)) && e.payload.state.ApprovedForWrite? && e.payload.persistenceAllowed
    ensures Blocking(ApprovalChecks(h, e)) == []
  {
    NothingBlocks(ApprovalChecks(h, e));
  }

  lemma NoRestoreReasons(h: Hash, tenant: string, p: ApprovalPayload, view: View)
    requires BuildRestore(h, tenant, view.articles, view.evidences) == Ok(view.restore)
    requires view.restore.hash == p.snapshotHash
    ensures Blocking(RestoreChecks(h, tenant, p, view.restore)) == []
  {
    NothingBlocks(RestoreChecks(h, tenant, p, view.restore));
  }

  /** On grounds, the guard allows a write exactly when the proposed record is the approved one
      and storable, and the addressed article is neither on hold nor specially retained. */
  lemma GuardDecides(h: Hash, st: State, tenant: string, approvalHash: Digest, g: Grounds, record: SourceRecord)
    requires Sound(h, st) && Ground(h, st, tenant, approvalHash) == Ok(g)
    ensures EvaluateGuard(h, st, tenant, approvalHash, record)
            == Ok(Decide(h, tenant, g.approved, g.existing, record, g.view.restore))
    ensures Decide(h, tenant, g.approved, g.existing, record, g.view.restore).payload.allowed
            <==> TargetFits(tenant, g.approved.payload, g.existing) && Admissible(h, tenant, g.approved.payload, record)
  {
    var p := g.approved.payload;
    Grounded(h, st, tenant, approvalHash, g);
    GroundsView(h, st, tenant, g.view);
    NoApprovalReasons(h, g.approved);
    NoTargetReasons(tenant, p, g.existing);
    NoSourceReasons(h, tenant, p, record);
    NoRestoreReasons(h, tenant, p, g.view);
  }

  lemma AllowedMatches(h: Hash, st: State, tenant: string, approvalHash: Digest, g: Grounds, record: SourceRecord)
    requires Sound(h, st) && Ground(h, st, tenant, approvalHash) == Ok(g)
    ensures var d := Decide(h, tenant, g.approved, g.existing, record, g.view.restore);
            GuardMatches(h, g.approved, d) <==> d.payload.allowed
  {
    Grounded(h, st, tenant, approvalHash, g);
  }

  // ---- from dry run to approval ----

  predicate AlreadyApproved(st: State, tenant: string, dryRunHash: Digest) {
    exists k | k in st.ledger :: k.tenant == tenant && Approves(st.ledger[k], tenant, dryRunHash)
  }

  /** An approval's ledger key can only be taken by an approval of the same dry run. */
  lemma TransitionIsNew(
    h: Hash, st: State, dryRun: ApprovalEvidence, approvalReference: string, user: string, auditEventId: string)
    requires CollisionFree(h) && LineageOk(h, st.ledger)
    requires !AlreadyApproved(st, dryRun.payload.tenant, dryRun.hash)
    ensures LedgerKey(dryRun.payload.tenant, TransitionEvidence(h, dryRun, approvalReference, user, auditEventId).hash)
            !in st.ledger
  {
    var evidence := TransitionEvidence(h, dryRun, approvalReference, user, auditEventId);
    var key := LedgerKey(dryRun.payload.tenant, evidence.hash);
    if key in st.ledger {
      assert SameKind(ApprovalOf(st.ledger[key].payload), ApprovalOf(evidence.payload));
      assert Approves(st.ledger[key], key.tenant, dryRun.hash);
      assert false;
    }
  }

  /** What an approval of a dry run depends on, given that its entry is in the ledger. */
  lemma ApprovalCondition(
    h: Hash, st: State, tenant: string, user: string, a: ApproveCommand, audit: string, e: ApprovalEvidence)
    requires CollisionFree(h) && LineageOk(h, st.ledger)
    requires LedgerKey(tenant, a.dryRunHash) in st.ledger && st.ledger[LedgerKey(tenant, a.dryRunHash)] == e
    requires e.payload.state.DryRun?
    ensures var mine := Records(st.articles, tenant);
            ApproveWrite(h, st, tenant, user, a, audit).Ok?
            <==> !AlreadyApproved(st, tenant, e.hash) && e.hash != ZERO_HASH
                 && CheckTarget(mine, e.payload.operation, e.payload.articleId, e.payload.expectedVersionId).Ok?
                 && Look(h, st, tenant).Ok? && Look(h, st, tenant).value.restore.hash == e.payload.snapshotHash
  {
    assert EntryOk(st.ledger, e);
    if !AlreadyApproved(st, tenant, e.hash) {
      TransitionIsNew(h, st, e, a.approvalReference, user, audit);
    }
  }

  /** What a dry run has found: its target fits, and its snapshot is the current one. */
  lemma DryRunFinds(
    h: Hash, st: State, tenant: string, user: string, c: WriteCommand, audit: string, e: ApprovalEvidence)
    requires DryRunWrite(h, st, tenant, user, c, audit) == Ok(e)
    ensures var mine := Records(st.articles, tenant);
            && CheckTarget(mine, e.payload.operation, e.payload.articleId, e.payload.expectedVersionId).Ok?
            && Look(h, st, tenant).Ok? && Look(h, st, tenant).value.restore.hash == e.payload.snapshotHash
            && e.payload.state.DryRun? && e.payload.tenant == tenant
  {
  }

  /** For a tenant with unique ids: from any dry run of a run on, its approval succeeds exactly as long
      as the tenant executes no write and the dry run has not been approved. (No real hash is the
      draft value.) */
  lemma ApprovalSucceedsExactly(
    h: Hash, states: seq<State>, steps: seq<Step>, i: nat, j: nat, e: ApprovalEvidence, user: string,
    a: ApproveCommand, audit: string)
    requires i < j < |states| && |states| == |steps| + 1 && steps[i].DryRunStep?
    requires UniqueRun(h, states, steps, steps[i].tenant)
    requires DryRunWrite(h, states[i], steps[i].tenant, steps[i].user, steps[i].write, steps[i].auditEventId) == Ok(e)
    requires a.dryRunHash == e.hash && e.hash != ZERO_HASH
    ensures ApproveWrite(h, states[j], steps[i].tenant, user, a, audit).Ok?
            <==> Quiet(h, states, steps, steps[i].tenant, i + 1, j)
                 && !AlreadyApproved(states[j], steps[i].tenant, e.hash)
  {
    var tenant := steps[i].tenant;
    DryRunFinds(h, states[i], tenant, steps[i].user, steps[i].write, steps[i].auditEventId, e);
    DryRunSnapshotOk(h, states[i], tenant, steps[i].user, steps[i].write, steps[i].auditEventId, e);
    DryRunRecorded(h, states, steps, i, e);
    RunAppends(h, states, steps, i + 1, j);
    RunSound(h, states, steps, j);
    ApprovalCondition(h, states[j], tenant, user, a, audit, e);
    if Quiet(h, states, steps, tenant, i + 1, j) {
      QuietRun(h, states, steps, tenant, i + 1, j);
    } else {
      NotQuietMoves(h, states, steps, tenant, i + 1, j, e.payload.snapshotHash);
    }
  }

  lemma DryRunRecorded(h: Hash, states: seq<State>, steps: seq<Step>, i: nat, e: ApprovalEvidence)
    requires Run(h, states, steps) && i < |steps| && steps[i].DryRunStep?
    requires DryRunWrite(h, states[i], steps[i].tenant, steps[i].user, steps[i].write, steps[i].auditEventId) == Ok(e)
    ensures var key := LedgerKey(steps[i].tenant, e.hash);
            key in states[i + 1].ledger && states[i + 1].ledger[key] == e
    ensures states[i + 1].articles == states[i].articles && states[i + 1].store == states[i].store
  {
    assert Taken(h, states, steps, i);
    assert states[i + 1] == Record(states[i], e);
  }

  // ---- from approval to execution ----

  /** The commands a caller assembles from what the earlier steps returned. */
  datatype Plan = Plan(
    tenant: string, approvalHash: Digest, record: SourceRecord, previewReference: string, executionReference: string,
    confirmationReference: string, reason: string)
  {
    function Preview(): PreviewCommand {
      PreviewCommand(approvalHash, previewReference, reason)
    }

    function Terms(preview: Preview, decision: GuardDecision): ExecutionTerms {
      ExecutionTerms(approvalHash, decision, preview.previewCommandHash, preview.previewHash, executionReference,
                     confirmationReference)
    }

    function Prepare(preview: Preview, decision: GuardDecision): SkeletonCommand {
      SkeletonCommand(Terms(preview, decision), reason)
    }

    function Execute(preview: Preview, decision: GuardDecision, skeleton: Skeleton): ExecutionCommand {
      ExecutionCommand(Terms(preview, decision), skeleton.commandHash, skeleton.planHash, record, reason)
    }
  }

  /** With one and the same grounds throughout, each answer fits the next question. */
  lemma StepsFit(
    h: Hash, plan: Plan, g: Grounds, projected: seq<Digest>, atPreview: State, atSkeleton: State, atExecution: State,
    decision: GuardDecision)
    requires Ground(h, atPreview, plan.tenant, plan.approvalHash) == Ok(g)
    requires Ground(h, atSkeleton, plan.tenant, plan.approvalHash) == Ok(g)
    requires Ground(h, atExecution, plan.tenant, plan.approvalHash) == Ok(g)
    requires Projection(g.approved.payload, g.view.evidences) == Ok(projected)
    requires decision == Decide(h, plan.tenant, g.approved, g.existing, plan.record, g.view.restore)
    requires GuardMatches(h, g.approved, decision) && UniqueFor(atPreview.articles, plan.tenant)
    ensures PreviewRefresh(h, atPreview, plan.tenant, plan.Preview()).Ok?
    ensures var preview := PreviewRefresh(h, atPreview, plan.tenant, plan.Preview()).value;
            && PrepareSkeleton(h, atSkeleton, plan.tenant, plan.Prepare(preview, decision)).Ok?
            && var skeleton := PrepareSkeleton(h, atSkeleton, plan.tenant, plan.Prepare(preview, decision)).value;
               Clear(h, atExecution, plan.tenant, plan.Execute(preview, decision, skeleton)).Ok?
               <==> SourceKey(plan.tenant, g.approved.payload.proposedSourceId,
                              g.approved.payload.proposedSourceVersionId) !in atExecution.store
  {
    PreviewNeedsUniqueIds(h, atPreview, plan.tenant, plan.Preview(), g);
  }

  /** After an approval, and as long as its tenant executes nothing, the grounds stay. */
  lemma GroundsLast(h: Hash, states: seq<State>, steps: seq<Step>, i: nat, j: nat, tenant: string, approvalHash: Digest)
    requires UniqueRun(h, states, steps, tenant) && i <= j < |states| && Quiet(h, states, steps, tenant, i, j)
    requires Ground(h, states[i], tenant, approvalHash).Ok?
    ensures Ground(h, states[j], tenant, approvalHash) == Ground(h, states[i], tenant, approvalHash)
  {
    RunAppends(h, states, steps, i, j);
    QuietRun(h, states, steps, tenant, i, j);
    GroundsStay(h, states[i], states[j], tenant, approvalHash);
  }

  /** When each of the four later calls happens: in any order, after the approval. */
  datatype Moments = Moments(preview: nat, guard: nat, skeleton: nat, execution: nat) {
    predicate Between(i: nat, n: nat) {
      i <= preview <= n && i <= guard <= n && i <= skeleton <= n && i <= execution <= n
    }
  }

  /** The preview and the guard's evaluation succeed. The guard allows the write exactly when the
      proposed record is the approved one and storable and the target is unheld. If it allows,
      the skeleton succeeds, and the execution built from the answers succeeds exactly when the
      proposed source version is still absent. */
  ghost predicate GoesThrough(
    h: Hash, plan: Plan, p: ApprovalPayload, existing: Option<Article>,
    atPreview: State, atGuard: State, atSkeleton: State, atExecution: State, capturedAt: string)
  {
    var tenant := plan.tenant;
    var preview := PreviewRefresh(h, atPreview, tenant, plan.Preview());
    var decision := EvaluateGuard(h, atGuard, tenant, plan.approvalHash, plan.record);
    && preview.Ok? && decision.Ok?
    && (decision.value.payload.allowed <==> TargetFits(tenant, p, existing) && Admissible(h, tenant, p, plan.record))
    && (decision.value.payload.allowed ==>
          var skeleton := PrepareSkeleton(h, atSkeleton, tenant, plan.Prepare(preview.value, decision.value));
          && skeleton.Ok?
          && var execution := plan.Execute(preview.value, decision.value, skeleton.value);
             Execute(h, atExecution, tenant, execution, capturedAt).1.Ok? <==> plan.record.Key() !in atExecution.store)
  }

  /** The completeness theorem, for a tenant with unique ids: any approval a run makes goes through
      at any four moments after it up to which its tenant executes no write, whatever other steps
      happen in between. */
  lemma ApprovedWriteCompletes(
    h: Hash, states: seq<State>, steps: seq<Step>, i: nat, n: nat, e: ApprovalEvidence, plan: Plan, at: Moments,
    capturedAt: string)
    requires UniqueRun(h, states, steps, plan.tenant) && i < n < |states| && at.Between(i + 1, n)
    requires steps[i].ApproveStep?
    requires ApproveWrite(h, states[i], steps[i].tenant, steps[i].user, steps[i].approve, steps[i].auditEventId)
             == Ok(e)
    requires plan.tenant == steps[i].tenant && plan.approvalHash == e.hash
    requires Quiet(h, states, steps, plan.tenant, i + 1, n)
    ensures GoesThrough(
              h, plan, e.payload, FindArticle(Records(states[i].articles, plan.tenant), e.payload.articleId),
              states[at.preview], states[at.guard], states[at.skeleton], states[at.execution], capturedAt)
  {
    var g := ApprovalGrounds(h, states, steps, i, e);
    forall j | i < j <= n ensures Inv(h, states[j], plan.tenant) && Ground(h, states[j], plan.tenant, e.hash) == Ok(g) {
      RunInv(h, states, steps, plan.tenant, j);
      GroundsLast(h, states, steps, i + 1, j, plan.tenant, e.hash);
    }
    CompletesOnGrounds(h, states[at.preview], states[at.guard], states[at.skeleton], states[at.execution], g, plan,
                       capturedAt);
  }

  lemma ApprovalGrounds(h: Hash, states: seq<State>, steps: seq<Step>, i: nat, e: ApprovalEvidence) returns (g: Grounds)
    requires Run(h, states, steps) && i < |steps| && steps[i].ApproveStep?
    requires ApproveWrite(h, states[i], steps[i].tenant, steps[i].user, steps[i].approve, steps[i].auditEventId)
             == Ok(e)
    ensures Ground(h, states[i + 1], steps[i].tenant, e.hash) == Ok(g) && g.approved == e
    ensures g.existing == FindArticle(Records(states[i].articles, steps[i].tenant), e.payload.articleId)
  {
    RunSound(h, states, steps, i);
    assert Taken(h, states, steps, i);
    assert states[i + 1] == Record(states[i], e);
    ApprovalHasGrounds(h, states[i], steps[i].tenant, steps[i].user, steps[i].approve, steps[i].auditEventId, e);
    g := Ground(h, states[i + 1], steps[i].tenant, e.hash).value;
    GroundsTarget(h, states[i + 1], steps[i].tenant, e.hash, g);
  }

  lemma CompletesOnGrounds(
    h: Hash, atPreview: State, atGuard: State, atSkeleton: State, atExecution: State, g: Grounds, plan: Plan,
    capturedAt: string)
    requires CollisionFree(h) && Inv(h, atPreview, plan.tenant) && Inv(h, atGuard, plan.tenant)
    requires Inv(h, atSkeleton, plan.tenant) && Inv(h, atExecution, plan.tenant)
    requires Ground(h, atPreview, plan.tenant, plan.approvalHash) == Ok(g)
    requires Ground(h, atGuard, plan.tenant, plan.approvalHash) == Ok(g)
    requires Ground(h, atSkeleton, plan.tenant, plan.approvalHash) == Ok(g)
    requires Ground(h, atExecution, plan.tenant, plan.approvalHash) == Ok(g)
    ensures GoesThrough(h, plan, g.approved.payload, g.existing, atPreview, atGuard, atSkeleton, atExecution,
                        capturedAt)
  {
    var tenant := plan.tenant;
    GroundsProject(h, atPreview, tenant, plan.approvalHash, g);
    var projected := Projection(g.approved.payload, g.view.evidences).value;
    GuardDecides(h, atGuard, tenant, plan.approvalHash, g, plan.record);
    AllowedMatches(h, atGuard, tenant, plan.approvalHash, g, plan.record);
    var decision := Decide(h, tenant, g.approved, g.existing, plan.record, g.view.restore);
    PreviewNeedsUniqueIds(h, atPreview, tenant, plan.Preview(), g);
    if decision.payload.allowed {
      StepsFit(h, plan, g, projected, atPreview, atSkeleton, atExecution, decision);
      var preview := PreviewRefresh(h, atPreview, tenant, plan.Preview()).value;
      var skeleton := PrepareSkeleton(h, atSkeleton, tenant, plan.Prepare(preview, decision)).value;
      ExecutionIsAtomic(h, atExecution, tenant, plan.Execute(preview, decision, skeleton), capturedAt);
    }
  }

  /** On grounds the preview is answered exactly if the tenant's ids are unique. */
  lemma PreviewAnswersExactly(h: Hash, st: State, tenant: string, c: PreviewCommand)
    requires CollisionFree(h) && Sound(h, st) && Ground(h, st, tenant, c.approvalHash).Ok?
    ensures PreviewRefresh(h, st, tenant, c).Ok? <==> UniqueFor(st.articles, tenant)
  {
    var g := Ground(h, st, tenant, c.approvalHash).value;
    GroundsProject(h, st, tenant, c.approvalHash, g);
    PreviewNeedsUniqueIds(h, st, tenant, c, g);
  }
}
