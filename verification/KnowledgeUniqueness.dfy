/** Why the write protocol needs article ids to be unique within a tenant: the projection keeps one
    hash an id, the recomputed evidence one an article. */
module KnowledgeUniqueness {
  import opened Wrappers
  import opened Sorting
  import opened KnowledgeTypes
  import opened KnowledgeEvidence
  import opened KnowledgeProtocol
  import opened KnowledgeFacts
  import opened KnowledgeInvariant

  predicate Covered(evidences: seq<VersionEvidence>, id: string) {
    exists e | e in evidences :: e.payload.articleId == id
  }

  lemma CoveredSplits(evidences: seq<VersionEvidence>, id: string)
    requires evidences != []
    ensures var n := |evidences| - 1;
            Covered(evidences, id) <==> Covered(evidences[..n], id) || evidences[n].payload.articleId == id
  {
    var n := |evidences| - 1;
    assert evidences == evidences[..n] + [evidences[n]];
    assert evidences[n] in evidences;
  }

  lemma {:induction false} UpsertIds(index: HashIndex, id: string, hash: Digest, other: string)
    ensures HasId(Upsert(index, id, hash), other) <==> HasId(index, other) || other == id
    ensures |Upsert(index, id, hash)| == if HasId(index, id) then |index| else |index| + 1
  {
    if index != [] {
      UpsertIds(index[1..], id, hash, other);
      HasIdSplits(index, other);
      HasIdSplits(index, id);
      HasIdSplits(Upsert(index, id, hash), other);
      if index[0].0 == id {
        assert ([(id, hash)] + index[1..])[1..] == index[1..];
      } else {
        assert ([index[0]] + Upsert(index[1..], id, hash))[1..] == Upsert(index[1..], id, hash);
      }
    }
  }

  lemma HasIdSplits(index: HashIndex, id: string)
    requires index != []
    ensures HasId(index, id) <==> index[0].0 == id || HasId(index[1..], id)
  {
    assert index == [index[0]] + index[1..];
    assert index[0] in index;
  }

  lemma {:induction false} IndexIds(evidences: seq<VersionEvidence>, id: string)
    ensures HasId(IndexOf(evidences), id) <==> Covered(evidences, id)
  {
    if evidences != [] {
      var n := |evidences| - 1;
      IndexIds(evidences[..n], id);
      CoveredSplits(evidences, id);
      UpsertIds(IndexOf(evidences[..n]), evidences[n].payload.articleId, evidences[n].hash, id);
    }
  }

  /** The dictionary is as long as the list exactly if no id occurs twice. */
  lemma {:induction false} IndexSize(evidences: seq<VersionEvidence>)
    ensures |IndexOf(evidences)| <= |evidences|
    ensures |IndexOf(evidences)| == |evidences| ==> DistinctArticles(evidences)
  {
    if evidences != [] {
      var n := |evidences| - 1;
      var last := evidences[n];
      IndexSize(evidences[..n]);
      IndexIds(evidences[..n], last.payload.articleId);
      UpsertIds(IndexOf(evidences[..n]), last.payload.articleId, last.hash, "");
      if |IndexOf(evidences)| == |evidences| {
        forall i | 0 <= i < n ensures evidences[i].payload.articleId != last.payload.articleId {
          assert evidences[..n][i] in evidences[..n];
        }
      }
    }
  }

  lemma SortedSize(s: seq<Digest>)
    ensures |SortDigests(s)| == |s|
  {
    assert |multiset(s)| == |s| && |multiset(SortDigests(s))| == |SortDigests(s)|;
  }

  /** The projection has one hash an id, plus one for a creation. */
  lemma ProjectionSize(p: ApprovalPayload, evidences: seq<VersionEvidence>, projected: seq<Digest>)
    requires Projection(p, evidences) == Ok(projected)
    ensures |projected| == |IndexOf(SortByArticle(evidences))| + if p.operation.Create? then 1 else 0
  {
    var index := IndexOf(SortByArticle(evidences));
    if p.operation.Edit? {
      UpsertIds(index, p.articleId, p.proposedEvidenceHash, "");
      SortedSize(Values(Upsert(index, p.articleId, p.proposedEvidenceHash)));
    } else {
      SortedSize(Values(index) + [p.proposedEvidenceHash]);
    }
  }

  /** A projection is as long as the preview counts exactly if no id occurs twice. */
  lemma ProjectionOfFullSize(p: ApprovalPayload, evidences: seq<VersionEvidence>, projected: seq<Digest>)
    requires Projection(p, evidences) == Ok(projected)
    ensures |projected| == |evidences| + (if p.operation.Create? then 1 else 0) <==> DistinctArticles(evidences)
  {
    ProjectionSize(p, evidences, projected);
    var sorted := SortByArticle(evidences);
    IndexSize(sorted);
    if DistinctArticles(sorted) {
      IndexLists(sorted);
      DistinctArticlesRearranged(sorted, evidences);
    }
    if DistinctArticles(evidences) {
      DistinctArticlesRearranged(evidences, sorted);
    }
  }

  /** A write gives its tenant one more article, or as many as before. */
  lemma WriteSize(articles: seq<Article>, tenant: string, p: ApprovalPayload, record: SourceRecord, auditRef: string)
    requires ApplyWrite(articles, tenant, p, record, auditRef).Ok?
    ensures var after := ApplyWrite(articles, tenant, p, record, auditRef).value;
            |Records(after, tenant)| == |Records(articles, tenant)| + if p.operation.Create? then 1 else 0
  {
    if p.operation.Create? {
      AppendSize(articles, CreatedArticle(tenant, p, record, auditRef).value);
    } else {
      var i := TargetIndex(articles, tenant, p.articleId);
      ReplaceSize(articles, i, EditedArticle(tenant, p, record, articles[i], auditRef).value);
    }
  }

  lemma AppendSize(articles: seq<Article>, a: Article)
    ensures |Records(articles + [a], a.tenant)| == |Records(articles, a.tenant)| + 1
  {
    TenantArticlesAppend(articles, a, a.tenant);
  }

  lemma ReplaceSize(articles: seq<Article>, i: nat, a: Article)
    requires i < |articles| && articles[i].tenant == a.tenant
    ensures |Records(articles[i := a], a.tenant)| == |Records(articles, a.tenant)|
  {
    var _ := TenantArticlesReplace(articles, i, a, a.tenant);
  }

  lemma ViewSize(h: Hash, articles: seq<Article>, store: Store, tenant: string, view: View)
    requires ViewOf(h, articles, store, tenant) == Ok(view)
    ensures |view.evidences| == |view.articles| == |Records(articles, tenant)|
    ensures |view.restore.payload.evidenceHashes| == |view.evidences|
    ensures view.restore.payload.evidenceHashes == SortDigests(Hashes(view.evidences))
    ensures Distinct(view.restore.payload.evidenceHashes)
  {
    EvidencesPointwise(h, store, view.articles);
    SortedSize(Hashes(view.evidences));
  }

  lemma GroundLooks(h: Hash, st: State, tenant: string, approvalHash: Digest, g: Grounds)
    requires Ground(h, st, tenant, approvalHash) == Ok(g)
    ensures Look(h, st, tenant) == Ok(g.view)
  {
  }

  // ---- the preview ----

  lemma ProjectionDistinct(p: ApprovalPayload, evidences: seq<VersionEvidence>)
    requires Projection(p, evidences).Ok?
    ensures Distinct(Projection(p, evidences).value)
  {
  }

  /** On grounds with a projection the preview is answered exactly if the tenant's ids are unique:
      its answer counts one hash an article, the projection has one an id. */
  lemma PreviewNeedsUniqueIds(h: Hash, st: State, tenant: string, c: PreviewCommand, g: Grounds)
    requires Ground(h, st, tenant, c.approvalHash) == Ok(g) && Projection(g.approved.payload, g.view.evidences).Ok?
    ensures PreviewRefresh(h, st, tenant, c).Ok? <==> UniqueFor(st.articles, tenant)
  {
    GroundLooks(h, st, tenant, c.approvalHash, g);
    ViewSize(h, st.articles, st.store, tenant, g.view);
    ViewDistinct(h, st.articles, st.store, tenant);
    ProjectionDistinct(g.approved.payload, g.view.evidences);
    ProjectionOfFullSize(g.approved.payload, g.view.evidences, Projection(g.approved.payload, g.view.evidences).value);
  }

  // ---- the execution ----

  /** Nothing but unique ids lets an execution commit: with two articles of one id the recomputed
      hashes outnumber the projected ones. */
  lemma ExecutionNeedsUniqueIds(h: Hash, st: State, tenant: string, c: ExecutionCommand, at: string)
    requires Execute(h, st, tenant, c, at).1.Ok?
    ensures UniqueFor(st.articles, tenant)
  {
    var cleared := Clear(h, st, tenant, c).value;
    var g, p := cleared.grounds, cleared.grounds.approved.payload;
    ClearedGround(h, st, tenant, c, cleared);
    GroundLooks(h, st, tenant, c.terms.approvalHash, g);
    var after, view := Execute(h, st, tenant, c, at).0, Execute(h, st, tenant, c, at).1.value;
    Written(h, st, tenant, c, at, cleared);
    WriteSize(st.articles, tenant, p, c.record, AuditRef(c));
    ViewSize(h, after.articles, after.store, tenant, view);
    ViewSize(h, st.articles, st.store, tenant, g.view);
    ViewDistinct(h, st.articles, st.store, tenant);
    ProjectionOfFullSize(p, g.view.evidences, cleared.projected);
  }

  lemma Written(h: Hash, st: State, tenant: string, c: ExecutionCommand, at: string, cleared: Cleared)
    requires WriteAll(h, st, tenant, c, at, cleared).1.Ok?
    ensures var (after, view) := WriteAll(h, st, tenant, c, at, cleared);
            && ApplyWrite(st.articles, tenant, cleared.grounds.approved.payload, c.record, AuditRef(c))
                == Ok(after.articles)
            && Look(h, after, tenant) == view && view.value.restore.payload.evidenceHashes == cleared.projected
  {
  }

  /** The articles after the writes: the article repository can still refuse the third one. */
  function ArticlesAfter(st: State, tenant: string, c: ExecutionCommand, cleared: Cleared): seq<Article> {
    match ApplyWrite(st.articles, tenant, cleared.grounds.approved.payload, c.record, AuditRef(c))
    case Ok(articles) => articles
    case Err(_) => st.articles
  }

  /** In every sound state an execution that passes its checks stores the receipt and the source
      version, whatever comes of the rest. */
  lemma ClearedWrites(h: Hash, st: State, tenant: string, c: ExecutionCommand, at: string, cleared: Cleared)
    requires CollisionFree(h) && Sound(h, st) && Clear(h, st, tenant, c) == Ok(cleared)
    ensures c.record.Key() !in st.store && c.record.Key().tenant == tenant
    ensures Execute(h, st, tenant, c, at).0 == Committed(h, st, tenant, c, at, ArticlesAfter(st, tenant, c, cleared))
    ensures cleared.grounds.approved.payload.proposedSourceId == cleared.grounds.approved.payload.proposedVersionId
  {
    ClearedAdmits(h, st, tenant, c, cleared);
    ClearedGround(h, st, tenant, c, cleared);
    Grounded(h, st, tenant, c.terms.approvalHash, cleared.grounds);
    ReceiptAccepted(h, st, c, at);
    WritesUnfold(h, st, tenant, c, at, cleared);
  }

  lemma WritesUnfold(h: Hash, st: State, tenant: string, c: ExecutionCommand, at: string, cleared: Cleared)
    requires Clear(h, st, tenant, c) == Ok(cleared)
    requires AppendReceipt(h, st, ReceiptFor(h, c, at)).Ok?
    requires WriteGuard(h, c.record).None? && c.record.Key() !in st.store
    ensures Execute(h, st, tenant, c, at).0 == Committed(h, st, tenant, c, at, ArticlesAfter(st, tenant, c, cleared))
  {
  }

  /** With two articles of one id, every execution that passes its checks fails with its writes done. */
  lemma DuplicateIdsHalfCommit(h: Hash, st: State, tenant: string, c: ExecutionCommand, at: string)
    requires CollisionFree(h) && Sound(h, st) && Clear(h, st, tenant, c).Ok? && !UniqueFor(st.articles, tenant)
    ensures var (after, result) := Execute(h, st, tenant, c, at);
            && result.Err? && c.record.Key() !in st.store
            && after == Committed(h, st, tenant, c, at, ArticlesAfter(st, tenant, c, Clear(h, st, tenant, c).value))
  {
    ClearedWrites(h, st, tenant, c, at, Clear(h, st, tenant, c).value);
    if Execute(h, st, tenant, c, at).1.Ok? {
      ExecutionNeedsUniqueIds(h, st, tenant, c, at);
      assert false;
    }
  }

  /** The exact condition: an execution commits if and only if it passes its checks and the ids of its
      tenant are unique. If it fails, it changes nothing exactly if it has not passed its checks. */
  lemma CommitsExactly(h: Hash, st: State, tenant: string, c: ExecutionCommand, at: string)
    requires CollisionFree(h) && Sound(h, st) && SnapshotsOk(h, st, tenant)
    ensures var (after, result) := Execute(h, st, tenant, c, at);
            && (result.Ok? <==> Clear(h, st, tenant, c).Ok? && UniqueFor(st.articles, tenant))
            && (result.Err? ==> (after == st <==> Clear(h, st, tenant, c).Err?))
  {
    if Clear(h, st, tenant, c).Ok? {
      if UniqueFor(st.articles, tenant) {
        var _, _ := ClearedCommits(h, st, tenant, c, at, Clear(h, st, tenant, c).value);
      } else {
        DuplicateIdsHalfCommit(h, st, tenant, c, at);
      }
    }
  }

  // ---- what every execution keeps ----

  /** A write keeps the articles valid, leaves other tenants' articles alone, and neither makes nor
      unmakes a duplicate id. */
  lemma ApplyKeeps(articles: seq<Article>, tenant: string, p: ApprovalPayload, record: SourceRecord, auditRef: string)
    requires p.proposedSourceId == p.proposedVersionId && ApplyWrite(articles, tenant, p, record, auditRef).Ok?
    ensures var after := ApplyWrite(articles, tenant, p, record, auditRef).value;
            && (ArticlesValid(articles) ==> ArticlesValid(after))
            && (forall other :: other != tenant ==> TenantArticles(after, other) == TenantArticles(articles, other))
            && (UniqueFor(after, tenant) <==> UniqueFor(articles, tenant))
  {
    var after := ApplyWrite(articles, tenant, p, record, auditRef).value;
    if p.operation.Create? {
      var a := CreatedArticle(tenant, p, record, auditRef).value;
      AppendKeepsUnique(articles, a);
      forall other | other != tenant ensures TenantArticles(after, other) == TenantArticles(articles, other) {
        TenantArticlesAppend(articles, a, other);
      }
    } else {
      var i := TargetIndex(articles, tenant, p.articleId);
      var a := EditedArticle(tenant, p, record, articles[i], auditRef).value;
      ReplaceKeepsUnique(articles, i, a);
      forall other | other != tenant ensures TenantArticles(after, other) == TenantArticles(articles, other) {
        var _ := TenantArticlesReplace(articles, i, a, other);
      }
      assert articles[i] in articles && forall b :: b in after ==> b == a || b in articles;
    }
  }

  /** Every execution, also one that fails part-way, only adds to the stores, and of the articles
      changes none but its own tenant's. */
  lemma ExecutionKeeps(h: Hash, st: State, tenant: string, c: ExecutionCommand, at: string)
    requires CollisionFree(h) && Sound(h, st)
    ensures var after := Execute(h, st, tenant, c, at).0;
            && Sound(h, after) && after.ledger == st.ledger && Extends(st.store, after.store)
            && (forall other :: other != tenant ==>
                  TenantArticles(after.articles, other) == TenantArticles(st.articles, other))
            && (UniqueFor(after.articles, tenant) <==> UniqueFor(st.articles, tenant))
  {
    if Clear(h, st, tenant, c).Ok? {
      var cleared := Clear(h, st, tenant, c).value;
      var p := cleared.grounds.approved.payload;
      var articles := ArticlesAfter(st, tenant, c, cleared);
      ClearedWrites(h, st, tenant, c, at, cleared);
      if ApplyWrite(st.articles, tenant, p, c.record, AuditRef(c)).Ok? {
        ApplyKeeps(st.articles, tenant, p, c.record, AuditRef(c));
      }
      CommittedSound(h, st, tenant, c, at, articles);
    }
  }

  lemma CommittedSound(h: Hash, st: State, tenant: string, c: ExecutionCommand, at: string, articles: seq<Article>)
    requires Sound(h, st) && ArticlesValid(articles) && c.record.Key() !in st.store
    ensures var after := Committed(h, st, tenant, c, at, articles);
            Sound(h, after) && after.ledger == st.ledger && Extends(st.store, after.store)
  {
    CommittedReceipts(h, st, tenant, c, at, articles);
  }

  lemma CommittedReceipts(h: Hash, st: State, tenant: string, c: ExecutionCommand, at: string, articles: seq<Article>)
    requires ReceiptsOk(h, st)
    ensures ReceiptsOk(h, Committed(h, st, tenant, c, at, articles))
  {
    var r := ReceiptFor(h, c, at);
    assert r.payload.Key() == c.record.Key();
  }

  /** A view depends on the tenant's own articles and the sources they name. */
  lemma ViewStays(h: Hash, st: State, st': State, tenant: string)
    requires Look(h, st, tenant).Ok? && Extends(st.store, st'.store)
    requires TenantArticles(st'.articles, tenant) == TenantArticles(st.articles, tenant)
    ensures Look(h, st', tenant) == Look(h, st, tenant)
  {
    ViewStable(h, st.articles, st.store, st'.store, tenant);
    assert Records(st'.articles, tenant) == Records(st.articles, tenant);
  }

  /** An execution, whatever becomes of it, leaves every other tenant's articles and view alone. */
  lemma OtherTenantsUntouched(
    h: Hash, st: State, tenant: string, c: ExecutionCommand, at: string, other: string)
    requires CollisionFree(h) && Sound(h, st) && other != tenant
    ensures var after := Execute(h, st, tenant, c, at).0;
            && TenantArticles(after.articles, other) == TenantArticles(st.articles, other)
            && (Look(h, st, other).Ok? ==> Look(h, after, other) == Look(h, st, other))
  {
    ExecutionKeeps(h, st, tenant, c, at);
    var after := Execute(h, st, tenant, c, at).0;
    if Look(h, st, other).Ok? {
      ViewStays(h, st, after, other);
    }
  }
}
