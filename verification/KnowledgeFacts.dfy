/** Facts about the evidence builders: a view depends on the articles and the sources they
    name, restore evidence does not depend on listing order, and a projection is the sorted
    hashes of the evidence with one entry replaced or added. */
module KnowledgeFacts {
  import opened Wrappers
  import opened Text
  import opened Sorting
  import opened KnowledgeTypes
  import opened KnowledgeEvidence

  type Store = map<SourceKey, SourceRecord>

  predicate Extends(store: Store, store': Store) {
    forall k | k in store :: k in store' && store'[k] == store[k]
  }

  predicate UniqueIds(articles: seq<Article>) {
    forall i, j :: 0 <= i < j < |articles| ==>
      !(articles[i].tenant == articles[j].tenant && articles[i].objectId == articles[j].objectId)
  }

  lemma {:induction false} TenantArticlesMembers(articles: seq<Article>, tenant: string)
    ensures forall a :: a in TenantArticles(articles, tenant) <==> a in articles && a.tenant == tenant
  {
    if articles != [] {
      TenantArticlesMembers(articles[1..], tenant);
      assert articles == [articles[0]] + articles[1..];
    }
  }

  /** The tenant's own articles have unique ids, whatever other tenants hold. */
  predicate UniqueFor(articles: seq<Article>, tenant: string) {
    UniqueIds(TenantArticles(articles, tenant))
  }

  lemma RecordsMembers(articles: seq<Article>, tenant: string)
    ensures forall a :: a in Records(articles, tenant) <==> a in articles && a.tenant == tenant
  {
    Rearranged(TenantArticles(articles, tenant), Records(articles, tenant));
    TenantArticlesMembers(articles, tenant);
  }

  lemma UniqueIdsRearranged(s: seq<Article>, t: seq<Article>)
    requires multiset(s) == multiset(t) && UniqueIds(s)
    ensures UniqueIds(t)
  {
    assert Distinct(s);
    Rearranged(s, t);
    forall i, j | 0 <= i < j < |t| ensures !(t[i].tenant == t[j].tenant && t[i].objectId == t[j].objectId) {
      assert t[i] in s && t[j] in s && t[i] != t[j];
    }
  }

  lemma RecordsUnique(articles: seq<Article>, tenant: string)
    ensures UniqueIds(Records(articles, tenant)) <==> UniqueFor(articles, tenant)
  {
    var mine, records := TenantArticles(articles, tenant), Records(articles, tenant);
    if UniqueIds(mine) {
      UniqueIdsRearranged(mine, records);
    }
    if UniqueIds(records) {
      UniqueIdsRearranged(records, mine);
    }
  }

  lemma {:induction false} TenantArticlesAppend(articles: seq<Article>, a: Article, tenant: string)
    ensures TenantArticles(articles + [a], tenant)
            == TenantArticles(articles, tenant) + if a.tenant == tenant then [a] else []
  {
    if articles == [] {
      assert articles + [a] == [a];
      assert [a][1..] == [];
    } else {
      TenantArticlesAppend(articles[1..], a, tenant);
      assert (articles + [a])[1..] == articles[1..] + [a];
    }
  }

  /** Replacing one article replaces it in its own tenant's list and in no other's. */
  lemma {:induction false} TenantArticlesReplace(articles: seq<Article>, i: nat, a: Article, tenant: string)
    returns (j: nat)
    requires i < |articles| && articles[i].tenant == a.tenant
    ensures var mine := TenantArticles(articles, tenant);
            var mine' := TenantArticles(articles[i := a], tenant);
            if a.tenant == tenant then j < |mine| && mine[j] == articles[i] && mine' == mine[j := a] else mine' == mine
  {
    j := 0;
    if i == 0 {
      assert articles[0 := a][1..] == articles[1..];
    } else {
      assert articles[i := a][1..] == articles[1..][i - 1 := a];
      j := TenantArticlesReplace(articles[1..], i - 1, a, tenant);
      if articles[0].tenant == tenant {
        j := j + 1;
      }
    }
  }

  lemma {:induction false} FindArticleFinds(articles: seq<Article>, id: string)
    ensures var r := FindArticle(articles, id);
            && (r.Some? ==> r.value in articles && r.value.objectId == id)
            && (r.None? <==> forall a :: a in articles ==> a.objectId != id)
  {
    if articles != [] {
      var n := |articles| - 1;
      FindArticleFinds(articles[..n], id);
      assert articles == articles[..n] + [articles[n]];
    }
  }

  lemma {:induction false} FindEvidenceFinds(evidences: seq<VersionEvidence>, id: string)
    ensures var r := FindEvidence(evidences, id);
            && (r.Some? ==> r.value in evidences && r.value.payload.articleId == id)
            && (r.None? <==> forall e :: e in evidences ==> e.payload.articleId != id)
  {
    if evidences != [] {
      var n := |evidences| - 1;
      FindEvidenceFinds(evidences[..n], id);
      assert evidences == evidences[..n] + [evidences[n]];
    }
  }

  /** Evidence is gathered article by article, and fails if any one article fails. */
  lemma {:induction false} EvidencesPointwise(h: Hash, store: Store, articles: seq<Article>)
    ensures var r := LiveEvidences(h, store, articles);
            && (r.Ok? <==> forall i :: 0 <= i < |articles| ==> LiveEvidence(h, store, articles[i]).Ok?)
            && (r.Ok? ==> |r.value| == |articles|)
            && (r.Ok? ==> forall i :: 0 <= i < |articles| ==> LiveEvidence(h, store, articles[i]) == Ok(r.value[i]))
  {
    if articles != [] {
      EvidencesPointwise(h, store, articles[1..]);
      assert forall i :: 1 <= i < |articles| ==> articles[i] == articles[1..][i - 1];
    }
  }

  /** More sources in the store change nothing an article already rests on. */
  lemma ViewStable(h: Hash, articles: seq<Article>, store: Store, store': Store, tenant: string)
    requires Extends(store, store') && ViewOf(h, articles, store, tenant).Ok?
    ensures ViewOf(h, articles, store', tenant) == ViewOf(h, articles, store, tenant)
  {
    var mine := Records(articles, tenant);
    EvidencesPointwise(h, store, mine);
    EvidencesPointwise(h, store', mine);
    var old_ := LiveEvidences(h, store, mine).value;
    assert forall i :: 0 <= i < |mine| ==> LiveEvidence(h, store', mine[i]) == LiveEvidence(h, store, mine[i]);
    assert LiveEvidences(h, store', mine).value == old_;
  }

  /** Evidence built from articles one by one, as every step does it. */
  predicate EvidenceOf(h: Hash, tenant: string, articles: seq<Article>, evidences: seq<VersionEvidence>) {
    && |evidences| == |articles|
    && forall i :: 0 <= i < |articles| ==>
         && articles[i].tenant == tenant
         && evidences[i].payload.tenant == tenant
         && evidences[i].payload.articleId == articles[i].objectId
         && evidences[i].payload.SourceKeyOf() == articles[i].SourceKeyOf()
         && evidences[i].hash == h(VersionOf(evidences[i].payload))
  }

  lemma LiveEvidenceOf(h: Hash, store: Store, tenant: string, articles: seq<Article>)
    requires LiveEvidences(h, store, articles).Ok? && forall a :: a in articles ==> a.tenant == tenant
    ensures EvidenceOf(h, tenant, articles, LiveEvidences(h, store, articles).value)
  {
    EvidencesPointwise(h, store, articles);
  }

  /** No two articles share both an id and the source version they rest on. */
  predicate DistinctVersions(articles: seq<Article>) {
    forall i, j :: 0 <= i < j < |articles| ==>
      articles[i].objectId != articles[j].objectId || articles[i].SourceKeyOf() != articles[j].SourceKeyOf()
  }

  lemma DistinctHashes(h: Hash, tenant: string, articles: seq<Article>, evidences: seq<VersionEvidence>)
    requires CollisionFree(h) && DistinctVersions(articles) && EvidenceOf(h, tenant, articles, evidences)
    ensures Distinct(Hashes(evidences)) && Distinct(SortDigests(Hashes(evidences)))
  {
    var hashes := Hashes(evidences);
    forall i, j | 0 <= i < j < |hashes| ensures hashes[i] != hashes[j] {
      assert SameKind(VersionOf(evidences[i].payload), VersionOf(evidences[j].payload));
      assert evidences[i].payload != evidences[j].payload;
    }
    Rearranged(hashes, SortDigests(hashes));
  }

  /** Restore evidence over a tenant's own articles exists if they rest on different versions. */
  lemma RestoreBuilds(h: Hash, tenant: string, articles: seq<Article>, evidences: seq<VersionEvidence>)
    requires CollisionFree(h) && DistinctVersions(articles) && EvidenceOf(h, tenant, articles, evidences)
    ensures BuildRestore(h, tenant, articles, evidences).Ok?
  {
    DistinctHashes(h, tenant, articles, evidences);
    forall id ensures id in ArticleIds(articles) <==> id in CoveredIds(evidences) {
      if id in ArticleIds(articles) {
        var i :| 0 <= i < |articles| && articles[i].objectId == id;
        assert evidences[i] in evidences;
      }
      if id in CoveredIds(evidences) {
        var i :| 0 <= i < |evidences| && evidences[i].payload.articleId == id;
        assert articles[i] in articles;
      }
    }
  }

  function Without<T>(s: seq<T>, i: nat): seq<T>
    requires i < |s|
  {
    s[..i] + s[i + 1..]
  }

  lemma WithoutCounts<T>(s: seq<T>, i: nat)
    requires i < |s|
    ensures multiset(s) == multiset(Without(s, i)) + multiset{s[i]}
  {
    assert s == s[..i] + ([s[i]] + s[i + 1..]);
  }

  /** Two lists got from rearrangements of one list, item by item, are rearrangements too. */
  lemma {:induction false} ImagesRearranged<A, B>(s: seq<A>, u: seq<B>, t: seq<A>, w: seq<B>)
    requires multiset(s) == multiset(t) && |s| == |u| && |t| == |w|
    requires forall i, j :: 0 <= i < |s| && 0 <= j < |t| && s[i] == t[j] ==> u[i] == w[j]
    ensures multiset(u) == multiset(w)
    decreases |s|
  {
    if s == [] {
      assert |multiset(t)| == 0;
    } else {
      assert s[0] in multiset(t);
      var i :| 0 <= i < |t| && t[i] == s[0];
      WithoutCounts(s, 0);
      WithoutCounts(t, i);
      assert multiset(Without(s, 0)) == multiset(Without(t, i)) by {
        assert multiset(Without(s, 0)) == multiset(s) - multiset{s[0]};
        assert multiset(Without(t, i)) == multiset(t) - multiset{t[i]};
      }
      ImagesRearranged(Without(s, 0), Without(u, 0), Without(t, i), Without(w, i));
      WithoutCounts(u, 0);
      WithoutCounts(w, i);
    }
  }

  lemma HashesRearranged(s: seq<VersionEvidence>, t: seq<VersionEvidence>)
    requires multiset(s) == multiset(t)
    ensures multiset(Hashes(s)) == multiset(Hashes(t))
  {
    ImagesRearranged(s, Hashes(s), t, Hashes(t));
  }

  /** The list holds the evidence of each article. */
  predicate Gathered(h: Hash, store: Store, articles: seq<Article>, evidences: seq<VersionEvidence>) {
    && |evidences| == |articles|
    && forall i :: 0 <= i < |articles| ==> LiveEvidence(h, store, articles[i]) == Ok(evidences[i])
  }

  lemma GatheredRearranged(
    h: Hash, store: Store, s: seq<Article>, u: seq<VersionEvidence>, t: seq<Article>, w: seq<VersionEvidence>)
    requires multiset(s) == multiset(t) && Gathered(h, store, s, u) && Gathered(h, store, t, w)
    ensures multiset(u) == multiset(w)
  {
    forall i, j | 0 <= i < |s| && 0 <= j < |t| && s[i] == t[j] ensures u[i] == w[j] {
      assert LiveEvidence(h, store, s[i]) == LiveEvidence(h, store, t[j]);
    }
    ImagesRearranged(s, u, t, w);
  }

  /** Gathering evidence in another order gives the same evidence in another order. */
  lemma EvidencesRearranged(h: Hash, store: Store, s: seq<Article>, t: seq<Article>)
    requires multiset(s) == multiset(t) && LiveEvidences(h, store, s).Ok?
    ensures LiveEvidences(h, store, t).Ok?
    ensures multiset(LiveEvidences(h, store, t).value) == multiset(LiveEvidences(h, store, s).value)
  {
    EvidencesPointwise(h, store, s);
    EvidencesPointwise(h, store, t);
    Rearranged(s, t);
    forall j | 0 <= j < |t| ensures LiveEvidence(h, store, t[j]).Ok? {
      assert t[j] in s;
    }
    GatheredRearranged(h, store, s, LiveEvidences(h, store, s).value, t, LiveEvidences(h, store, t).value);
  }

  /** The projection sorts what it is given. */
  lemma ProjectionForgetsOrder(p: ApprovalPayload, s: seq<VersionEvidence>, t: seq<VersionEvidence>)
    requires multiset(s) == multiset(t) && DistinctArticles(s)
    ensures Projection(p, s) == Projection(p, t)
  {
    SortedEvidenceForgetsOrder(s, t);
  }

  lemma SortedDigestsForgetOrder(s: seq<Digest>, t: seq<Digest>)
    requires multiset(s) == multiset(t)
    ensures SortDigests(s) == SortDigests(t)
  {
    SortForgetsOrder(s, t, (a, b) => a <= b);
  }

  predicate DistinctArticles(evidences: seq<VersionEvidence>) {
    forall i, j :: 0 <= i < j < |evidences| ==> evidences[i].payload.articleId != evidences[j].payload.articleId
  }

  lemma DistinctArticlesRearranged(s: seq<VersionEvidence>, t: seq<VersionEvidence>)
    requires multiset(s) == multiset(t) && DistinctArticles(s)
    ensures DistinctArticles(t)
  {
    assert Distinct(s);
    Rearranged(s, t);
    forall i, j | 0 <= i < j < |t| ensures t[i].payload.articleId != t[j].payload.articleId {
      assert t[i] in s && t[j] in s && t[i] != t[j];
    }
  }

  /** The restore evidence of a tenant with unique ids does not depend on the order in which its
      articles are listed. */
  lemma RestoreForgetsOrder(
    h: Hash, tenant: string, articles: seq<Article>, evidences: seq<VersionEvidence>,
    articles': seq<Article>, evidences': seq<VersionEvidence>)
    requires multiset(articles) == multiset(articles') && multiset(evidences) == multiset(evidences')
    requires DistinctArticles(evidences)
    ensures BuildRestore(h, tenant, articles, evidences) == BuildRestore(h, tenant, articles', evidences')
  {
    HashesRearranged(evidences, evidences');
    SortedDigestsForgetOrder(Hashes(evidences), Hashes(evidences'));
    SortedEvidenceForgetsOrder(evidences, evidences');
    SameMembers(tenant, articles, evidences, articles', evidences');
  }

  lemma SameMembers(
    tenant: string, articles: seq<Article>, evidences: seq<VersionEvidence>, articles': seq<Article>,
    evidences': seq<VersionEvidence>)
    requires multiset(articles) == multiset(articles') && multiset(evidences) == multiset(evidences')
    ensures |articles| == |articles'| && |evidences| == |evidences'|
    ensures ArticleIds(articles) == ArticleIds(articles') && CoveredIds(evidences) == CoveredIds(evidences')
    ensures (exists a | a in articles :: a.tenant != tenant) <==> (exists a | a in articles' :: a.tenant != tenant)
    ensures (exists e | e in evidences :: e.payload.tenant != tenant)
            <==> (exists e | e in evidences' :: e.payload.tenant != tenant)
  {
    Rearranged(articles, articles');
    Rearranged(evidences, evidences');
    assert |multiset(articles)| == |articles| && |multiset(articles')| == |articles'|;
    assert |multiset(evidences)| == |evidences| && |multiset(evidences')| == |evidences'|;
  }

  lemma SortedEvidenceForgetsOrder(s: seq<VersionEvidence>, t: seq<VersionEvidence>)
    requires multiset(s) == multiset(t) && DistinctArticles(s)
    ensures SortByArticle(s) == SortByArticle(t)
  {
    var leq := (a: VersionEvidence, b: VersionEvidence) => StringLeq(a.payload.articleId, b.payload.articleId);
    forall a, b ensures leq(a, b) || leq(b, a) {
      StringLeqTotal(a.payload.articleId, b.payload.articleId);
    }
    forall a, b, c | leq(a, b) && leq(b, c) ensures leq(a, c) {
      StringLeqTransitive(a.payload.articleId, b.payload.articleId, c.payload.articleId);
    }
    forall a, b | a in s && b in s && leq(a, b) && leq(b, a) ensures a == b {
      StringLeqTotal(a.payload.articleId, b.payload.articleId);
      var i, j :| 0 <= i < |s| && 0 <= j < |s| && s[i] == a && s[j] == b;
      assert i == j;
    }
    SortForgetsOrder(s, t, leq);
  }

  lemma {:induction false} UpsertAbsent(index: HashIndex, id: string, hash: Digest)
    requires !HasId(index, id)
    ensures Upsert(index, id, hash) == index + [(id, hash)]
  {
    if index != [] {
      assert !HasId(index[1..], id);
      UpsertAbsent(index[1..], id, hash);
    }
  }

  lemma {:induction false} UpsertPresent(index: HashIndex, j: nat, hash: Digest)
    requires j < |index| && forall i :: 0 <= i < j ==> index[i].0 != index[j].0
    ensures Upsert(index, index[j].0, hash) == index[j := (index[j].0, hash)]
  {
    if j > 0 {
      UpsertPresent(index[1..], j - 1, hash);
    }
  }

  /** Over distinct articles the dictionary is just the list of pairs. */
  lemma {:induction false} IndexLists(evidences: seq<VersionEvidence>)
    requires DistinctArticles(evidences)
    ensures |IndexOf(evidences)| == |evidences|
    ensures forall i :: 0 <= i < |evidences| ==>
              IndexOf(evidences)[i] == (evidences[i].payload.articleId, evidences[i].hash)
  {
    if evidences != [] {
      var n := |evidences| - 1;
      IndexLists(evidences[..n]);
      UpsertAbsent(IndexOf(evidences[..n]), evidences[n].payload.articleId, evidences[n].hash);
    }
  }

  lemma ReplacedCounts(s: seq<Digest>, j: nat, d: Digest)
    requires j < |s|
    ensures multiset(s[j := d]) == multiset(s) - multiset{s[j]} + multiset{d}
  {
  }

  lemma EditedValues(evidences: seq<VersionEvidence>, k: nat, d: Digest)
    requires DistinctArticles(evidences) && k < |evidences|
    ensures HasId(IndexOf(evidences), evidences[k].payload.articleId)
    ensures Values(Upsert(IndexOf(evidences), evidences[k].payload.articleId, d)) == Hashes(evidences)[k := d]
  {
    IndexLists(evidences);
    assert IndexOf(evidences)[k] in IndexOf(evidences);
    UpsertPresent(IndexOf(evidences), k, d);
  }

  /** Replacing the same item's hash in two arrangements gives two arrangements again. */
  lemma ReplacedRearranged(s: seq<VersionEvidence>, k: nat, t: seq<VersionEvidence>, j: nat, d: Digest)
    requires multiset(s) == multiset(t) && k < |s| && j < |t| && s[k] == t[j]
    ensures multiset(Hashes(s)[k := d]) == multiset(Hashes(t)[j := d])
  {
    HashesRearranged(s, t);
    ReplacedCounts(Hashes(s), k, d);
    ReplacedCounts(Hashes(t), j, d);
  }

  /** An edit's projection is the sorted hashes with the edited article's hash replaced. */
  lemma EditProjection(p: ApprovalPayload, evidences: seq<VersionEvidence>, j: nat)
    requires p.operation.Edit? && DistinctArticles(evidences) && j < |evidences|
    requires evidences[j].payload.articleId == p.articleId
    ensures var hashes := SortDigests(Hashes(evidences)[j := p.proposedEvidenceHash]);
            Projection(p, evidences) == if Distinct(hashes) then Ok(hashes) else Err(ProjectionInvalid)
  {
    var sorted := SortByArticle(evidences);
    DistinctArticlesRearranged(evidences, sorted);
    assert evidences[j] in sorted by { Rearranged(evidences, sorted); }
    var k :| 0 <= k < |sorted| && sorted[k] == evidences[j];
    EditedValues(sorted, k, p.proposedEvidenceHash);
    ReplacedRearranged(sorted, k, evidences, j, p.proposedEvidenceHash);
    SortedDigestsForgetOrder(Hashes(sorted)[k := p.proposedEvidenceHash],
                             Hashes(evidences)[j := p.proposedEvidenceHash]);
  }

  /** A creation's projection is the sorted hashes with the new one added. */
  lemma CreateProjection(p: ApprovalPayload, evidences: seq<VersionEvidence>)
    requires p.operation.Create? && DistinctArticles(evidences)
    requires forall e :: e in evidences ==> e.payload.articleId != p.articleId
    ensures var hashes := SortDigests(Hashes(evidences) + [p.proposedEvidenceHash]);
            Projection(p, evidences) == if Distinct(hashes) then Ok(hashes) else Err(ProjectionInvalid)
  {
    var sorted := SortByArticle(evidences);
    DistinctArticlesRearranged(evidences, sorted);
    Rearranged(evidences, sorted);
    IndexLists(sorted);
    var index := IndexOf(sorted);
    assert !HasId(index, p.articleId) by {
      forall i | 0 <= i < |index| ensures index[i].0 != p.articleId {
        assert sorted[i] in evidences;
      }
    }
    assert Values(index) == Hashes(sorted);
    HashesRearranged(evidences, sorted);
    SortedDigestsForgetOrder(Hashes(sorted) + [p.proposedEvidenceHash], Hashes(evidences) + [p.proposedEvidenceHash]);
  }
}
