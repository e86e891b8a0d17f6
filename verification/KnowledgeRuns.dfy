/** Whole runs of the write protocol: the invariant, the ledger's lineage, snapshots that never
    come back, and executions that cannot fail once everything before them succeeded. */
module KnowledgeRuns {
  import opened Wrappers
  import opened KnowledgeTypes
  import opened KnowledgeEvidence
  import opened KnowledgeProtocol
  import opened KnowledgeFacts
  import opened KnowledgeInvariant
  import opened KnowledgeUniqueness

  lemma InitialInv(h: Hash, st: State)
    requires Initial(st)
    ensures Sound(h, st) && forall tenant :: UniqueFor(st.articles, tenant) ==> Inv(h, st, tenant)
  {
  }

  predicate LedgerExtends(ledger: map<LedgerKey, ApprovalEvidence>, ledger': map<LedgerKey, ApprovalEvidence>) {
    forall k :: k in ledger ==> k in ledger' && ledger'[k] == ledger[k]
  }

  lemma KeyStaysFree(articles: seq<Article>, articles': seq<Article>, tenant: string, key: string)
    requires TenantArticles(articles', tenant) == TenantArticles(articles, tenant)
    ensures KeyFree(articles', tenant, key) <==> KeyFree(articles, tenant, key)
  {
    TenantArticlesMembers(articles, tenant);
    TenantArticlesMembers(articles', tenant);
    forall b: Article | b.tenant == tenant ensures b in articles' <==> b in articles {
      assert b in articles <==> b in TenantArticles(articles, tenant);
    }
  }

  /** A snapshot stays sound while its tenant's articles stand still and the store grows. */
  lemma SnapshotOkStays(h: Hash, st: State, st': State, p: ApprovalPayload)
    requires SnapshotOk(h, st, p) && Extends(st.store, st'.store)
    requires TenantArticles(st'.articles, p.tenant) == TenantArticles(st.articles, p.tenant)
    ensures SnapshotOk(h, st', p)
  {
    StoredSnapshotsStay(h, st.store, st'.store, p.snapshotHash);
    ViewStays(h, st, st', p.tenant);
    KeyStaysFree(st.articles, st'.articles, p.tenant, p.articleKey);
  }

  /** So do all of a tenant's, while the ledger gets no entry of that tenant. */
  lemma SnapshotsStay(h: Hash, st: State, st': State, tenant: string)
    requires LineageOk(h, st.ledger) && SnapshotsOk(h, st, tenant) && Extends(st.store, st'.store)
    requires TenantArticles(st'.articles, tenant) == TenantArticles(st.articles, tenant)
    requires forall k :: k in st'.ledger && k.tenant == tenant ==> k in st.ledger && st'.ledger[k] == st.ledger[k]
    ensures SnapshotsOk(h, st', tenant)
  {
    forall k | k in st'.ledger && k.tenant == tenant ensures SnapshotOk(h, st', st'.ledger[k].payload) {
      SnapshotOkStays(h, st, st', st.ledger[k].payload);
    }
  }

  // ---- the ledger ----

  lemma EntryOkStays(
    ledger: map<LedgerKey, ApprovalEvidence>, ledger': map<LedgerKey, ApprovalEvidence>, e: ApprovalEvidence)
    requires EntryOk(ledger, e) && LedgerExtends(ledger, ledger')
    ensures EntryOk(ledger', e)
  {
  }

  /** Appending an entry that is sound by itself and shares no source with another keeps the lineage. */
  lemma AppendKeepsLineage(h: Hash, ledger: map<LedgerKey, ApprovalEvidence>, e: ApprovalEvidence)
    requires LineageOk(h, ledger) && LedgerKey(e.payload.tenant, e.hash) !in ledger
    requires e.hash == h(ApprovalOf(e.payload)) && EntryOk(ledger, e)
    requires forall k :: k in ledger ==> !SameSource(ledger[k].payload, e.payload)
    ensures LineageOk(h, ledger[LedgerKey(e.payload.tenant, e.hash) := e])
  {
    var ledger' := ledger[LedgerKey(e.payload.tenant, e.hash) := e];
    forall k | k in ledger' ensures EntryOk(ledger', ledger'[k]) {
      EntryOkStays(ledger, ledger', ledger'[k]);
    }
  }

  lemma DryRunSnapshotOk(
    h: Hash, st: State, tenant: string, user: string, c: WriteCommand, audit: string, e: ApprovalEvidence)
    requires DryRunWrite(h, st, tenant, user, c, audit) == Ok(e)
    ensures SnapshotOk(h, st, e.payload)
  {
    ViewStored(h, st.articles, st.store, tenant);
    RecordsMembers(st.articles, tenant);
  }

  lemma DryRunIsSound(
    h: Hash, st: State, tenant: string, user: string, c: WriteCommand, audit: string, e: ApprovalEvidence)
    requires DryRunWrite(h, st, tenant, user, c, audit) == Ok(e)
    ensures EntryOk(st.ledger, e) && e.payload.tenant == tenant && e.payload.state.DryRun?
    ensures LedgerKey(tenant, e.hash) !in st.ledger && e.hash == h(ApprovalOf(e.payload))
    ensures e.payload.transitionSource.None? && ProposalHashed(h, e.payload)
  {
    assert ProposedEvidence(h, tenant, c).payload.articleId == e.payload.articleId;
  }

  /** A new entry keeps the invariant if its own snapshot is sound. */
  lemma RecordKeepsSnapshots(h: Hash, st: State, e: ApprovalEvidence, tenant: string)
    requires LineageOk(h, st.ledger) && SnapshotsOk(h, st, tenant)
    requires e.payload.tenant == tenant ==> SnapshotOk(h, st, e.payload)
    ensures SnapshotsOk(h, Record(st, e), tenant)
  {
    var st' := Record(st, e);
    forall k | k in st'.ledger && k.tenant == tenant ensures SnapshotOk(h, st', st'.ledger[k].payload) {
      SnapshotOkStays(h, st, st', st'.ledger[k].payload);
    }
  }

  lemma DryRunKeepsSound(
    h: Hash, st: State, tenant: string, user: string, c: WriteCommand, audit: string, e: ApprovalEvidence)
    requires Sound(h, st) && DryRunWrite(h, st, tenant, user, c, audit) == Ok(e)
    ensures Sound(h, Record(st, e))
  {
    DryRunIsSound(h, st, tenant, user, c, audit, e);
    AppendKeepsLineage(h, st.ledger, e);
  }

  lemma DryRunKeepsInv(
    h: Hash, st: State, tenant: string, user: string, c: WriteCommand, audit: string, e: ApprovalEvidence,
    mine: string)
    requires Inv(h, st, mine) && DryRunWrite(h, st, tenant, user, c, audit) == Ok(e)
    ensures Inv(h, Record(st, e), mine)
  {
    DryRunKeepsSound(h, st, tenant, user, c, audit, e);
    DryRunSnapshotOk(h, st, tenant, user, c, audit, e);
    RecordKeepsSnapshots(h, st, e, mine);
  }

  lemma ApprovalIsSound(
    h: Hash, st: State, tenant: string, user: string, c: ApproveCommand, audit: string, e: ApprovalEvidence)
    requires LineageOk(h, st.ledger) && ApproveWrite(h, st, tenant, user, c, audit) == Ok(e)
    ensures var source := LedgerKey(tenant, c.dryRunHash);
            && source in st.ledger && st.ledger[source].payload.state.DryRun?
            && SameProposal(st.ledger[source].payload, e.payload)
            && Look(h, st, tenant).Ok? && Look(h, st, tenant).value.restore.hash == e.payload.snapshotHash
    ensures EntryOk(st.ledger, e) && e.payload.tenant == tenant && e.payload.state.ApprovedForWrite?
    ensures LedgerKey(tenant, e.hash) !in st.ledger && e.hash == h(ApprovalOf(e.payload))
    ensures forall k :: k in st.ledger ==> !SameSource(st.ledger[k].payload, e.payload)
  {
    var source := LedgerKey(tenant, c.dryRunHash);
    var dryRun := st.ledger[source];
    assert EntryOk(st.ledger, dryRun);
    forall k | k in st.ledger ensures !SameSource(st.ledger[k].payload, e.payload) {
      assert EntryOk(st.ledger, st.ledger[k]);
      assert k.tenant == tenant ==> !Approves(st.ledger[k], tenant, dryRun.hash);
    }
  }

  lemma ApproveKeepsSound(
    h: Hash, st: State, tenant: string, user: string, c: ApproveCommand, audit: string, e: ApprovalEvidence)
    requires Sound(h, st) && ApproveWrite(h, st, tenant, user, c, audit) == Ok(e)
    ensures Sound(h, Record(st, e))
  {
    ApprovalIsSound(h, st, tenant, user, c, audit, e);
    AppendKeepsLineage(h, st.ledger, e);
  }

  lemma ApproveKeepsInv(
    h: Hash, st: State, tenant: string, user: string, c: ApproveCommand, audit: string, e: ApprovalEvidence,
    mine: string)
    requires Inv(h, st, mine) && ApproveWrite(h, st, tenant, user, c, audit) == Ok(e)
    ensures Inv(h, Record(st, e), mine)
  {
    ApproveKeepsSound(h, st, tenant, user, c, audit, e);
    ApprovalIsSound(h, st, tenant, user, c, audit, e);
    if tenant == mine {
      var source := st.ledger[LedgerKey(tenant, c.dryRunHash)];
      assert SnapshotOk(h, st, source.payload);
    }
    RecordKeepsSnapshots(h, st, e, mine);
  }

  // ---- execution ----

  lemma ViewHashed(h: Hash, st: State, tenant: string, view: View)
    requires Look(h, st, tenant) == Ok(view)
    ensures view.restore.hash == h(RestoreOf(view.restore.payload))
  {
  }

  /** An execution leaves the tenant a snapshot that rests on a source version nobody had. */
  lemma ExecutionIsFresh(h: Hash, st: State, tenant: string, c: ExecutionCommand, at: string)
    requires CollisionFree(h) && Inv(h, st, tenant) && Execute(h, st, tenant, c, at).1.Ok?
    ensures var after := Execute(h, st, tenant, c, at).0;
            Look(h, after, tenant).Ok? && !SnapshotStored(h, st.store, Look(h, after, tenant).value.restore.hash)
  {
    var cleared := Clear(h, st, tenant, c).value;
    var _, _ := ClearedCommits(h, st, tenant, c, at, cleared);
    var view := Execute(h, st, tenant, c, at).1.value;
    ViewHashed(h, Execute(h, st, tenant, c, at).0, tenant, view);
    FreshSnapshot(h, st.store, WrittenEvidence(h, tenant, c, cleared.grounds.approved.payload), view.restore);
  }

  /** All or nothing: an execution commits exactly when it passes the checks before its first
      write, and otherwise changes nothing. */
  lemma ExecutionIsAtomic(h: Hash, st: State, tenant: string, c: ExecutionCommand, at: string)
    requires CollisionFree(h) && Inv(h, st, tenant)
    ensures Execute(h, st, tenant, c, at).1.Ok? <==> Clear(h, st, tenant, c).Ok?
    ensures Execute(h, st, tenant, c, at).1.Err? ==> Execute(h, st, tenant, c, at).0 == st
  {
    CommitsExactly(h, st, tenant, c, at);
  }

  /** An execution of one tenant keeps the invariant of every tenant. */
  lemma ExecuteKeepsInv(h: Hash, st: State, tenant: string, c: ExecutionCommand, at: string, mine: string)
    requires CollisionFree(h) && Inv(h, st, mine)
    ensures Inv(h, Execute(h, st, tenant, c, at).0, mine)
  {
    ExecutionKeeps(h, st, tenant, c, at);
    var after := Execute(h, st, tenant, c, at).0;
    if tenant != mine {
      SnapshotsStay(h, st, after, mine);
    } else {
      ExecutionIsAtomic(h, st, tenant, c, at);
      if Execute(h, st, tenant, c, at).1.Ok? {
        ExecutionIsFresh(h, st, tenant, c, at);
        forall k | k in after.ledger && k.tenant == mine ensures SnapshotOk(h, after, after.ledger[k].payload) {
          StoredSnapshotsStay(h, st.store, after.store, st.ledger[k].payload.snapshotHash);
        }
      }
    }
  }

  // ---- one step ----

  lemma NextKeepsSound(h: Hash, st: State, s: Step)
    requires CollisionFree(h) && Sound(h, st)
    ensures Sound(h, Next(h, st, s))
    ensures forall tenant :: UniqueFor(Next(h, st, s).articles, tenant) <==> UniqueFor(st.articles, tenant)
  {
    match s
    case DryRunStep(t, user, c, audit) =>
      if DryRunWrite(h, st, t, user, c, audit).Ok? {
        DryRunKeepsSound(h, st, t, user, c, audit, DryRunWrite(h, st, t, user, c, audit).value);
      }
    case ApproveStep(t, user, c, audit) =>
      if ApproveWrite(h, st, t, user, c, audit).Ok? {
        ApproveKeepsSound(h, st, t, user, c, audit, ApproveWrite(h, st, t, user, c, audit).value);
      }
    case ExecuteStep(t, c, at) => ExecutionKeeps(h, st, t, c, at);
    case ForeignSource(record) =>
      if AddSource(h, st.store, record).Ok? {
        assert st.store.Keys <= AddSource(h, st.store, record).value.Keys;
      }
  }

  lemma ForeignKeepsInv(h: Hash, st: State, store: Store, tenant: string)
    requires Inv(h, st, tenant) && Extends(st.store, store)
    ensures Inv(h, st.(store := store), tenant)
  {
    assert st.store.Keys <= store.Keys;
    SnapshotsStay(h, st, st.(store := store), tenant);
  }

  /** Every step of any tenant, and any other writer of the source store, keeps the invariant of each
      tenant. */
  lemma NextKeepsInv(h: Hash, st: State, s: Step, tenant: string)
    requires CollisionFree(h) && Inv(h, st, tenant)
    ensures Inv(h, Next(h, st, s), tenant)
  {
    match s
    case DryRunStep(t, user, c, audit) =>
      if DryRunWrite(h, st, t, user, c, audit).Ok? {
        DryRunKeepsInv(h, st, t, user, c, audit, DryRunWrite(h, st, t, user, c, audit).value, tenant);
      }
    case ApproveStep(t, user, c, audit) =>
      if ApproveWrite(h, st, t, user, c, audit).Ok? {
        ApproveKeepsInv(h, st, t, user, c, audit, ApproveWrite(h, st, t, user, c, audit).value, tenant);
      }
    case ExecuteStep(t, c, at) => ExecuteKeepsInv(h, st, t, c, at, tenant);
    case ForeignSource(record) =>
      if AddSource(h, st.store, record).Ok? {
        StoreExtends(st.store, record.Key(), record);
        ForeignKeepsInv(h, st, AddSource(h, st.store, record).value, tenant);
      }
  }

  /** Nothing has been taken from the ledger or the store, or changed in them. */
  predicate Appended(st: State, st': State) {
    LedgerExtends(st.ledger, st'.ledger) && Extends(st.store, st'.store)
  }

  lemma RecordAppends(st: State, e: ApprovalEvidence)
    requires LedgerKey(e.payload.tenant, e.hash) !in st.ledger
    ensures Appended(st, Record(st, e))
  {
  }

  lemma DryRunAppends(
    h: Hash, st: State, tenant: string, user: string, c: WriteCommand, audit: string, e: ApprovalEvidence)
    requires DryRunWrite(h, st, tenant, user, c, audit) == Ok(e)
    ensures Appended(st, Record(st, e))
  {
    DryRunIsSound(h, st, tenant, user, c, audit, e);
    RecordAppends(st, e);
  }

  lemma ApproveAppends(
    h: Hash, st: State, tenant: string, user: string, c: ApproveCommand, audit: string, e: ApprovalEvidence)
    requires LineageOk(h, st.ledger) && ApproveWrite(h, st, tenant, user, c, audit) == Ok(e)
    ensures Appended(st, Record(st, e))
  {
    ApprovalIsSound(h, st, tenant, user, c, audit, e);
    RecordAppends(st, e);
  }

  lemma NextAppends(h: Hash, st: State, s: Step)
    requires CollisionFree(h) && Sound(h, st)
    ensures Appended(st, Next(h, st, s))
  {
    match s
    case DryRunStep(t, user, c, audit) =>
      var r := DryRunWrite(h, st, t, user, c, audit);
      if r.Ok? {
        DryRunAppends(h, st, t, user, c, audit, r.value);
      }
    case ApproveStep(t, user, c, audit) =>
      var r := ApproveWrite(h, st, t, user, c, audit);
      if r.Ok? {
        ApproveAppends(h, st, t, user, c, audit, r.value);
      }
    case ExecuteStep(t, c, at) => ExecutionKeeps(h, st, t, c, at);
    case ForeignSource(_) =>
  }

  /** The tenant's view is well-formed and the same in both states, and so are its articles. */
  predicate SameView(h: Hash, st: State, st': State, tenant: string) {
    && Look(h, st, tenant).Ok? && Look(h, st', tenant) == Look(h, st, tenant)
    && TenantArticles(st'.articles, tenant) == TenantArticles(st.articles, tenant)
  }

  lemma QuietExecution(h: Hash, st: State, t: string, c: ExecutionCommand, at: string, tenant: string)
    requires CollisionFree(h) && Inv(h, st, tenant) && Look(h, st, tenant).Ok?
    requires t == tenant ==> Execute(h, st, t, c, at).1.Err?
    ensures SameView(h, st, Execute(h, st, t, c, at).0, tenant)
  {
    if t == tenant {
      ExecutionIsAtomic(h, st, tenant, c, at);
    } else {
      OtherTenantsUntouched(h, st, t, c, at, tenant);
    }
  }

  lemma MoreSourcesSameView(h: Hash, st: State, st': State, tenant: string)
    requires Look(h, st, tenant).Ok? && st'.articles == st.articles && Extends(st.store, st'.store)
    ensures SameView(h, st, st', tenant)
  {
    ViewStable(h, st.articles, st.store, st'.store, tenant);
  }

  /** A step that executes nothing for a tenant leaves its view as it was. */
  lemma QuietStep(h: Hash, st: State, s: Step, tenant: string)
    requires CollisionFree(h) && Inv(h, st, tenant) && Look(h, st, tenant).Ok? && !Executes(h, st, s, tenant)
    ensures SameView(h, st, Next(h, st, s), tenant)
  {
    if s.ExecuteStep? {
      QuietExecution(h, st, s.tenant, s.execute, s.capturedAt, tenant);
    } else {
      NextAppends(h, st, s);
      MoreSourcesSameView(h, st, Next(h, st, s), tenant);
    }
  }

  // ---- runs ----

  predicate Taken(h: Hash, states: seq<State>, steps: seq<Step>, i: nat) {
    i < |steps| && i + 1 < |states| && states[i + 1] == Next(h, states[i], steps[i])
  }

  ghost predicate Run(h: Hash, states: seq<State>, steps: seq<Step>) {
    && CollisionFree(h) && |states| == |steps| + 1 && Initial(states[0])
    && forall i :: 0 <= i < |steps| ==> Taken(h, states, steps, i)
  }

  /** A run in which the tenant started with unique ids. */
  ghost predicate UniqueRun(h: Hash, states: seq<State>, steps: seq<Step>, tenant: string) {
    Run(h, states, steps) && UniqueFor(states[0].articles, tenant)
  }

  lemma {:induction false} RunSound(h: Hash, states: seq<State>, steps: seq<Step>, i: nat)
    requires Run(h, states, steps) && i < |states|
    ensures Sound(h, states[i])
    ensures forall tenant :: UniqueFor(states[i].articles, tenant) <==> UniqueFor(states[0].articles, tenant)
  {
    if i == 0 {
      InitialInv(h, states[0]);
    } else {
      RunSound(h, states, steps, i - 1);
      assert Taken(h, states, steps, i - 1);
      NextKeepsSound(h, states[i - 1], steps[i - 1]);
    }
  }

  lemma {:induction false} RunInv(h: Hash, states: seq<State>, steps: seq<Step>, tenant: string, i: nat)
    requires UniqueRun(h, states, steps, tenant) && i < |states|
    ensures Inv(h, states[i], tenant)
  {
    if i == 0 {
      InitialInv(h, states[0]);
    } else {
      RunInv(h, states, steps, tenant, i - 1);
      assert Taken(h, states, steps, i - 1);
      NextKeepsInv(h, states[i - 1], steps[i - 1], tenant);
    }
  }

  /** A tenant that executes a write has had unique ids from the start. */
  lemma ExecutorsAreUnique(h: Hash, states: seq<State>, steps: seq<Step>, tenant: string, i: nat)
    requires Run(h, states, steps) && i < |steps| && Executes(h, states[i], steps[i], tenant)
    ensures UniqueFor(states[0].articles, tenant)
  {
    RunSound(h, states, steps, i);
    ExecutionNeedsUniqueIds(h, states[i], tenant, steps[i].execute, steps[i].capturedAt);
  }

  /** The exact condition, over runs: an execution commits if and only if it passes its checks and its
      tenant started with unique ids. One that fails has changed something exactly if it passed its
      checks, and then the ids were not unique. */
  lemma ExecutesExactly(h: Hash, states: seq<State>, steps: seq<Step>, i: nat)
    requires Run(h, states, steps) && i < |steps| && steps[i].ExecuteStep?
    ensures var tenant := steps[i].tenant;
            var cleared := Clear(h, states[i], tenant, steps[i].execute).Ok?;
            && (Executes(h, states[i], steps[i], tenant) <==> cleared && UniqueFor(states[0].articles, tenant))
            && (states[i + 1] != states[i] <==> cleared)
  {
    var tenant := steps[i].tenant;
    RunSound(h, states, steps, i);
    assert Taken(h, states, steps, i);
    if UniqueFor(states[0].articles, tenant) {
      RunInv(h, states, steps, tenant, i);
      CommitsExactly(h, states[i], tenant, steps[i].execute, steps[i].capturedAt);
    }
    if Clear(h, states[i], tenant, steps[i].execute).Ok? {
      var cleared := Clear(h, states[i], tenant, steps[i].execute).value;
      ClearedWrites(h, states[i], tenant, steps[i].execute, steps[i].capturedAt, cleared);
      if !UniqueFor(states[0].articles, tenant) {
        DuplicateIdsHalfCommit(h, states[i], tenant, steps[i].execute, steps[i].capturedAt);
      }
    }
  }

  lemma RunStepAppends(h: Hash, states: seq<State>, steps: seq<Step>, i: nat)
    requires Run(h, states, steps) && i < |steps|
    ensures Appended(states[i], states[i + 1])
  {
    RunSound(h, states, steps, i);
    assert Taken(h, states, steps, i);
    NextAppends(h, states[i], steps[i]);
  }

  lemma {:induction false} RunAppends(h: Hash, states: seq<State>, steps: seq<Step>, i: nat, j: nat)
    requires Run(h, states, steps) && i <= j < |states|
    ensures Appended(states[i], states[j])
  {
    if i < j {
      RunAppends(h, states, steps, i, j - 1);
      RunStepAppends(h, states, steps, j - 1);
      AppendedTwice(states[i], states[j - 1], states[j]);
    }
  }

  lemma AppendedTwice(st: State, st': State, st'': State)
    requires Appended(st, st') && Appended(st', st'')
    ensures Appended(st, st'')
  {
  }

  /** The ledger holds the dry run an approval names, with the same proposal hashes. */
  predicate DryRunBehind(ledger: map<LedgerKey, ApprovalEvidence>, e: ApprovalPayload) {
    && e.transitionSource.Some?
    && var source := LedgerKey(e.tenant, e.transitionSource.value);
       && source in ledger && ledger[source].payload.state.DryRun?
       && ledger[source].payload.commandHash == e.commandHash
       && ledger[source].payload.proposedEvidenceHash == e.proposedEvidenceHash
       && ledger[source].payload.snapshotHash == e.snapshotHash
  }

  /** Ledger lineage in every reachable state: entries stand for good, each approval names one
      dry run of its tenant with the same proposal, and no dry run is approved twice. */
  lemma LedgerLineage(h: Hash, states: seq<State>, steps: seq<Step>, i: nat, j: nat, k: LedgerKey)
    requires Run(h, states, steps) && i <= j < |states| && k in states[i].ledger
    ensures k in states[j].ledger && states[j].ledger[k] == states[i].ledger[k]
    ensures var e := states[i].ledger[k].payload;
            e.state.DryRun? || (e.state.ApprovedForWrite? && e.transitionSource.Some?)
    ensures var e := states[i].ledger[k].payload;
            e.state.ApprovedForWrite? ==>
              && DryRunBehind(states[i].ledger, e)
              && forall l :: l in states[j].ledger && SameSource(e, states[j].ledger[l].payload) ==> l == k
  {
    RunSound(h, states, steps, i);
    RunSound(h, states, steps, j);
    RunAppends(h, states, steps, i, j);
    assert EntryOk(states[i].ledger, states[i].ledger[k]);
  }

  ghost predicate Quiet(h: Hash, states: seq<State>, steps: seq<Step>, tenant: string, i: nat, j: nat)
    requires |states| == |steps| + 1 && i <= j < |states|
  {
    forall k {:trigger Executes(h, states[k], steps[k], tenant)} :: i <= k < j ==>
        !Executes(h, states[k], steps[k], tenant)
  }

  /** Quiet until the last step, and at it. */
  lemma QuietSplits(h: Hash, states: seq<State>, steps: seq<Step>, tenant: string, i: nat, j: nat)
    requires |states| == |steps| + 1 && i < j < |states| && Quiet(h, states, steps, tenant, i, j)
    ensures Quiet(h, states, steps, tenant, i, j - 1) && Quiet(h, states, steps, tenant, j - 1, j)
  {
  }

  lemma SameViewTwice(h: Hash, st: State, st': State, st'': State, tenant: string)
    requires SameView(h, st, st', tenant) && SameView(h, st', st'', tenant)
    ensures SameView(h, st, st'', tenant)
  {
  }

  lemma {:induction false} QuietRun(h: Hash, states: seq<State>, steps: seq<Step>, tenant: string, i: nat, j: nat)
    requires UniqueRun(h, states, steps, tenant) && i <= j < |states| && Look(h, states[i], tenant).Ok?
    requires Quiet(h, states, steps, tenant, i, j)
    ensures SameView(h, states[i], states[j], tenant)
  {
    if i < j {
      QuietSplits(h, states, steps, tenant, i, j);
      QuietRun(h, states, steps, tenant, i, j - 1);
      RunStepQuiet(h, states, steps, tenant, j - 1);
      SameViewTwice(h, states[i], states[j - 1], states[j], tenant);
    }
  }

  lemma RunStepQuiet(h: Hash, states: seq<State>, steps: seq<Step>, tenant: string, i: nat)
    requires UniqueRun(h, states, steps, tenant) && i < |steps| && Look(h, states[i], tenant).Ok?
    requires Quiet(h, states, steps, tenant, i, i + 1)
    ensures SameView(h, states[i], states[i + 1], tenant)
  {
    RunInv(h, states, steps, tenant, i);
    assert Taken(h, states, steps, i);
    QuietStep(h, states[i], steps[i], tenant);
  }

  /** The tenant's view is well-formed and its snapshot is another one. */
  predicate MovedFrom(h: Hash, st: State, tenant: string, hash: Digest) {
    Look(h, st, tenant).Ok? && Look(h, st, tenant).value.restore.hash != hash
  }

  lemma ExecutionMoves(h: Hash, st: State, s: Step, tenant: string, hash: Digest)
    requires CollisionFree(h) && Inv(h, st, tenant) && Executes(h, st, s, tenant) && SnapshotStored(h, st.store, hash)
    ensures MovedFrom(h, Next(h, st, s), tenant, hash)
  {
    ExecutionIsFresh(h, st, tenant, s.execute, s.capturedAt);
  }

  lemma QuietKeepsMoved(h: Hash, st: State, s: Step, tenant: string, hash: Digest)
    requires CollisionFree(h) && Inv(h, st, tenant) && MovedFrom(h, st, tenant, hash) && !Executes(h, st, s, tenant)
    ensures MovedFrom(h, Next(h, st, s), tenant, hash)
  {
    QuietStep(h, st, s, tenant);
  }

  lemma RunStepMoves(h: Hash, states: seq<State>, steps: seq<Step>, tenant: string, i: nat, hash: Digest)
    requires UniqueRun(h, states, steps, tenant) && i < |steps| && SnapshotStored(h, states[i].store, hash)
    requires Executes(h, states[i], steps[i], tenant) || MovedFrom(h, states[i], tenant, hash)
    ensures MovedFrom(h, states[i + 1], tenant, hash)
  {
    RunInv(h, states, steps, tenant, i);
    assert Taken(h, states, steps, i);
    if Executes(h, states[i], steps[i], tenant) {
      ExecutionMoves(h, states[i], steps[i], tenant, hash);
    } else {
      QuietKeepsMoved(h, states[i], steps[i], tenant, hash);
    }
  }

  lemma RunStepKeepsMoved(h: Hash, states: seq<State>, steps: seq<Step>, tenant: string, i: nat, hash: Digest)
    requires UniqueRun(h, states, steps, tenant) && i < |steps|
    requires SnapshotStored(h, states[i].store, hash) && MovedFrom(h, states[i], tenant, hash)
    ensures SnapshotStored(h, states[i + 1].store, hash) && MovedFrom(h, states[i + 1], tenant, hash)
  {
    RunStepMoves(h, states, steps, tenant, i, hash);
    SnapshotStaysStored(h, states, steps, i, i + 1, hash);
  }

  /** A stored snapshot the tenant has moved from does not come back. */
  lemma {:induction false} SnapshotLeftBehind(
    h: Hash, states: seq<State>, steps: seq<Step>, tenant: string, i: nat, j: nat, hash: Digest)
    requires UniqueRun(h, states, steps, tenant) && i <= j < |states|
    requires SnapshotStored(h, states[i].store, hash) && MovedFrom(h, states[i], tenant, hash)
    ensures MovedFrom(h, states[j], tenant, hash)
    decreases j - i
  {
    if i < j {
      RunStepKeepsMoved(h, states, steps, tenant, i, hash);
      SnapshotLeftBehind(h, states, steps, tenant, i + 1, j, hash);
    }
  }

  /** Once a tenant executes a write, no snapshot resting on earlier sources comes back. */
  lemma NotQuietMoves(h: Hash, states: seq<State>, steps: seq<Step>, tenant: string, i: nat, j: nat, hash: Digest)
    requires Run(h, states, steps) && i <= j < |states| && !Quiet(h, states, steps, tenant, i, j)
    requires SnapshotStored(h, states[i].store, hash)
    ensures MovedFrom(h, states[j], tenant, hash)
  {
    var k :| i <= k < j && Executes(h, states[k], steps[k], tenant);
    ExecutorsAreUnique(h, states, steps, tenant, k);
    SnapshotStaysStored(h, states, steps, i, k, hash);
    RunStepMoves(h, states, steps, tenant, k, hash);
    SnapshotStaysStored(h, states, steps, i, k + 1, hash);
    SnapshotLeftBehind(h, states, steps, tenant, k + 1, j, hash);
  }

  lemma SnapshotStaysStored(h: Hash, states: seq<State>, steps: seq<Step>, i: nat, j: nat, hash: Digest)
    requires Run(h, states, steps) && i <= j < |states| && SnapshotStored(h, states[i].store, hash)
    ensures SnapshotStored(h, states[j].store, hash)
  {
    RunAppends(h, states, steps, i, j);
    StoredSnapshotsStay(h, states[i].store, states[j].store, hash);
  }

  /** No ABA: a tenant's restore-evidence hash is the same at two moments exactly when it
      executed no write in between, and then its articles are the same too. */
  lemma SnapshotNeverReturns(h: Hash, states: seq<State>, steps: seq<Step>, tenant: string, i: nat, j: nat)
    requires UniqueRun(h, states, steps, tenant) && i <= j < |states| && Look(h, states[i], tenant).Ok?
    ensures Look(h, states[j], tenant).Ok?
    ensures Look(h, states[j], tenant).value.restore.hash == Look(h, states[i], tenant).value.restore.hash
            <==> Quiet(h, states, steps, tenant, i, j)
    ensures Quiet(h, states, steps, tenant, i, j) ==>
              TenantArticles(states[j].articles, tenant) == TenantArticles(states[i].articles, tenant)
  {
    if Quiet(h, states, steps, tenant, i, j) {
      QuietRun(h, states, steps, tenant, i, j);
    } else {
      ViewStored(h, states[i].articles, states[i].store, tenant);
      NotQuietMoves(h, states, steps, tenant, i, j, Look(h, states[i], tenant).value.restore.hash);
    }
  }

  lemma StaleHasNoGrounds(h: Hash, st: State, key: LedgerKey, c: ExecutionCommand)
    requires key in st.ledger && c.terms.approvalHash == key.hash
    requires MovedFrom(h, st, key.tenant, st.ledger[key].payload.snapshotHash)
    ensures Ground(h, st, key.tenant, key.hash).Err? && Clear(h, st, key.tenant, c).Err?
  {
  }

  /** A stale approval stays stale: once the snapshot an entry was taken against has moved on, no
      later preview, skeleton or execution finds grounds in it. */
  lemma StaleStaysStale(
    h: Hash, states: seq<State>, steps: seq<Step>, key: LedgerKey, i: nat, j: nat, c: ExecutionCommand)
    requires UniqueRun(h, states, steps, key.tenant) && i <= j < |states| && key in states[i].ledger
    requires c.terms.approvalHash == key.hash
    requires Look(h, states[i], key.tenant).Ok?
             && Look(h, states[i], key.tenant).value.restore.hash != states[i].ledger[key].payload.snapshotHash
    ensures Ground(h, states[j], key.tenant, key.hash).Err? && Clear(h, states[j], key.tenant, c).Err?
  {
    RunInv(h, states, steps, key.tenant, i);
    RunAppends(h, states, steps, i, j);
    var hash := states[i].ledger[key].payload.snapshotHash;
    assert SnapshotStored(h, states[i].store, hash) by {
      assert SnapshotOk(h, states[i], states[i].ledger[key].payload);
    }
    SnapshotLeftBehind(h, states, steps, key.tenant, i, j, hash);
    StaleHasNoGrounds(h, states[j], key, c);
  }

  /** The approval an executing step rests on. */
  function ApprovalUsed(st: State, s: Step): ApprovalPayload
    requires s.ExecuteStep? && LedgerKey(s.tenant, s.execute.terms.approvalHash) in st.ledger
  {
    st.ledger[LedgerKey(s.tenant, s.execute.terms.approvalHash)].payload
  }

  /** Of all approvals taken against one snapshot at most one executes, and none executes twice. */
  lemma OneExecutionPerSnapshot(h: Hash, states: seq<State>, steps: seq<Step>, tenant: string, i: nat, j: nat)
    requires Run(h, states, steps) && i < j < |steps|
    requires Executes(h, states[i], steps[i], tenant) && Executes(h, states[j], steps[j], tenant)
    ensures LedgerKey(tenant, steps[i].execute.terms.approvalHash) in states[i].ledger
    ensures LedgerKey(tenant, steps[j].execute.terms.approvalHash) in states[j].ledger
    ensures ApprovalUsed(states[i], steps[i]).snapshotHash != ApprovalUsed(states[j], steps[j]).snapshotHash
    ensures steps[i].execute.terms.approvalHash != steps[j].execute.terms.approvalHash
  {
    ExecutorsAreUnique(h, states, steps, tenant, i);
    RunInv(h, states, steps, tenant, i);
    RunInv(h, states, steps, tenant, j);
    ExecutionGrounds(h, states[i], tenant, steps[i]);
    ExecutionGrounds(h, states[j], tenant, steps[j]);
    SnapshotNeverReturns(h, states, steps, tenant, i, j);
    RunAppends(h, states, steps, i, j);
  }

  lemma ExecutionGrounds(h: Hash, st: State, tenant: string, s: Step)
    requires CollisionFree(h) && Inv(h, st, tenant) && Executes(h, st, s, tenant)
    ensures LedgerKey(tenant, s.execute.terms.approvalHash) in st.ledger
    ensures Look(h, st, tenant).Ok? && Look(h, st, tenant).value.restore.hash == ApprovalUsed(st, s).snapshotHash
  {
    ExecutionIsAtomic(h, st, tenant, s.execute, s.capturedAt);
    var cleared := Clear(h, st, tenant, s.execute).value;
    ClearedGround(h, st, tenant, s.execute, cleared);
    Grounded(h, st, tenant, s.execute.terms.approvalHash, cleared.grounds);
  }

  /** A write executed at step `i` stores a source version that was absent before. */
  lemma ExecutionStoresNewVersion(h: Hash, states: seq<State>, steps: seq<Step>, tenant: string, i: nat, j: nat)
    requires Run(h, states, steps) && j <= i < |steps| && Executes(h, states[i], steps[i], tenant)
    ensures var key := steps[i].execute.record.Key();
            key.tenant == tenant && key !in states[j].store && key in states[i + 1].store
  {
    ExecutorsAreUnique(h, states, steps, tenant, i);
    RunInv(h, states, steps, tenant, i);
    RunAppends(h, states, steps, j, i);
    assert Taken(h, states, steps, i);
    StoresNewVersion(h, states[i], tenant, steps[i].execute, steps[i].capturedAt);
  }

  lemma StoresNewVersion(h: Hash, st: State, tenant: string, c: ExecutionCommand, at: string)
    requires CollisionFree(h) && Inv(h, st, tenant) && Execute(h, st, tenant, c, at).1.Ok?
    ensures var key := c.record.Key();
            key.tenant == tenant && key !in st.store && key in Execute(h, st, tenant, c, at).0.store
  {
    ExecutionIsAtomic(h, st, tenant, c, at);
    var cleared := Clear(h, st, tenant, c).value;
    var _, _ := ClearedCommits(h, st, tenant, c, at, cleared);
    ClearedFacts(h, st, tenant, c, cleared);
  }
}
