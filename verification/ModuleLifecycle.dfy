/** What the lifecycle commands keep over whole runs, how their guards relate to the validator, and
    which states can still reach decommissioning. */
module ModuleLifecycle {
  import opened Wrappers
  import opened Text
  import opened Sorting
  import opened Modules

  /** No trace of a decommission workflow. */
  predicate Untouched(s: TenantModule) {
    && s.evidence == map[] && s.requested.None? && s.blocked.None? && s.cancelled.None? && s.reopened.None?
    && s.decommissioned.None?
  }

  /** An unprovisioned module, as a deployment seeds it. */
  predicate Seed(s: TenantModule) {
    Accepts(s) && s.status.Available? && s.provisioned.None? && Untouched(s)
  }

  /** Where an unprovisioned module can be, and what provisioning secured. */
  predicate Placed(entry: CatalogEntry, s: TenantModule) {
    && (s.provisioned.None? ==> Untouched(s) && (s.status.Available? || s.status.Disabled? || s.status.Suspended?))
    && (s.provisioned.Some? ==>
          && StartupReady(entry, s)
          && (s.status.Enabled? || s.status.Disabled? || s.status.Suspended? || InWorkflow(s.status)))
  }

  /** The lifecycle invariant of one module. */
  predicate Sound(entry: CatalogEntry, s: TenantModule) {
    Accepts(s) && entry.installed && Placed(entry, s)
  }

  predicate ExistingOk(entry: Option<CatalogEntry>, existing: Option<TenantModule>, call: Call) {
    && (entry.Some? ==> entry.value.moduleId == call.moduleId && EntryOk(entry.value))
    && (existing.Some? ==>
          && entry.Some? && existing.value.moduleId == call.moduleId && existing.value.tenant == call.tenant
          && Sound(entry.value, existing.value))
  }

  // ---- migration evidence ----

  lemma {:induction false} ByVersionIndexes(manifest: seq<Migration>)
    ensures var r := ByVersion(manifest);
            && (r.Ok? ==> forall v :: v in r.value ==> r.value[v].version == v && r.value[v] in manifest)
            && (r.Ok? ==> forall m :: m in manifest ==> m.version in r.value && r.value[m.version] == m)
            && (r.Ok? <==> forall i, j :: 0 <= i < j < |manifest| ==> manifest[i].version != manifest[j].version)
  {
    if manifest != [] {
      var n := |manifest| - 1;
      ByVersionIndexes(manifest[..n]);
      assert manifest == manifest[..n] + [manifest[n]];
      var front := ByVersion(manifest[..n]);
      if front.Ok? && manifest[n].version in front.value {
        var i :| 0 <= i < n && manifest[..n][i] == front.value[manifest[n].version];
        assert manifest[i].version == manifest[n].version;
      }
    }
  }

  lemma {:induction false} PickPicks(versions: seq<string>, index: map<string, Migration>, moduleId: string)
    requires forall v :: v in versions ==> v in index
    ensures var r := Pick(versions, index, moduleId);
            r.Ok? ==>
              && |r.value| == |versions|
              && forall i :: 0 <= i < |versions| ==>
                   r.value[i] == index[versions[i]] && r.value[i].blocksStartup
                   && (r.value[i].moduleId == "core" || r.value[i].moduleId == moduleId)
  {
    if versions != [] {
      PickPicks(versions[..|versions| - 1], index, moduleId);
    }
  }

  lemma PickedCovers(
    versions: seq<string>, manifest: seq<Migration>, index: map<string, Migration>, moduleId: string,
    picked: seq<Migration>)
    requires forall v :: v in versions ==> v in index
    requires ByVersion(manifest) == Ok(index) && Pick(versions, index, moduleId) == Ok(picked) && Distinct(versions)
    ensures |picked| == |versions| && MigrationsOk(moduleId, picked)
    ensures forall v :: v in versions ==> exists m :: m in picked && m.version == v && m.blocksStartup
    ensures forall m :: m in picked ==> m in manifest && m.version in versions
  {
    ByVersionIndexes(manifest);
    PickPicks(versions, index, moduleId);
    assert forall i :: 0 <= i < |versions| ==> picked[i].version == versions[i];
    forall v | v in versions ensures exists m :: m in picked && m.version == v && m.blocksStartup {
      var i :| 0 <= i < |versions| && versions[i] == v;
      assert picked[i] in picked;
    }
    forall m | m in picked ensures m in manifest && m.version in versions {
      var i :| 0 <= i < |versions| && picked[i] == m;
      assert versions[i] in versions;
    }
  }

  lemma VersionsSorted(required: seq<string>)
    requires Distinct(required)
    ensures Distinct(SortedVersions(required)) && |SortedVersions(required)| == |required|
  {
    Rearranged(required, SortedVersions(required));
    assert |multiset(required)| == |required| && |multiset(SortedVersions(required))| == |SortedVersions(required)|;
  }

  function Listed(manifest: Option<seq<Migration>>): seq<Migration> {
    if manifest.Some? then manifest.value else []
  }

  /** Startup evidence: one entry for each required version, taken from the manifest, blocking
      startup, and belonging to the module or the core. */
  lemma StartupEvidenceComplete(entry: CatalogEntry, manifest: Option<seq<Migration>>, found: seq<Migration>)
    requires EntryOk(entry) && StartupEvidence(entry, manifest) == Ok(found)
    ensures MigrationsOk(entry.moduleId, found) && (found == [] <==> entry.required == [])
    ensures forall v :: v in entry.required ==> exists m :: m in found && m.version == v && m.blocksStartup
    ensures forall m :: m in found ==> m in Listed(manifest) && m.version in entry.required
  {
    if entry.required != [] {
      VersionsSorted(entry.required);
      SortedVersionsMembers(entry.required);
      var index := ByVersion(Listed(manifest)).value;
      PickedCovers(SortedVersions(entry.required), Listed(manifest), index, entry.moduleId, found);
    }
  }

  // ---- guards versus validator ----

  /** What a caller brings: a well-formed stamp, features of the module, known and namespaced evidence. */
  predicate CallOk(call: Call) {
    && !Blank(call.tenant) && call.stamp.Valid()
    && match call.command
       case Provision(features, _) => features.Some? ==> FeaturesOk(call.moduleId, features.value)
       case Enable(features) => features.Some? ==> FeaturesOk(call.moduleId, features.value)
       case Disable => true
       case Suspend => true
       case RequestDecommission(e) => EvidenceOk(e)
       case BlockDecommission(e) => EvidenceOk(e)
       case CancelDecommission(e) => EvidenceOk(e)
       case ReopenDecommission(e) => EvidenceOk(e)
       case CompleteDecommission(e) => EvidenceOk(e)
  }

  /** The one thing the validator knows that no guard checks. */
  predicate DisableTrap(existing: Option<TenantModule>, call: Call) {
    call.command.Disable? && existing.Some? && existing.value.cancelled.Some? && SomeOn(existing.value.features)
  }

  lemma MergedEvidence(e: Evidence, more: Evidence)
    requires EvidenceOk(e)
    ensures EvidenceOk(Merge(e, more)) <==> EvidenceOk(more)
    ensures forall p :: Covers(e, p) || Covers(more, p) ==> Covers(Merge(e, more), p)
  {
    if EvidenceOk(Merge(e, more)) {
      forall k | k in more ensures !PhaseOf(k).NoPhase? && Namespaced(more[k]) {
        assert k in Merge(e, more) && Merge(e, more)[k] == more[k];
      }
    }
  }

  lemma ProvisionReady(entry: CatalogEntry, existing: Option<TenantModule>, call: Call)
    requires ExistingOk(Some(entry), existing, call) && call.command.Provision?
             && Guard(Some(entry), existing, call).Ok?
    ensures StartupReady(entry, Proposal(Some(entry), existing, call))
    ensures MigrationsOk(call.moduleId, Proposal(Some(entry), existing, call).migrations)
  {
    StartupEvidenceComplete(entry, call.command.manifest, StartupEvidence(entry, call.command.manifest).value);
  }

  lemma AcceptsProvision(entry: CatalogEntry, existing: Option<TenantModule>, call: Call)
    requires ExistingOk(Some(entry), existing, call) && call.command.Provision?
             && Guard(Some(entry), existing, call).Ok?
    ensures Accepts(Proposal(Some(entry), existing, call)) <==> CallOk(call)
  {
    ProvisionReady(entry, existing, call);
  }

  lemma AcceptsEvidenceStep(entry: CatalogEntry, s: TenantModule, call: Call, e: Evidence, s': TenantModule)
    requires Accepts(s) && EvidenceOk(s.evidence) && !Blank(call.tenant)
    requires s' == s.(status := s'.status, features := AllOff(s.features), evidence := Merge(s.evidence, e),
                      stamp := call.stamp,
                      disabled := s'.disabled, requested := s'.requested,
                      blocked := s'.blocked, cancelled := s'.cancelled,
                      reopened := s'.reopened, decommissioned := s'.decommissioned)
    requires StatusOk(s') && HistoryOk(s')
    ensures Accepts(s') <==> EvidenceOk(e) && call.stamp.Valid()
  {
    MergedEvidence(s.evidence, e);
  }

  /** For the workflow commands: the guards establish everything the new status demands. */
  lemma WorkflowStatusOk(entry: CatalogEntry, s: TenantModule, call: Call)
    requires Sound(entry, s) && s.moduleId == call.moduleId && s.tenant == call.tenant
    requires !call.command.Provision? && !call.command.Enable? && !call.command.Disable? && !call.command.Suspend?
    requires Guard(Some(entry), Some(s), call).Ok?
    ensures var s' := Proposal(Some(entry), Some(s), call); StatusOk(s') && HistoryOk(s')
  {
    var e := match call.command
             case RequestDecommission(e) => e
             case BlockDecommission(e) => e
             case CancelDecommission(e) => e
             case ReopenDecommission(e) => e
             case CompleteDecommission(e) => e;
    MergedEvidence(s.evidence, e);
  }

  /** The two layers compared: on a sound state, a command that passes its guards with a well-formed
      call is accepted by the validator, except that disabling is refused exactly when an earlier
      cancellation meets a feature that is on. */
  lemma GuardsSufficeExceptDisable(entry: CatalogEntry, existing: Option<TenantModule>, call: Call)
    requires ExistingOk(Some(entry), existing, call) && Guard(Some(entry), existing, call).Ok?
    ensures Accepts(Proposal(Some(entry), existing, call))
            <==> CallOk(call) && !DisableTrap(existing, call)
  {
    if call.command.Provision? {
      AcceptsProvision(entry, existing, call);
    } else {
      var s := existing.value;
      match call.command {
        case Enable(_) =>
        case Disable =>
        case Suspend =>
        case RequestDecommission(e) =>
          WorkflowStatusOk(entry, s, call);
          AcceptsEvidenceStep(entry, s, call, e, Proposal(Some(entry), existing, call));
        case BlockDecommission(e) =>
          WorkflowStatusOk(entry, s, call);
          AcceptsEvidenceStep(entry, s, call, e, Proposal(Some(entry), existing, call));
        case CancelDecommission(e) =>
          WorkflowStatusOk(entry, s, call);
          AcceptsEvidenceStep(entry, s, call, e, Proposal(Some(entry), existing, call));
        case ReopenDecommission(e) =>
          WorkflowStatusOk(entry, s, call);
          AcceptsEvidenceStep(entry, s, call, e, Proposal(Some(entry), existing, call));
        case CompleteDecommission(e) =>
          WorkflowStatusOk(entry, s, call);
          AcceptsEvidenceStep(entry, s, call, e, Proposal(Some(entry), existing, call));
      }
    }
  }

  /** Whether a command goes through, exactly. */
  lemma PerformsExactly(entry: Option<CatalogEntry>, existing: Option<TenantModule>, call: Call)
    requires ExistingOk(entry, existing, call)
    ensures Perform(entry, existing, call).Ok?
            <==> entry.Some? && entry.value.installed && Guard(entry, existing, call).Ok? && CallOk(call)
                 && !DisableTrap(existing, call)
  {
    if Guard(entry, existing, call).Ok? {
      GuardsSufficeExceptDisable(entry.value, existing, call);
    }
  }

  /** The refusal of `disable` after a cancellation: an enabled module with a feature on can be
      suspended but not disabled, although the guard would let it. */
  lemma DisableAfterCancelRefused(entry: CatalogEntry, s: TenantModule, stamp: Stamp)
    requires entry.moduleId == s.moduleId && EntryOk(entry) && Sound(entry, s) && stamp.Valid()
    requires s.status.Enabled? && s.cancelled.Some? && AnyOn(s.features)
    ensures Guard(Some(entry), Some(s), Call(s.tenant, s.moduleId, Disable, stamp)).Ok?
    ensures Perform(Some(entry), Some(s), Call(s.tenant, s.moduleId, Disable, stamp)) == Err(Rejected)
    ensures Perform(Some(entry), Some(s), Call(s.tenant, s.moduleId, Suspend, stamp)).Ok?
  {
    PerformsExactly(Some(entry), Some(s), Call(s.tenant, s.moduleId, Suspend, stamp));
  }

  // ---- one step ----

  lemma ProposalPlaced(entry: CatalogEntry, s: TenantModule, call: Call)
    requires Placed(entry, s) && !call.command.Provision? && Guard(Some(entry), Some(s), call).Ok?
    ensures Placed(entry, Proposal(Some(entry), Some(s), call))
  {
    assert StartupReady(entry, s) ==> StartupReady(entry, Proposal(Some(entry), Some(s), call));
  }

  lemma ProvisionPlaced(entry: CatalogEntry, existing: Option<TenantModule>, call: Call)
    requires call.command.Provision? && Guard(Some(entry), existing, call).Ok?
    requires StartupReady(entry, Proposal(Some(entry), existing, call))
    ensures Placed(entry, Proposal(Some(entry), existing, call))
  {
  }

  lemma PerformProposes(entry: Option<CatalogEntry>, existing: Option<TenantModule>, call: Call)
    requires Perform(entry, existing, call).Ok?
    ensures entry.Some? && entry.value.installed && Guard(entry, existing, call).Ok?
    ensures Perform(entry, existing, call).value == Proposal(entry, existing, call)
            && Accepts(Proposal(entry, existing, call))
  {
  }

  lemma PerformKeepsSound(entry: Option<CatalogEntry>, existing: Option<TenantModule>, call: Call)
    requires ExistingOk(entry, existing, call) && Perform(entry, existing, call).Ok?
    ensures var s := Perform(entry, existing, call).value;
            entry.Some? && Sound(entry.value, s) && s.moduleId == call.moduleId && s.tenant == call.tenant
  {
    PerformProposes(entry, existing, call);
    ProposalKeepsIds(entry, existing, call);
    ProposalFits(entry.value, existing, call);
  }

  lemma ProposalKeepsIds(entry: Option<CatalogEntry>, existing: Option<TenantModule>, call: Call)
    requires Guard(entry, existing, call).Ok?
    requires existing.Some? ==> existing.value.moduleId == call.moduleId && existing.value.tenant == call.tenant
    ensures var s := Proposal(entry, existing, call); s.moduleId == call.moduleId && s.tenant == call.tenant
  {
  }

  lemma ProposalFits(entry: CatalogEntry, existing: Option<TenantModule>, call: Call)
    requires ExistingOk(Some(entry), existing, call) && Guard(Some(entry), existing, call).Ok?
    ensures Placed(entry, Proposal(Some(entry), existing, call))
  {
    if call.command.Provision? {
      ProvisionReady(entry, existing, call);
      ProvisionPlaced(entry, existing, call);
    } else {
      ProposalPlaced(entry, existing.value, call);
    }
  }

  /** What one successful command does to evidence, provisioning and status. */
  predicate StepFacts(s: TenantModule, call: Call, s': TenantModule) {
    && s.evidence.Keys <= s'.evidence.Keys
    && (s.provisioned.Some? ==> s'.provisioned == s.provisioned && s'.migrations == s.migrations)
    && !s.status.Decommissioned?
    && (s'.status.Decommissioned? ==>
          call.command.CompleteDecommission? && (s.status.DecommissionRequested? || s.status.DecommissionBlocked?))
    && ((s'.status.DecommissionRequested? || s'.status.DecommissionBlocked?) ==>
          call.command.RequestDecommission? || (!call.command.CancelDecommission?
          && (s.status.DecommissionRequested? || s.status.DecommissionBlocked?)))
    && (s.provisioned.None? && (s.status.Disabled? || s.status.Suspended?) ==>
          s'.provisioned.None? && (s'.status.Disabled? || s'.status.Suspended?))
  }

  lemma PerformStep(entry: Option<CatalogEntry>, s: TenantModule, call: Call)
    requires ExistingOk(entry, Some(s), call) && Perform(entry, Some(s), call).Ok?
    ensures StepFacts(s, call, Perform(entry, Some(s), call).value)
  {
    PerformProposes(entry, Some(s), call);
    ProposalStep(entry.value, s, call);
  }

  lemma ProposalStep(entry: CatalogEntry, s: TenantModule, call: Call)
    requires Placed(entry, s) && Guard(Some(entry), Some(s), call).Ok?
    ensures StepFacts(s, call, Proposal(Some(entry), Some(s), call))
  {
  }

  // ---- runs ----

  predicate Initial(catalog: Catalog, modules: map<ModuleKey, TenantModule>) {
    forall k :: k in modules ==>
      k == (modules[k].tenant, modules[k].moduleId) && k.1 in catalog && catalog[k.1].installed && Seed(modules[k])
  }

  predicate Taken(catalog: Catalog, states: seq<map<ModuleKey, TenantModule>>, calls: seq<Call>, i: nat) {
    i < |calls| && i + 1 < |states| && states[i + 1] == After(catalog, states[i], calls[i])
  }

  predicate Run(catalog: Catalog, states: seq<map<ModuleKey, TenantModule>>, calls: seq<Call>) {
    && CatalogOk(catalog) && |states| == |calls| + 1 && Initial(catalog, states[0])
    && forall i :: 0 <= i < |calls| ==> Taken(catalog, states, calls, i)
  }

  predicate SoundAt(catalog: Catalog, modules: map<ModuleKey, TenantModule>, k: ModuleKey)
    requires k in modules
  {
    k == (modules[k].tenant, modules[k].moduleId) && k.1 in catalog && Sound(catalog[k.1], modules[k])
  }

  predicate AllSound(catalog: Catalog, modules: map<ModuleKey, TenantModule>) {
    forall k :: k in modules ==> SoundAt(catalog, modules, k)
  }

  lemma AfterKeepsSound(catalog: Catalog, modules: map<ModuleKey, TenantModule>, call: Call)
    requires CatalogOk(catalog) && AllSound(catalog, modules)
    ensures AllSound(catalog, After(catalog, modules, call))
  {
    var r := PerformIn(catalog, modules, call);
    if r.Ok? {
      var key := (call.tenant, call.moduleId);
      assert key in modules ==> SoundAt(catalog, modules, key);
      PerformKeepsSound(Find(catalog, call.moduleId), Find(modules, key), call);
      forall k | k in After(catalog, modules, call) ensures SoundAt(catalog, After(catalog, modules, call), k) {
        if k != key {
          assert SoundAt(catalog, modules, k);
        }
      }
    }
  }

  lemma InitialSound(catalog: Catalog, modules: map<ModuleKey, TenantModule>)
    requires Initial(catalog, modules)
    ensures AllSound(catalog, modules)
  {
  }

  lemma RunStepSound(catalog: Catalog, states: seq<map<ModuleKey, TenantModule>>, calls: seq<Call>, i: nat)
    requires Run(catalog, states, calls) && i < |calls| && AllSound(catalog, states[i])
    ensures AllSound(catalog, states[i + 1])
  {
    assert Taken(catalog, states, calls, i);
    AfterKeepsSound(catalog, states[i], calls[i]);
  }

  lemma {:induction false} RunSound(
    catalog: Catalog, states: seq<map<ModuleKey, TenantModule>>, calls: seq<Call>, i: nat)
    requires Run(catalog, states, calls) && i < |states|
    ensures AllSound(catalog, states[i])
  {
    if i == 0 {
      InitialSound(catalog, states[0]);
    } else {
      RunSound(catalog, states, calls, i - 1);
      RunStepSound(catalog, states, calls, i - 1);
    }
  }

  /** The call succeeds and is about this module. */
  predicate Performs(catalog: Catalog, modules: map<ModuleKey, TenantModule>, call: Call, k: ModuleKey) {
    (call.tenant, call.moduleId) == k && PerformIn(catalog, modules, call).Ok?
  }

  lemma RunStep(catalog: Catalog, states: seq<map<ModuleKey, TenantModule>>, calls: seq<Call>, i: nat, k: ModuleKey)
    requires Run(catalog, states, calls) && i < |calls| && k in states[i]
    ensures k in states[i + 1]
    ensures if Performs(catalog, states[i], calls[i], k) then StepFacts(states[i][k], calls[i], states[i + 1][k])
            else states[i + 1][k] == states[i][k]
  {
    RunSound(catalog, states, calls, i);
    assert Taken(catalog, states, calls, i);
    assert SoundAt(catalog, states[i], k);
    if Performs(catalog, states[i], calls[i], k) {
      PerformStep(Find(catalog, k.1), states[i][k], calls[i]);
    }
  }

  /** Runs from any table whatever, also one whose modules carry evidence already. */
  predicate AnyRun(catalog: Catalog, states: seq<map<ModuleKey, TenantModule>>, calls: seq<Call>) {
    |states| == |calls| + 1 && forall i :: 0 <= i < |calls| ==> Taken(catalog, states, calls, i)
  }

  /** The one command that loses evidence is provisioning, and it loses all of it. */
  lemma OnlyProvisioningDropsEvidence(entry: Option<CatalogEntry>, s: TenantModule, call: Call)
    requires Perform(entry, Some(s), call).Ok?
    ensures var s' := Perform(entry, Some(s), call).value;
            && (s.evidence.Keys <= s'.evidence.Keys <==> !call.command.Provision? || s.evidence == map[])
            && (call.command.Provision? ==> s'.evidence == map[])
  {
    PerformProposes(entry, Some(s), call);
    ProposedEvidence(entry, s, call);
    assert s.evidence == map[] <==> s.evidence.Keys == {};
  }

  lemma ProposedEvidence(entry: Option<CatalogEntry>, s: TenantModule, call: Call)
    requires Guard(entry, Some(s), call).Ok?
    ensures var s' := Proposal(entry, Some(s), call);
            if call.command.Provision? then s'.evidence == map[] else s.evidence.Keys <= s'.evidence.Keys
  {
  }

  predicate ProvisionsAt(
    catalog: Catalog, states: seq<map<ModuleKey, TenantModule>>, calls: seq<Call>, i: nat, k: ModuleKey)
    requires i < |calls| && i < |states|
  {
    calls[i].command.Provision? && Performs(catalog, states[i], calls[i], k)
  }

  predicate NoProvision(
    catalog: Catalog, states: seq<map<ModuleKey, TenantModule>>, calls: seq<Call>, i: nat, j: nat, k: ModuleKey)
    requires i <= j <= |calls| < |states|
  {
    forall m :: i <= m < j ==> !ProvisionsAt(catalog, states, calls, m, k)
  }

  lemma NoProvisionSplits(
    catalog: Catalog, states: seq<map<ModuleKey, TenantModule>>, calls: seq<Call>, i: nat, j: nat, k: ModuleKey)
    requires i < j <= |calls| < |states| && NoProvision(catalog, states, calls, i, j, k)
    ensures NoProvision(catalog, states, calls, i, j - 1, k) && !ProvisionsAt(catalog, states, calls, j - 1, k)
  {
  }

  lemma StepKeepsEvidence(
    catalog: Catalog, states: seq<map<ModuleKey, TenantModule>>, calls: seq<Call>, i: nat, k: ModuleKey)
    requires AnyRun(catalog, states, calls) && i < |calls| && k in states[i]
    requires !ProvisionsAt(catalog, states, calls, i, k)
    ensures k in states[i + 1] && states[i][k].evidence.Keys <= states[i + 1][k].evidence.Keys
  {
    assert Taken(catalog, states, calls, i);
    if Performs(catalog, states[i], calls[i], k) {
      OnlyProvisioningDropsEvidence(Find(catalog, k.1), states[i][k], calls[i]);
    }
  }

  /** From any table on, evidence keys stay as long as the module is not provisioned again. */
  lemma {:induction false} EvidenceKeptUnlessProvisioned(
    catalog: Catalog, states: seq<map<ModuleKey, TenantModule>>, calls: seq<Call>, i: nat, j: nat, k: ModuleKey)
    requires AnyRun(catalog, states, calls) && i <= j < |states| && k in states[i]
    requires NoProvision(catalog, states, calls, i, j, k)
    ensures k in states[j] && states[i][k].evidence.Keys <= states[j][k].evidence.Keys
  {
    if i < j {
      NoProvisionSplits(catalog, states, calls, i, j, k);
      EvidenceKeptUnlessProvisioned(catalog, states, calls, i, j - 1, k);
      StepKeepsEvidence(catalog, states, calls, j - 1, k);
    }
  }

  /** No command leads to a status that can be provisioned, and provisioning starts from one. */
  lemma ProposedStatus(entry: Option<CatalogEntry>, s: TenantModule, call: Call)
    requires Guard(entry, Some(s), call).Ok?
    ensures !Provisionable(Proposal(entry, Some(s), call).status)
    ensures call.command.Provision? ==> Provisionable(s.status)
  {
  }

  /** A module that can no longer be provisioned never can be again. */
  lemma StepKeepsProvisioned(
    catalog: Catalog, states: seq<map<ModuleKey, TenantModule>>, calls: seq<Call>, i: nat, k: ModuleKey)
    requires AnyRun(catalog, states, calls) && i < |calls| && k in states[i]
    ensures k in states[i + 1]
    ensures !Provisionable(states[i][k].status) ==>
              !ProvisionsAt(catalog, states, calls, i, k) && !Provisionable(states[i + 1][k].status)
  {
    assert Taken(catalog, states, calls, i);
    if Performs(catalog, states[i], calls[i], k) {
      assert PerformIn(catalog, states[i], calls[i]) == Perform(Find(catalog, k.1), Some(states[i][k]), calls[i]);
      PerformProposes(Find(catalog, k.1), Some(states[i][k]), calls[i]);
      ProposedStatus(Find(catalog, k.1), states[i][k], calls[i]);
    }
  }

  lemma {:induction false} NeverProvisionedAgain(
    catalog: Catalog, states: seq<map<ModuleKey, TenantModule>>, calls: seq<Call>, i: nat, j: nat, k: ModuleKey)
    requires AnyRun(catalog, states, calls) && i <= j < |states| && k in states[i]
    ensures k in states[j]
    ensures !Provisionable(states[i][k].status) ==>
              !Provisionable(states[j][k].status) && NoProvision(catalog, states, calls, i, j, k)
  {
    if i < j {
      NeverProvisionedAgain(catalog, states, calls, i, j - 1, k);
      StepKeepsProvisioned(catalog, states, calls, j - 1, k);
    }
  }

  /** From any table on, a module that cannot be provisioned any more, or has no evidence yet, never
      loses an evidence key; the others lose all of them when they are provisioned. */
  lemma EvidenceNeverLost(
    catalog: Catalog, states: seq<map<ModuleKey, TenantModule>>, calls: seq<Call>, i: nat, j: nat, k: ModuleKey)
    requires AnyRun(catalog, states, calls) && i <= j < |states| && k in states[i]
    requires Provisionable(states[i][k].status) ==> states[i][k].evidence == map[]
    ensures k in states[j] && states[i][k].evidence.Keys <= states[j][k].evidence.Keys
  {
    NeverProvisionedAgain(catalog, states, calls, i, j, k);
    if !Provisionable(states[i][k].status) {
      EvidenceKeptUnlessProvisioned(catalog, states, calls, i, j, k);
    }
  }

  /** DECOMMISSIONED is absorbing: nothing about such a module ever changes again. */
  lemma {:induction false} DecommissionedStays(
    catalog: Catalog, states: seq<map<ModuleKey, TenantModule>>, calls: seq<Call>, i: nat, j: nat, k: ModuleKey)
    requires Run(catalog, states, calls) && i <= j < |states| && k in states[i] && states[i][k].status.Decommissioned?
    ensures k in states[j] && states[j][k] == states[i][k]
  {
    if i < j {
      DecommissionedStays(catalog, states, calls, i, j - 1, k);
      RunStep(catalog, states, calls, j - 1, k);
    }
  }

  predicate Cancels(catalog: Catalog, states: seq<map<ModuleKey, TenantModule>>, calls: seq<Call>, i: nat, k: ModuleKey)
    requires i < |calls| && i < |states|
  {
    calls[i].command.CancelDecommission? && Performs(catalog, states[i], calls[i], k)
  }

  /** A request at step `i` that no cancellation follows before moment `j`. */
  predicate StandingRequest(
    catalog: Catalog, states: seq<map<ModuleKey, TenantModule>>, calls: seq<Call>, i: nat, j: nat, k: ModuleKey)
    requires i < j <= |calls| < |states|
  {
    && calls[i].command.RequestDecommission? && Performs(catalog, states[i], calls[i], k)
    && NoCancel(catalog, states, calls, i, j, k)
  }

  predicate NoCancel(
    catalog: Catalog, states: seq<map<ModuleKey, TenantModule>>, calls: seq<Call>, i: nat, j: nat, k: ModuleKey)
    requires i < j <= |calls| < |states|
  {
    forall m :: i < m < j ==> !Cancels(catalog, states, calls, m, k)
  }

  lemma BeforeWorkflow(
    catalog: Catalog, states: seq<map<ModuleKey, TenantModule>>, calls: seq<Call>, j: nat, k: ModuleKey)
    returns (p: nat)
    requires Run(catalog, states, calls) && j < |states| && k in states[j] && InWorkflow(states[j][k].status)
    ensures j == p + 1 && k in states[p]
  {
    assert j > 0;
    p := j - 1;
    assert Taken(catalog, states, calls, p);
    if k !in states[p] {
      ProvisionedFresh(catalog, states[p], calls[p], k);
    }
  }

  lemma ProvisionedFresh(catalog: Catalog, modules: map<ModuleKey, TenantModule>, call: Call, k: ModuleKey)
    requires k !in modules && k in After(catalog, modules, call)
    ensures After(catalog, modules, call)[k].status.Disabled?
  {
    PerformProposes(Find(catalog, call.moduleId), Find(modules, (call.tenant, call.moduleId)), call);
  }

  /** A module in the workflow, or through it, owes that to a successful request which no
      successful cancellation has followed. */
  lemma {:induction false} WorkflowNeedsRequest(
    catalog: Catalog, states: seq<map<ModuleKey, TenantModule>>, calls: seq<Call>, j: nat, k: ModuleKey)
    returns (i: nat)
    requires Run(catalog, states, calls) && j < |states| && k in states[j] && InWorkflow(states[j][k].status)
    ensures i < j && StandingRequest(catalog, states, calls, i, j, k)
  {
    var p := BeforeWorkflow(catalog, states, calls, j, k);
    RunStep(catalog, states, calls, p, k);
    if calls[p].command.RequestDecommission? && Performs(catalog, states[p], calls[p], k) {
      i := p;
    } else {
      i := WorkflowNeedsRequest(catalog, states, calls, p, k);
      StandsLonger(catalog, states, calls, i, p, k);
    }
  }

  lemma StandsLonger(
    catalog: Catalog, states: seq<map<ModuleKey, TenantModule>>, calls: seq<Call>, i: nat, p: nat, k: ModuleKey)
    requires i < p < |calls| < |states| && NoCancel(catalog, states, calls, i, p, k)
    requires !Cancels(catalog, states, calls, p, k)
    ensures NoCancel(catalog, states, calls, i, p + 1, k)
  {
    forall m | i < m < p + 1 ensures !Cancels(catalog, states, calls, m, k) {
      if m == p {
        assert !Cancels(catalog, states, calls, p, k);
      } else {
        assert !Cancels(catalog, states, calls, m, k);
      }
    }
  }

  /** Unprovisioned DISABLED and SUSPENDED modules are trapped: they stay unprovisioned and in one
      of the two, so no command ever provisions, enables or decommissions them. */
  lemma {:induction false} UnprovisionedTrap(
    catalog: Catalog, states: seq<map<ModuleKey, TenantModule>>, calls: seq<Call>, i: nat, j: nat, k: ModuleKey)
    requires Run(catalog, states, calls) && i <= j < |states| && k in states[i]
    requires states[i][k].provisioned.None? && (states[i][k].status.Disabled? || states[i][k].status.Suspended?)
    ensures k in states[j] && states[j][k].provisioned.None?
            && (states[j][k].status.Disabled? || states[j][k].status.Suspended?)
  {
    if i < j {
      UnprovisionedTrap(catalog, states, calls, i, j - 1, k);
      RunStep(catalog, states, calls, j - 1, k);
    }
  }

  /** The lifecycle invariant in every reachable state: no feature is on in the workflow, ENABLED
      modules are provisioned with all their required startup migrations, and the normal-use gate
      never fails over migrations: it opens exactly for an enabled module and feature. */
  lemma LifecycleInvariant(
    catalog: Catalog, states: seq<map<ModuleKey, TenantModule>>, calls: seq<Call>, i: nat, k: ModuleKey,
    surface: Surface,
    feature: Option<string>)
    requires Run(catalog, states, calls) && i < |states| && k in states[i]
    ensures k.1 in catalog
    ensures var s := states[i][k];
            && (InWorkflow(s.status) ==> s.provisioned.Some? && !AnyOn(s.features) && Covers(s.evidence, RequestPhase))
            && (s.status.Enabled? ==> s.provisioned.Some? && StartupReady(catalog[k.1], s))
            && var gate := Gate(Some(catalog[k.1]), Some(s), surface, feature);
               && gate != Err(MissingMigrations)
               && (surface.NormalApi? || surface.FeatureWorker? ==>
                     (gate.Ok? <==> s.status.Enabled?
                                    && (feature.Some? ==> feature.value in s.features && s.features[feature.value])))
  {
    RunSound(catalog, states, calls, i);
    assert SoundAt(catalog, states[i], k);
  }
}
