/** Tenant modules: a catalog, the state each tenant's module is in, the validator of that state,
    and the nine lifecycle commands with their guards. */
module Modules {
  import opened Wrappers
  import opened Text
  import opened Sorting

  datatype Status =
    | NotInstalled | Installed | Available | Provisioning | Enabled | Disabled | Suspended
    | DecommissionRequested | DecommissionBlocked | Decommissioned

  /** The step of the decommission workflow an evidence key belongs to. */
  datatype Phase = RequestPhase | BlockPhase | CompletePhase | CancelPhase | ReopenPhase | NoPhase

  datatype EvidenceKey =
    | RetentionEvaluation | LegalHoldCheck | ExportArchiveDecision | AuditEvidence | BackupRestoreEvidence
    | BlockerReport | RemediationPlan
    | FinalRetention | FinalLegalHold | FinalExportArchive | FinalAuditClosure | FinalBackup | FinalData
    | CancelApproval | CancelAudit
    | ReopenApproval | BlockerRemediation | ReopenAudit
    | OtherKey(name: string)

  function PhaseOf(k: EvidenceKey): Phase {
    match k
    case RetentionEvaluation | LegalHoldCheck | ExportArchiveDecision | AuditEvidence | BackupRestoreEvidence =>
      RequestPhase
    case BlockerReport | RemediationPlan => BlockPhase
    case FinalRetention | FinalLegalHold | FinalExportArchive | FinalAuditClosure | FinalBackup | FinalData =>
      CompletePhase
    case CancelApproval | CancelAudit => CancelPhase
    case ReopenApproval | BlockerRemediation | ReopenAudit => ReopenPhase
    case OtherKey(_) => NoPhase
  }

  type Evidence = map<EvidenceKey, string>
  type Features = map<string, bool>

  /** No required key of the phase is missing. */
  ghost predicate Covers(e: Evidence, p: Phase) {
    forall k :: PhaseOf(k) == p ==> k in e
  }

  function RequiredKeys(p: Phase): (keys: set<EvidenceKey>)
    requires !p.NoPhase?
    ensures forall k :: k in keys <==> PhaseOf(k) == p
  {
    match p
    case RequestPhase => {RetentionEvaluation, LegalHoldCheck, ExportArchiveDecision, AuditEvidence,
                          BackupRestoreEvidence}
    case BlockPhase => {BlockerReport, RemediationPlan}
    case CompletePhase => {FinalRetention, FinalLegalHold, FinalExportArchive, FinalAuditClosure, FinalBackup,
                           FinalData}
    case CancelPhase => {CancelApproval, CancelAudit}
    case ReopenPhase => {ReopenApproval, BlockerRemediation, ReopenAudit}
  }

  /** `_require_decommission_evidence`. */
  predicate HasAll(e: Evidence, p: Phase)
    requires !p.NoPhase?
    ensures HasAll(e, p) <==> Covers(e, p)
  {
    RequiredKeys(p) <= e.Keys
  }

  predicate LowerOrDigit(c: char) {
    'a' <= c <= 'z' || IsDigit(c)
  }

  /** `[a-z0-9][a-z0-9_+.-]*:.+`. */
  predicate Namespaced(s: string) {
    exists i :: 0 < i < |s| - 1 && s[i] == ':' && LowerOrDigit(s[0])
      && (forall j :: 0 < j < i ==> LowerOrDigit(s[j]) || s[j] in "_+.-") && (forall j :: i < j < |s| ==> s[j] != '\n')
  }

  /** `[a-z][a-z0-9_]*(\.[a-z][a-z0-9_]*)+`, inside the module's namespace. */
  predicate FeatureScoped(moduleId: string, f: string) {
    && f != "" && 'a' <= f[0] <= 'z' && '.' in f
    && (forall i :: 0 <= i < |f| ==> LowerOrDigit(f[i]) || f[i] in "_.")
    && (forall i :: 0 <= i < |f| && f[i] == '.' ==> i + 1 < |f| && 'a' <= f[i + 1] <= 'z')
    && moduleId + "." <= f
  }

  datatype Migration = Migration(version: string, moduleId: string, blocksStartup: bool, details: string)

  datatype CatalogEntry = CatalogEntry(moduleId: string, installed: bool, required: seq<string>)

  /** Who changed a state, why, and when. */
  datatype Stamp = Stamp(policyHash: string, changedBy: string, auditRef: string, at: int) {
    predicate Valid() {
      Namespaced(policyHash) && !Blank(changedBy) && Namespaced(auditRef)
    }
  }

  datatype TenantModule = TenantModule(
    tenant: string, moduleId: string, status: Status, features: Features, migrations: seq<Migration>,
    evidence: Evidence,
    provisioned: Option<int>, enabled: Option<int>, disabled: Option<int>, requested: Option<int>, blocked: Option<int>,
    cancelled: Option<int>, reopened: Option<int>, decommissioned: Option<int>, created: int, stamp: Stamp)

  ghost predicate AnyOn(features: Features) {
    exists f :: f in features && features[f]
  }

  predicate SomeOn(features: Features)
    ensures SomeOn(features) <==> AnyOn(features)
  {
    exists f | f in features :: features[f]
  }

  function AllOff(features: Features): (off: Features)
    ensures off.Keys == features.Keys && !AnyOn(off)
  {
    map f | f in features :: false
  }

  // ---- the validator ----

  predicate FeaturesOk(moduleId: string, features: Features) {
    forall f :: f in features ==> FeatureScoped(moduleId, f)
  }

  predicate MigrationsOk(moduleId: string, migrations: seq<Migration>) {
    && (forall i, j :: 0 <= i < j < |migrations| ==> migrations[i].version != migrations[j].version)
    && forall m :: m in migrations ==> m.moduleId == "core" || m.moduleId == moduleId
  }

  predicate EvidenceOk(e: Evidence) {
    forall k :: k in e ==> !PhaseOf(k).NoPhase? && Namespaced(e[k])
  }

  /** What each status demands of the other fields. */
  predicate StatusOk(s: TenantModule) {
    match s.status
    case Enabled => s.enabled.Some?
    case Disabled => s.disabled.Some?
    case DecommissionRequested => s.requested.Some? && HasAll(s.evidence, RequestPhase) && !SomeOn(s.features)
    case DecommissionBlocked =>
      s.requested.Some? && s.blocked.Some? && HasAll(s.evidence, RequestPhase) && HasAll(s.evidence, BlockPhase)
      && !SomeOn(s.features)
    case Decommissioned =>
      && s.requested.Some? && s.decommissioned.Some?
      && HasAll(s.evidence, RequestPhase) && HasAll(s.evidence, CompletePhase)
      && !SomeOn(s.features)
    case _ => true
  }

  /** What a cancelled or reopened workflow demands for good. */
  predicate HistoryOk(s: TenantModule) {
    && (s.cancelled.Some? ==> HasAll(s.evidence, CancelPhase) && (s.status.Disabled? ==> !SomeOn(s.features)))
    && (s.reopened.Some? ==>
          s.requested.Some? && s.blocked.Some? && HasAll(s.evidence, RequestPhase) && HasAll(s.evidence, BlockPhase)
          && HasAll(s.evidence, ReopenPhase))
  }

  /** `TenantModuleState`'s validators. The module id is a key of the catalog, whose entries are
      validated themselves. */
  predicate Accepts(s: TenantModule) {
    && !Blank(s.tenant) && s.stamp.Valid()
    && FeaturesOk(s.moduleId, s.features) && MigrationsOk(s.moduleId, s.migrations) && EvidenceOk(s.evidence)
    && StatusOk(s) && HistoryOk(s)
  }

  // ---- commands ----

  datatype ModuleError =
    | UnknownModule | UnknownTenantModule | NotDeployed | NotProvisionable | DuplicateMigration | MissingMigrations
    | NotBlockingStartup | ForeignMigration | NotProvisioned | WrongStatus | NoTimestamp | MissingEvidence(phase: Phase)
    | Rejected | NotEnabled | FeatureOff | FeatureForeign | NoComplianceAccess

  datatype Command =
    | Provision(provisionFeatures: Option<Features>, manifest: Option<seq<Migration>>)
    | Enable(enableFeatures: Option<Features>)
    | Disable
    | Suspend
    | RequestDecommission(requestEvidence: Evidence)
    | BlockDecommission(blockEvidence: Evidence)
    | CancelDecommission(cancelEvidence: Evidence)
    | ReopenDecommission(reopenEvidence: Evidence)
    | CompleteDecommission(completeEvidence: Evidence)

  datatype Call = Call(tenant: string, moduleId: string, command: Command, stamp: Stamp)

  /** `_migration_evidence_by_version`: the manifest by version. */
  function ByVersion(manifest: seq<Migration>): Result<map<string, Migration>, ModuleError> {
    if manifest == [] then Ok(map[])
    else
      var last := manifest[|manifest| - 1];
      var front :- ByVersion(manifest[..|manifest| - 1]);
      if last.version in front then Err(DuplicateMigration) else Ok(front[last.version := last])
  }

  function SortedVersions(versions: seq<string>): seq<string> {
    Sort(versions, (a, b) => StringLeq(a, b))
  }

  function Pick(versions: seq<string>, index: map<string, Migration>, moduleId: string)
    : Result<seq<Migration>, ModuleError>
    requires forall v :: v in versions ==> v in index
  {
    if versions == [] then Ok([])
    else
      var front :- Pick(versions[..|versions| - 1], index, moduleId);
      var m := index[versions[|versions| - 1]];
      if !m.blocksStartup then Err(NotBlockingStartup)
      else if m.moduleId != "core" && m.moduleId != moduleId then Err(ForeignMigration)
      else Ok(front + [m])
  }

  lemma SortedVersionsMembers(versions: seq<string>)
    ensures forall v :: v in SortedVersions(versions) <==> v in versions
  {
    Rearranged(versions, SortedVersions(versions));
  }

  /** `migration_evidence_for_module`. */
  function StartupEvidence(entry: CatalogEntry, manifest: Option<seq<Migration>>): Result<seq<Migration>, ModuleError> {
    if entry.required == [] then Ok([])
    else
      var index :- ByVersion(if manifest.Some? then manifest.value else []);
      if exists v | v in entry.required :: v !in index then Err(MissingMigrations)
      else
        SortedVersionsMembers(entry.required);
        Pick(SortedVersions(entry.required), index, entry.moduleId)
  }

  /** `_require_state_migration_evidence`. */
  predicate StartupReady(entry: CatalogEntry, s: TenantModule) {
    forall v :: v in entry.required ==> exists m :: m in s.migrations && m.version == v && m.blocksStartup
  }

  predicate InWorkflow(s: Status) {
    s.DecommissionRequested? || s.DecommissionBlocked? || s.Decommissioned?
  }

  predicate Provisionable(s: Status) {
    s.NotInstalled? || s.Installed? || s.Available? || s.Provisioning?
  }

  function Merge(e: Evidence, more: Evidence): (merged: Evidence)
    ensures merged.Keys == e.Keys + more.Keys
  {
    e + more
  }

  /** The state a provisioning stores: a fresh one, which keeps only the creation time, and the
      features and migration evidence when the call brings none. */
  function Provisioned(entry: CatalogEntry, existing: Option<TenantModule>, call: Call, found: seq<Migration>)
    : TenantModule
    requires call.command.Provision?
  {
    var features :=
      if call.command.provisionFeatures.Some? then call.command.provisionFeatures.value
      else if existing.Some? then existing.value.features else map[];
    var migrations := if found == [] && existing.Some? then existing.value.migrations else found;
    TenantModule(
      call.tenant, call.moduleId, Disabled, features, migrations, map[], Some(call.stamp.at), None, Some(call.stamp.at),
      None, None, None, None, None, if existing.Some? then existing.value.created else call.stamp.at, call.stamp)
  }

  /** The explicit guards of a command, in their order. */
  function Guard(entry: Option<CatalogEntry>, existing: Option<TenantModule>, call: Call): Result<(), ModuleError> {
    if call.command.Provision? then
      if entry.None? then Err(UnknownModule)
      else if existing.Some? && !Provisionable(existing.value.status) then Err(NotProvisionable)
      else
        var found :- StartupEvidence(entry.value, call.command.manifest);
        if entry.value.required != [] && Provisioned(entry.value, existing, call, found).migrations == []
        then Err(MissingMigrations) else Ok(())
    else if existing.None? then Err(UnknownTenantModule)
    else
      var s := existing.value;
      match call.command
      case Enable(_) =>
        if entry.None? then Err(UnknownModule)
        else if s.provisioned.None? then Err(NotProvisioned)
        else if InWorkflow(s.status) then Err(WrongStatus)
        else if !StartupReady(entry.value, s) then Err(MissingMigrations)
        else Ok(())
      case Disable => if InWorkflow(s.status) then Err(WrongStatus) else Ok(())
      case Suspend => if InWorkflow(s.status) then Err(WrongStatus) else Ok(())
      case RequestDecommission(e) =>
        if s.provisioned.None? then Err(NotProvisioned)
        else if !s.status.Disabled? && !s.status.Suspended? then Err(WrongStatus)
        else if !HasAll(e, RequestPhase) then Err(MissingEvidence(RequestPhase))
        else Ok(())
      case BlockDecommission(e) => WorkflowGuard(s, e, BlockPhase)
      case CancelDecommission(e) => WorkflowGuard(s, e, CancelPhase)
      case ReopenDecommission(e) =>
        if !s.status.DecommissionBlocked? then Err(WrongStatus)
        else if s.requested.None? || s.blocked.None? then Err(NoTimestamp)
        else if !HasAll(s.evidence, RequestPhase) || !HasAll(s.evidence, BlockPhase) then
          Err(MissingEvidence(BlockPhase))
        else if !HasAll(e, ReopenPhase) then Err(MissingEvidence(ReopenPhase))
        else Ok(())
      case CompleteDecommission(e) => WorkflowGuard(s, e, CompletePhase)
  }

  function WorkflowGuard(s: TenantModule, e: Evidence, phase: Phase): Result<(), ModuleError>
    requires !phase.NoPhase?
  {
    if !s.status.DecommissionRequested? && !s.status.DecommissionBlocked? then Err(WrongStatus)
    else if s.requested.None? then Err(NoTimestamp)
    else if !HasAll(s.evidence, RequestPhase) then Err(MissingEvidence(RequestPhase))
    else if !HasAll(e, phase) then Err(MissingEvidence(phase))
    else Ok(())
  }

  /** The state a command proposes to the validator once its guards pass. */
  function Proposal(entry: Option<CatalogEntry>, existing: Option<TenantModule>, call: Call): TenantModule
    requires Guard(entry, existing, call).Ok?
  {
    var now := Some(call.stamp.at);
    match call.command
    case Provision(_, manifest) =>
      Provisioned(entry.value, existing, call, StartupEvidence(entry.value, manifest).value)
    case Enable(features) =>
      existing.value.(status := Enabled, features := if features.Some? then features.value else existing.value.features,
                      enabled := now, stamp := call.stamp)
    case Disable => existing.value.(status := Disabled, disabled := now, stamp := call.stamp)
    case Suspend => existing.value.(status := Suspended, stamp := call.stamp)
    case RequestDecommission(e) =>
      existing.value.(status := DecommissionRequested, features := AllOff(existing.value.features),
                      evidence := Merge(existing.value.evidence, e), requested := now, stamp := call.stamp)
    case BlockDecommission(e) =>
      existing.value.(status := DecommissionBlocked, features := AllOff(existing.value.features),
                      evidence := Merge(existing.value.evidence, e), blocked := now, stamp := call.stamp)
    case CancelDecommission(e) =>
      existing.value.(status := Disabled, features := AllOff(existing.value.features),
                      evidence := Merge(existing.value.evidence, e), disabled := now, cancelled := now,
                      stamp := call.stamp)
    case ReopenDecommission(e) =>
      existing.value.(status := DecommissionRequested, features := AllOff(existing.value.features),
                      evidence := Merge(existing.value.evidence, e), reopened := now, stamp := call.stamp)
    case CompleteDecommission(e) =>
      existing.value.(status := Decommissioned, features := AllOff(existing.value.features),
                      evidence := Merge(existing.value.evidence, e), decommissioned := now, stamp := call.stamp)
  }

  /** A command as a whole: guards, validator, and the store's own check. */
  function Perform(entry: Option<CatalogEntry>, existing: Option<TenantModule>, call: Call)
    : Result<TenantModule, ModuleError>
  {
    var _ :- Guard(entry, existing, call);
    var s := Proposal(entry, existing, call);
    if !Accepts(s) then Err(Rejected)
    else if entry.None? then Err(UnknownModule)
    else if !entry.value.installed then Err(NotDeployed)
    else Ok(s)
  }

  type ModuleKey = (string, string)
  type Catalog = map<string, CatalogEntry>

  predicate EntryOk(entry: CatalogEntry) {
    Distinct(entry.required)
  }

  /** The catalog files every entry under its own id, and required versions are distinct. */
  predicate CatalogOk(catalog: Catalog) {
    forall id :: id in catalog ==> catalog[id].moduleId == id && EntryOk(catalog[id])
  }

  /** Every state is filed under its own tenant and module. */
  predicate Filed(modules: map<ModuleKey, TenantModule>) {
    forall k :: k in modules ==> k == (modules[k].tenant, modules[k].moduleId)
  }

  function Find<K, V>(m: map<K, V>, k: K): Option<V> {
    if k in m then Some(m[k]) else None
  }

  function PerformIn(catalog: Catalog, modules: map<ModuleKey, TenantModule>, call: Call)
    : Result<TenantModule, ModuleError>
  {
    Perform(Find(catalog, call.moduleId), Find(modules, (call.tenant, call.moduleId)), call)
  }

  function After(catalog: Catalog, modules: map<ModuleKey, TenantModule>, call: Call): map<ModuleKey, TenantModule> {
    var r := PerformIn(catalog, modules, call);
    if r.Ok? then modules[(call.tenant, call.moduleId) := r.value] else modules
  }

  // ---- the gate ----

  datatype Surface = NormalApi | ComplianceApi | FeatureWorker | ComplianceWorker

  predicate ComplianceAccess(s: Status) {
    s.Enabled? || s.Disabled? || s.Suspended? || s.DecommissionRequested? || s.DecommissionBlocked?
  }

  /** `require_module_gate`. */
  function Gate(entry: Option<CatalogEntry>, existing: Option<TenantModule>, surface: Surface, feature: Option<string>)
    : Result<Status, ModuleError>
  {
    if existing.None? then Err(UnknownTenantModule)
    else
      var s := existing.value;
      if feature.Some? && !FeatureScoped(s.moduleId, feature.value) then Err(FeatureForeign)
      else if surface.NormalApi? || surface.FeatureWorker? then
        if !s.status.Enabled? then Err(NotEnabled)
        else if feature.Some? && !(feature.value in s.features && s.features[feature.value]) then Err(FeatureOff)
        else if entry.None? then Err(UnknownModule)
        else if !StartupReady(entry.value, s) then Err(MissingMigrations)
        else Ok(s.status)
      else if !ComplianceAccess(s.status) then Err(NoComplianceAccess)
      else Ok(s.status)
  }
}
