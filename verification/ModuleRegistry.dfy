/** The registry as an object: nine commands that rewrite entries of its table, each proved to do
    what `Modules.PerformIn` says and nothing else. */
module ModuleRegistry {
  import opened Wrappers
  import opened Modules

  class InMemoryModuleRegistry {
    const catalog: Catalog
    var tenantModules: map<ModuleKey, TenantModule>

    ghost predicate Valid()
      reads this
    {
      CatalogOk(catalog) && Filed(tenantModules)
    }

    constructor (catalog: Catalog, seeds: map<ModuleKey, TenantModule>)
      requires CatalogOk(catalog) && Filed(seeds)
      ensures Valid() && this.catalog == catalog && tenantModules == seeds
    {
      this.catalog, tenantModules := catalog, seeds;
    }

    /** What a call leaves behind: one entry rewritten, or nothing. */
    ghost predicate Did(before: map<ModuleKey, TenantModule>, call: Call, r: Result<TenantModule, ModuleError>)
      reads this
    {
      r == PerformIn(catalog, before, call) && tenantModules == After(catalog, before, call)
    }

    /** Validates and stores. */
    method Upsert(s: TenantModule) returns (r: Result<TenantModule, ModuleError>)
      requires Valid()
      modifies this
      ensures Valid()
      ensures r == if !Accepts(s) then Err(Rejected)
                   else if s.moduleId !in catalog then Err(UnknownModule)
                   else if !catalog[s.moduleId].installed then Err(NotDeployed)
                   else Ok(s)
      ensures tenantModules == if r.Ok? then old(tenantModules)[(s.tenant, s.moduleId) := s] else old(tenantModules)
    {
      if !Accepts(s) {
        return Err(Rejected);
      }
      if s.moduleId !in catalog {
        return Err(UnknownModule);
      }
      if !catalog[s.moduleId].installed {
        return Err(NotDeployed);
      }
      tenantModules := tenantModules[(s.tenant, s.moduleId) := s];
      return Ok(s);
    }

    method CollectByVersion(manifest: seq<Migration>) returns (r: Result<map<string, Migration>, ModuleError>)
      ensures r == ByVersion(manifest)
    {
      var index: map<string, Migration> := map[];
      for i := 0 to |manifest|
        invariant ByVersion(manifest[..i]) == Ok(index)
      {
        assert manifest[..i + 1][..i] == manifest[..i];
        if manifest[i].version in index {
          DuplicateStays(manifest, i + 1);
          return Err(DuplicateMigration);
        }
        index := index[manifest[i].version := manifest[i]];
      }
      assert manifest[..|manifest|] == manifest;
      return Ok(index);
    }

    method CollectEvidence(entry: CatalogEntry, manifest: Option<seq<Migration>>)
      returns (r: Result<seq<Migration>, ModuleError>)
      ensures r == StartupEvidence(entry, manifest)
    {
      if entry.required == [] {
        return Ok([]);
      }
      var collected := CollectByVersion(if manifest.Some? then manifest.value else []);
      var index :- collected;
      if exists v | v in entry.required :: v !in index {
        return Err(MissingMigrations);
      }
      SortedVersionsMembers(entry.required);
      var versions := SortedVersions(entry.required);
      var found: seq<Migration> := [];
      for i := 0 to |versions|
        invariant forall v :: v in versions ==> v in index
        invariant Pick(versions[..i], index, entry.moduleId) == Ok(found)
      {
        assert versions[..i + 1][..i] == versions[..i];
        var m := index[versions[i]];
        if !m.blocksStartup {
          PickFails(versions, index, entry.moduleId, i + 1);
          return Err(NotBlockingStartup);
        }
        if m.moduleId != "core" && m.moduleId != entry.moduleId {
          PickFails(versions, index, entry.moduleId, i + 1);
          return Err(ForeignMigration);
        }
        found := found + [m];
      }
      assert versions[..|versions|] == versions;
      return Ok(found);
    }

    method ProvisionTenantModule(
      tenant: string, moduleId: string, features: Option<Features>, manifest: Option<seq<Migration>>, stamp: Stamp)
      returns (r: Result<TenantModule, ModuleError>)
      requires Valid()
      modifies this
      ensures Valid() && Did(old(tenantModules), Call(tenant, moduleId, Provision(features, manifest), stamp), r)
    {
      if moduleId !in catalog {
        return Err(UnknownModule);
      }
      var entry := catalog[moduleId];
      var existing := Find(tenantModules, (tenant, moduleId));
      if existing.Some? && !Provisionable(existing.value.status) {
        return Err(NotProvisionable);
      }
      var nextFeatures := map[];
      if features.Some? {
        nextFeatures := features.value;
      } else if existing.Some? {
        nextFeatures := existing.value.features;
      }
      var collected := CollectEvidence(entry, manifest);
      var migrations :- collected;
      if migrations == [] && existing.Some? {
        migrations := existing.value.migrations;
      }
      if entry.required != [] && migrations == [] {
        return Err(MissingMigrations);
      }
      r := Upsert(TenantModule(
        tenant, moduleId, Disabled, nextFeatures, migrations, map[], Some(stamp.at), None, Some(stamp.at), None,
        None, None,
        None, None, if existing.Some? then existing.value.created else stamp.at, stamp));
    }

    method EnableTenantModule(tenant: string, moduleId: string, features: Option<Features>, stamp: Stamp)
      returns (r: Result<TenantModule, ModuleError>)
      requires Valid()
      modifies this
      ensures Valid() && Did(old(tenantModules), Call(tenant, moduleId, Enable(features), stamp), r)
    {
      if (tenant, moduleId) !in tenantModules {
        return Err(UnknownTenantModule);
      }
      var existing := tenantModules[(tenant, moduleId)];
      if moduleId !in catalog {
        return Err(UnknownModule);
      }
      if existing.provisioned.None? {
        return Err(NotProvisioned);
      }
      if InWorkflow(existing.status) {
        return Err(WrongStatus);
      }
      if exists v | v in catalog[moduleId].required ::
           !exists m | m in existing.migrations :: m.version == v && m.blocksStartup {
        return Err(MissingMigrations);
      }
      r := Upsert(existing.(status := Enabled, features := if features.Some? then features.value else existing.features,
                            enabled := Some(stamp.at), stamp := stamp));
    }

    method DisableTenantModule(tenant: string, moduleId: string, stamp: Stamp)
      returns (r: Result<TenantModule, ModuleError>)
      requires Valid()
      modifies this
      ensures Valid() && Did(old(tenantModules), Call(tenant, moduleId, Disable, stamp), r)
    {
      if (tenant, moduleId) !in tenantModules {
        return Err(UnknownTenantModule);
      }
      var existing := tenantModules[(tenant, moduleId)];
      if InWorkflow(existing.status) {
        return Err(WrongStatus);
      }
      r := Upsert(existing.(status := Disabled, disabled := Some(stamp.at), stamp := stamp));
    }

    method SuspendTenantModule(tenant: string, moduleId: string, stamp: Stamp)
      returns (r: Result<TenantModule, ModuleError>)
      requires Valid()
      modifies this
      ensures Valid() && Did(old(tenantModules), Call(tenant, moduleId, Suspend, stamp), r)
    {
      if (tenant, moduleId) !in tenantModules {
        return Err(UnknownTenantModule);
      }
      var existing := tenantModules[(tenant, moduleId)];
      if InWorkflow(existing.status) {
        return Err(WrongStatus);
      }
      r := Upsert(existing.(status := Suspended, stamp := stamp));
    }

    method RequestDecommission(tenant: string, moduleId: string, e: Evidence, stamp: Stamp)
      returns (r: Result<TenantModule, ModuleError>)
      requires Valid()
      modifies this
      ensures Valid() && Did(old(tenantModules), Call(tenant, moduleId, Command.RequestDecommission(e), stamp), r)
    {
      if (tenant, moduleId) !in tenantModules {
        return Err(UnknownTenantModule);
      }
      var existing := tenantModules[(tenant, moduleId)];
      if existing.provisioned.None? {
        return Err(NotProvisioned);
      }
      if !existing.status.Disabled? && !existing.status.Suspended? {
        return Err(WrongStatus);
      }
      if !(RequiredKeys(RequestPhase) <= e.Keys) {
        return Err(MissingEvidence(RequestPhase));
      }
      r := Upsert(existing.(status := DecommissionRequested, features := AllOff(existing.features),
                            evidence := Merge(existing.evidence, e), requested := Some(stamp.at), stamp := stamp));
    }

    method BlockDecommission(tenant: string, moduleId: string, e: Evidence, stamp: Stamp)
      returns (r: Result<TenantModule, ModuleError>)
      requires Valid()
      modifies this
      ensures Valid() && Did(old(tenantModules), Call(tenant, moduleId, Command.BlockDecommission(e), stamp), r)
    {
      if (tenant, moduleId) !in tenantModules {
        return Err(UnknownTenantModule);
      }
      var existing := tenantModules[(tenant, moduleId)];
      var _ :- WorkflowGuard(existing, e, BlockPhase);
      r := Upsert(existing.(status := DecommissionBlocked, features := AllOff(existing.features),
                            evidence := Merge(existing.evidence, e), blocked := Some(stamp.at), stamp := stamp));
    }

    method CancelDecommission(tenant: string, moduleId: string, e: Evidence, stamp: Stamp)
      returns (r: Result<TenantModule, ModuleError>)
      requires Valid()
      modifies this
      ensures Valid() && Did(old(tenantModules), Call(tenant, moduleId, Command.CancelDecommission(e), stamp), r)
    {
      if (tenant, moduleId) !in tenantModules {
        return Err(UnknownTenantModule);
      }
      var existing := tenantModules[(tenant, moduleId)];
      var _ :- WorkflowGuard(existing, e, CancelPhase);
      r := Upsert(existing.(status := Disabled, features := AllOff(existing.features),
                            evidence := Merge(existing.evidence, e), disabled := Some(stamp.at),
                            cancelled := Some(stamp.at), stamp := stamp));
    }

    method ReopenDecommission(tenant: string, moduleId: string, e: Evidence, stamp: Stamp)
      returns (r: Result<TenantModule, ModuleError>)
      requires Valid()
      modifies this
      ensures Valid() && Did(old(tenantModules), Call(tenant, moduleId, Command.ReopenDecommission(e), stamp), r)
    {
      if (tenant, moduleId) !in tenantModules {
        return Err(UnknownTenantModule);
      }
      var existing := tenantModules[(tenant, moduleId)];
      if !existing.status.DecommissionBlocked? {
        return Err(WrongStatus);
      }
      if existing.requested.None? || existing.blocked.None? {
        return Err(NoTimestamp);
      }
      if !HasAll(existing.evidence, RequestPhase) || !HasAll(existing.evidence, BlockPhase) {
        return Err(MissingEvidence(BlockPhase));
      }
      if !HasAll(e, ReopenPhase) {
        return Err(MissingEvidence(ReopenPhase));
      }
      r := Upsert(existing.(status := DecommissionRequested, features := AllOff(existing.features),
                            evidence := Merge(existing.evidence, e), reopened := Some(stamp.at), stamp := stamp));
    }

    method CompleteDecommission(tenant: string, moduleId: string, e: Evidence, stamp: Stamp)
      returns (r: Result<TenantModule, ModuleError>)
      requires Valid()
      modifies this
      ensures Valid() && Did(old(tenantModules), Call(tenant, moduleId, Command.CompleteDecommission(e), stamp), r)
    {
      if (tenant, moduleId) !in tenantModules {
        return Err(UnknownTenantModule);
      }
      var existing := tenantModules[(tenant, moduleId)];
      var _ :- WorkflowGuard(existing, e, CompletePhase);
      r := Upsert(existing.(status := Decommissioned, features := AllOff(existing.features),
                            evidence := Merge(existing.evidence, e), decommissioned := Some(stamp.at), stamp := stamp));
    }
  }

  lemma {:induction false} DuplicateStays(manifest: seq<Migration>, n: nat)
    requires n <= |manifest| && ByVersion(manifest[..n]) == Err(DuplicateMigration)
    ensures ByVersion(manifest) == Err(DuplicateMigration)
    decreases |manifest| - n
  {
    if n == |manifest| {
      assert manifest[..n] == manifest;
    } else {
      assert manifest[..n + 1][..n] == manifest[..n];
      DuplicateStays(manifest, n + 1);
    }
  }

  lemma {:induction false} PickFails(versions: seq<string>, index: map<string, Migration>, moduleId: string, n: nat)
    requires forall v :: v in versions ==> v in index
    requires n <= |versions| && Pick(versions[..n], index, moduleId).Err?
    ensures Pick(versions, index, moduleId) == Pick(versions[..n], index, moduleId)
    decreases |versions| - n
  {
    if n == |versions| {
      assert versions[..n] == versions;
    } else {
      assert versions[..n + 1][..n] == versions[..n];
      PickFails(versions, index, moduleId, n + 1);
    }
  }
}
