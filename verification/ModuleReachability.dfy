/** Which states of a tenant module can still be decommissioned, and which ones the commands lead to
    although nothing leads out of them. */
module ModuleReachability {
  import opened Wrappers
  import opened Modules
  import opened ModuleLifecycle

  datatype Act = Act(command: Command, stamp: Stamp)

  function CallOf(s: TenantModule, a: Act): Call {
    Call(s.tenant, s.moduleId, a.command, a.stamp)
  }

  /** Performs the commands in turn, each on what the one before it stored. */
  function PerformAll(entry: CatalogEntry, s: TenantModule, acts: seq<Act>): Result<TenantModule, ModuleError>
    decreases |acts|
  {
    if acts == [] then Ok(s)
    else
      var next :- Perform(Some(entry), Some(s), CallOf(s, acts[0]));
      PerformAll(entry, next, acts[1..])
  }

  /** A sound state of the entry's module. */
  predicate Ready(entry: CatalogEntry, s: TenantModule) {
    entry.moduleId == s.moduleId && EntryOk(entry) && Sound(entry, s)
  }

  lemma Then(entry: CatalogEntry, s: TenantModule, a: Act, next: TenantModule, rest: seq<Act>)
    requires Perform(Some(entry), Some(s), CallOf(s, a)) == Ok(next)
    ensures PerformAll(entry, s, [a] + rest) == PerformAll(entry, next, rest)
  {
    assert ([a] + rest)[1..] == rest;
  }

  /** A command that passes its guards with a well-formed call stores what it proposes. */
  lemma NextStep(entry: CatalogEntry, s: TenantModule, a: Act) returns (next: TenantModule)
    requires Ready(entry, s) && CallOk(CallOf(s, a)) && !a.command.Disable?
    requires Guard(Some(entry), Some(s), CallOf(s, a)).Ok?
    ensures Perform(Some(entry), Some(s), CallOf(s, a)) == Ok(next) && Ready(entry, next)
    ensures next == Proposal(Some(entry), Some(s), CallOf(s, a))
  {
    PerformsExactly(Some(entry), Some(s), CallOf(s, a));
    next := Perform(Some(entry), Some(s), CallOf(s, a)).value;
    PerformProposes(Some(entry), Some(s), CallOf(s, a));
    PerformKeepsSound(Some(entry), Some(s), CallOf(s, a));
  }

  // ---- the way to DECOMMISSIONED ----

  /** Some complete evidence for a phase. */
  function Papers(p: Phase): (e: Evidence)
    requires !p.NoPhase?
    ensures EvidenceOk(e) && Covers(e, p)
  {
    assert Namespaced("ref:1") by {
      var s := "ref:1";
      assert s[3] == ':' && LowerOrDigit(s[0]) && LowerOrDigit(s[1]) && LowerOrDigit(s[2]);
    }
    map k | k in RequiredKeys(p) :: "ref:1"
  }

  /** A manifest with every migration the entry requires. */
  function FullManifest(entry: CatalogEntry): seq<Migration> {
    seq(|entry.required|, i requires 0 <= i < |entry.required| => Migration(entry.required[i], "core", true, ""))
  }

  function FromRequested(stamp: Stamp): seq<Act> {
    [Act(CompleteDecommission(Papers(CompletePhase)), stamp)]
  }

  function FromDisabled(stamp: Stamp): seq<Act> {
    [Act(RequestDecommission(Papers(RequestPhase)), stamp)] + FromRequested(stamp)
  }

  /** How a module is taken out of service: provisioned first if it never was, suspended if it is
      enabled, then requested, then completed. */
  function WayOut(entry: CatalogEntry, status: Status, stamp: Stamp): (acts: seq<Act>)
    ensures |acts| <= 3
  {
    match status
    case Available => [Act(Provision(None, Some(FullManifest(entry))), stamp)] + FromDisabled(stamp)
    case Enabled => [Act(Suspend, stamp)] + FromDisabled(stamp)
    case Disabled | Suspended => FromDisabled(stamp)
    case DecommissionRequested | DecommissionBlocked => FromRequested(stamp)
    case _ => []
  }

  lemma RequestedGetsOut(entry: CatalogEntry, s: TenantModule, stamp: Stamp) returns (gone: TenantModule)
    requires Ready(entry, s) && stamp.Valid() && s.provisioned.Some?
    requires s.status.DecommissionRequested? || s.status.DecommissionBlocked?
    ensures PerformAll(entry, s, FromRequested(stamp)) == Ok(gone) && gone.status.Decommissioned?
  {
    var a := Act(CompleteDecommission(Papers(CompletePhase)), stamp);
    gone := NextStep(entry, s, a);
    Then(entry, s, a, gone, []);
    assert FromRequested(stamp) == [a] + [];
  }

  lemma DisabledGetsOut(entry: CatalogEntry, s: TenantModule, stamp: Stamp) returns (gone: TenantModule)
    requires Ready(entry, s) && stamp.Valid() && s.provisioned.Some?
    requires s.status.Disabled? || s.status.Suspended?
    ensures PerformAll(entry, s, FromDisabled(stamp)) == Ok(gone) && gone.status.Decommissioned?
  {
    var a := Act(RequestDecommission(Papers(RequestPhase)), stamp);
    var requested := NextStep(entry, s, a);
    gone := RequestedGetsOut(entry, requested, stamp);
    Then(entry, s, a, requested, FromRequested(stamp));
  }

  lemma EnabledGetsOut(entry: CatalogEntry, s: TenantModule, stamp: Stamp) returns (gone: TenantModule)
    requires Ready(entry, s) && stamp.Valid() && s.provisioned.Some? && s.status.Enabled?
    ensures PerformAll(entry, s, [Act(Suspend, stamp)] + FromDisabled(stamp)) == Ok(gone) && gone.status.Decommissioned?
  {
    var suspended := NextStep(entry, s, Act(Suspend, stamp));
    gone := DisabledGetsOut(entry, suspended, stamp);
    Then(entry, s, Act(Suspend, stamp), suspended, FromDisabled(stamp));
  }

  lemma {:induction false} PickSucceeds(versions: seq<string>, index: map<string, Migration>, moduleId: string)
    requires forall v :: v in versions ==> v in index && index[v].blocksStartup && index[v].moduleId == "core"
    ensures Pick(versions, index, moduleId).Ok?
  {
    if versions != [] {
      PickSucceeds(versions[..|versions| - 1], index, moduleId);
    }
  }

  lemma FullManifestSuffices(entry: CatalogEntry)
    requires EntryOk(entry)
    ensures StartupEvidence(entry, Some(FullManifest(entry))).Ok?
  {
    var manifest := FullManifest(entry);
    ByVersionIndexes(manifest);
    var index := ByVersion(manifest).value;
    forall v | v in entry.required ensures v in index && index[v].blocksStartup && index[v].moduleId == "core" {
      var i :| 0 <= i < |entry.required| && entry.required[i] == v;
      assert manifest[i] in manifest && manifest[i].version == v;
    }
    SortedVersionsMembers(entry.required);
    PickSucceeds(SortedVersions(entry.required), index, entry.moduleId);
  }

  lemma AvailableGetsOut(entry: CatalogEntry, s: TenantModule, stamp: Stamp) returns (gone: TenantModule)
    requires Ready(entry, s) && stamp.Valid() && s.status.Available?
    ensures PerformAll(entry, s, WayOut(entry, Available, stamp)) == Ok(gone) && gone.status.Decommissioned?
  {
    var a := Act(Provision(None, Some(FullManifest(entry))), stamp);
    FullManifestSuffices(entry);
    StartupEvidenceComplete(entry, Some(FullManifest(entry)), StartupEvidence(entry, Some(FullManifest(entry))).value);
    var provisioned := NextStep(entry, s, a);
    gone := DisabledGetsOut(entry, provisioned, stamp);
    Then(entry, s, a, provisioned, FromDisabled(stamp));
  }

  /** Every module that is provisioned or still AVAILABLE can be decommissioned in at most three commands. */
  lemma CanBeDecommissioned(entry: CatalogEntry, s: TenantModule, stamp: Stamp) returns (gone: TenantModule)
    requires Ready(entry, s) && stamp.Valid() && (s.provisioned.Some? || s.status.Available?)
    ensures PerformAll(entry, s, WayOut(entry, s.status, stamp)) == Ok(gone) && gone.status.Decommissioned?
  {
    match s.status {
      case Available => gone := AvailableGetsOut(entry, s, stamp);
      case Enabled => gone := EnabledGetsOut(entry, s, stamp);
      case Disabled | Suspended => gone := DisabledGetsOut(entry, s, stamp);
      case DecommissionRequested | DecommissionBlocked => gone := RequestedGetsOut(entry, s, stamp);
      case _ => gone := s;
    }
  }

  // ---- the trap ----

  /** Disabled or suspended without ever having been provisioned. */
  predicate Trapped(s: TenantModule) {
    s.provisioned.None? && (s.status.Disabled? || s.status.Suspended?)
  }

  lemma {:induction false} TrapHolds(entry: CatalogEntry, s: TenantModule, acts: seq<Act>)
    requires Ready(entry, s) && Trapped(s) && PerformAll(entry, s, acts).Ok?
    ensures Trapped(PerformAll(entry, s, acts).value)
    decreases |acts|
  {
    if acts != [] {
      PerformStep(Some(entry), s, CallOf(s, acts[0]));
      PerformKeepsSound(Some(entry), Some(s), CallOf(s, acts[0]));
      TrapHolds(entry, Perform(Some(entry), Some(s), CallOf(s, acts[0])).value, acts[1..]);
    }
  }

  /** The exact condition: some commands, with whatever stamps, take a sound module to DECOMMISSIONED
      if and only if it is provisioned or still AVAILABLE. */
  lemma DecommissionableExactly(entry: CatalogEntry, s: TenantModule)
    requires Ready(entry, s)
    ensures (exists acts :: PerformAll(entry, s, acts).Ok? && PerformAll(entry, s, acts).value.status.Decommissioned?)
            <==> s.provisioned.Some? || s.status.Available?
  {
    if s.provisioned.Some? || s.status.Available? {
      var gone := CanBeDecommissioned(entry, s, s.stamp);
      assert PerformAll(entry, s, WayOut(entry, s.status, s.stamp)) == Ok(gone);
    } else {
      assert Trapped(s);
      forall acts | PerformAll(entry, s, acts).Ok? ensures !PerformAll(entry, s, acts).value.status.Decommissioned? {
        TrapHolds(entry, s, acts);
      }
    }
  }

  /** The trap is one command away: disabling or suspending a seeded module succeeds and leads into it. */
  lemma SeedFallsIntoTrap(entry: CatalogEntry, s: TenantModule, stamp: Stamp)
    requires entry.moduleId == s.moduleId && EntryOk(entry) && entry.installed && Seed(s) && stamp.Valid()
    ensures forall command | command == Disable || command == Suspend ::
              var r := Perform(Some(entry), Some(s), CallOf(s, Act(command, stamp))); r.Ok? && Trapped(r.value)
  {
    PerformsExactly(Some(entry), Some(s), CallOf(s, Act(Disable, stamp)));
    PerformsExactly(Some(entry), Some(s), CallOf(s, Act(Suspend, stamp)));
  }

  // ---- the refusal of disable ----

  lemma RequestStep(entry: CatalogEntry, s: TenantModule, stamp: Stamp) returns (next: TenantModule)
    requires Ready(entry, s) && stamp.Valid() && s.provisioned.Some? && s.status.Disabled?
    ensures Perform(Some(entry), Some(s), CallOf(s, Act(RequestDecommission(Papers(RequestPhase)), stamp))) == Ok(next)
    ensures Ready(entry, next) && next.provisioned.Some? && next.status.DecommissionRequested?
  {
    next := NextStep(entry, s, Act(RequestDecommission(Papers(RequestPhase)), stamp));
  }

  lemma CancelStep(entry: CatalogEntry, s: TenantModule, stamp: Stamp) returns (next: TenantModule)
    requires Ready(entry, s) && stamp.Valid() && s.provisioned.Some? && s.status.DecommissionRequested?
    ensures Perform(Some(entry), Some(s), CallOf(s, Act(CancelDecommission(Papers(CancelPhase)), stamp))) == Ok(next)
    ensures Ready(entry, next) && next.provisioned.Some? && next.status.Disabled? && next.cancelled.Some?
  {
    next := NextStep(entry, s, Act(CancelDecommission(Papers(CancelPhase)), stamp));
  }

  lemma EnableStep(entry: CatalogEntry, s: TenantModule, feature: string, stamp: Stamp) returns (next: TenantModule)
    requires Ready(entry, s) && stamp.Valid() && s.provisioned.Some? && s.status.Disabled?
    requires FeatureScoped(s.moduleId, feature)
    ensures Perform(Some(entry), Some(s), CallOf(s, Act(Enable(Some(map[feature := true])), stamp))) == Ok(next)
    ensures Ready(entry, next) && next.status.Enabled? && next.cancelled == s.cancelled && AnyOn(next.features)
  {
    next := NextStep(entry, s, Act(Enable(Some(map[feature := true])), stamp));
    assert feature in next.features && next.features[feature];
  }

  /** Modules that cannot be disabled although the guard of `disable` lets them pass: any provisioned,
      disabled module gets there by a request, its cancellation, and an enablement that turns a
      feature of the module on. */
  lemma CancelThenEnableLeadsThere(entry: CatalogEntry, s: TenantModule, feature: string, stamp: Stamp)
    returns (there: TenantModule)
    requires Ready(entry, s) && stamp.Valid() && s.provisioned.Some? && s.status.Disabled?
    requires FeatureScoped(s.moduleId, feature)
    ensures var request := Act(RequestDecommission(Papers(RequestPhase)), stamp);
            var cancel := Act(CancelDecommission(Papers(CancelPhase)), stamp);
            PerformAll(entry, s, [request, cancel, Act(Enable(Some(map[feature := true])), stamp)]) == Ok(there)
    ensures Ready(entry, there) && there.status.Enabled? && there.cancelled.Some? && AnyOn(there.features)
  {
    var requested := RequestStep(entry, s, stamp);
    var cancelled := CancelStep(entry, requested, stamp);
    there := EnableStep(entry, cancelled, feature, stamp);
    ThreeActs(entry, s, Act(RequestDecommission(Papers(RequestPhase)), stamp), requested,
              Act(CancelDecommission(Papers(CancelPhase)), stamp), cancelled,
              Act(Enable(Some(map[feature := true])), stamp), there);
  }

  lemma ThreeActs(
    entry: CatalogEntry, s: TenantModule, a: Act, s1: TenantModule, b: Act, s2: TenantModule, c: Act, s3: TenantModule)
    requires Perform(Some(entry), Some(s), CallOf(s, a)) == Ok(s1)
    requires Perform(Some(entry), Some(s1), CallOf(s1, b)) == Ok(s2)
    requires Perform(Some(entry), Some(s2), CallOf(s2, c)) == Ok(s3)
    ensures PerformAll(entry, s, [a, b, c]) == Ok(s3)
  {
    Then(entry, s2, c, s3, []);
    Then(entry, s1, b, s2, [c] + []);
    Then(entry, s, a, s1, [b] + ([c] + []));
    assert [a] + ([b] + ([c] + [])) == [a, b, c];
  }
}
