/** The local KMS adapter: which key references it honours, rotation to the next version, and the
    set of destroyed key versions that gates everything else. */
module KmsAdapter {
  import opened Wrappers
  import opened Text
  import opened KeyReference

  datatype ClassPolicy = ClassPolicy(class_: DataClass, minVersion: nat, humanApproval: bool, cryptoshred: bool) {
    /** The policy record's own validator. */
    predicate Safe() {
      && minVersion >= 1
      && (cryptoshred ==> class_ != Gobd && class_ != LegalHoldClass)
      && (cryptoshred ==> humanApproval)
    }
  }

  type Policy = seq<ClassPolicy>

  /** The adapter policy's validator: safe entries, one per data class. */
  predicate PolicyOk(policy: Policy) {
    && (forall p :: p in policy ==> p.Safe())
    && (forall i, j :: 0 <= i < j < |policy| ==> policy[i].class_ != policy[j].class_)
    && (forall c: DataClass :: PolicyFor(policy, c).Some?)
  }

  function PolicyFor(policy: Policy, c: DataClass): Option<ClassPolicy> {
    if policy == [] then None
    else if policy[0].class_ == c then Some(policy[0])
    else PolicyFor(policy[1..], c)
  }

  datatype KmsError =
    | BadReference(cause: KeyRefError) | TenantMismatch | ClassMismatch | PolicyMissing | BelowMinimum | KeyDestroyed
    | HoldBlocks | ClassBlocks | LifecycleBlocks | ApprovalMissing | CryptoshredForbidden

  /** Canonical texts of the key versions destroyed so far. */
  type Destroyed = set<string>

  /** `_validate_key_ref`. */
  function ValidateRef(policy: Policy, destroyed: Destroyed, tenant: string, c: DataClass, ref: string)
    : Result<KeyRef, KmsError>
  {
    match Parse(ref)
    case Err(e) => Err(BadReference(e))
    case Ok(key) =>
      if key.tenant != tenant then Err(TenantMismatch)
      else if key.class_ != c then Err(ClassMismatch)
      else match PolicyFor(policy, c)
           case None => Err(PolicyMissing)
           case Some(p) =>
             if key.version < p.minVersion then Err(BelowMinimum)
             else if key.Canonical() in destroyed then Err(KeyDestroyed)
             else Ok(key)
  }

  function NextVersion(key: KeyRef): KeyRef {
    key.(version := key.version + 1)
  }

  /** `rotate_key_reference`: the current and the new reference. Only the current one is checked
      against the destroyed set. */
  function Rotate(policy: Policy, destroyed: Destroyed, tenant: string, c: DataClass, ref: string)
    : Result<(KeyRef, KeyRef), KmsError>
  {
    var key :- ValidateRef(policy, destroyed, tenant, c, ref);
    Ok((key, NextVersion(key)))
  }

  datatype DestroyCommand = DestroyCommand(
    tenant: string, class_: DataClass, ref: string, holdState: string, lifecycle: string, approvalRef: string)

  function DestructionBarrier(p: ClassPolicy, c: DestroyCommand): Option<KmsError> {
    if c.holdState == "active" then Some(HoldBlocks)
    else if c.class_ == Gobd || c.class_ == LegalHoldClass then Some(ClassBlocks)
    else if c.lifecycle == "business_record" || c.lifecycle == "worm_evidence" then Some(LifecycleBlocks)
    else if p.humanApproval && c.approvalRef == "" then Some(ApprovalMissing)
    else if !p.cryptoshred then Some(CryptoshredForbidden)
    else None
  }

  /** `record_key_destruction`: the reference whose canonical text it adds. */
  function Destroy(policy: Policy, destroyed: Destroyed, c: DestroyCommand): Result<KeyRef, KmsError> {
    var key :- ValidateRef(policy, destroyed, c.tenant, c.class_, c.ref);
    match PolicyFor(policy, c.class_)
    case None => Err(PolicyMissing)
    case Some(p) =>
      match DestructionBarrier(p, c)
      case Some(e) => Err(e)
      case None => Ok(key)
  }

  function After(policy: Policy, destroyed: Destroyed, c: DestroyCommand): Destroyed {
    var r := Destroy(policy, destroyed, c);
    if r.Ok? then destroyed + {r.value.Canonical()} else destroyed
  }

  class LocalKmsAdapter {
    const policy: Policy
    var destroyed: Destroyed

    constructor (policy: Policy)
      requires PolicyOk(policy)
      ensures this.policy == policy && destroyed == {}
    {
      this.policy := policy;
      destroyed := {};
    }

    method RecordKeyDestruction(c: DestroyCommand) returns (r: Result<KeyRef, KmsError>)
      modifies this
      ensures r == Destroy(policy, old(destroyed), c) && destroyed == After(policy, old(destroyed), c)
    {
      var key :- ValidateRef(policy, destroyed, c.tenant, c.class_, c.ref);
      var p := PolicyFor(policy, c.class_);
      if p.None? {
        return Err(PolicyMissing);
      }
      var barrier := DestructionBarrier(p.value, c);
      if barrier.Some? {
        return Err(barrier.value);
      }
      destroyed := destroyed + {key.Canonical()};
      return Ok(key);
    }
  }

  // ---- what the references mean ----

  lemma {:induction false} PolicyForFinds(policy: Policy, c: DataClass)
    ensures PolicyFor(policy, c).Some? ==>
              PolicyFor(policy, c).value in policy && PolicyFor(policy, c).value.class_ == c
    ensures PolicyFor(policy, c).None? ==> forall p :: p in policy ==> p.class_ != c
  {
    if policy != [] {
      PolicyForFinds(policy[1..], c);
      assert policy == [policy[0]] + policy[1..];
    }
  }

  /** Under a valid policy the entry consulted for a class is the one entry of that class. */
  lemma PolicyForIsUnique(policy: Policy, c: DataClass)
    requires PolicyOk(policy)
    ensures PolicyFor(policy, c).Some?
    ensures forall p :: p in policy && p.class_ == c <==> PolicyFor(policy, c) == Some(p)
  {
    PolicyForFinds(policy, c);
    var found := PolicyFor(policy, c).value;
    forall p | p in policy && p.class_ == c ensures p == found {
      var i, j :| 0 <= i < |policy| && 0 <= j < |policy| && policy[i] == p && policy[j] == found;
    }
  }

  /** A live key reference: valid, slash-free, of the tenant and class, recent enough and not
      destroyed. */
  ghost predicate Live(policy: Policy, destroyed: Destroyed, tenant: string, c: DataClass, key: KeyRef) {
    && key.Valid() && '/' !in key.tenant && key.tenant == tenant && key.class_ == c
    && PolicyFor(policy, c).Some? && key.version >= PolicyFor(policy, c).value.minVersion
    && key.Canonical() !in destroyed
  }

  /** The adapter honours exactly the texts that are, up to outer white space, the canonical text
      of a live reference. */
  lemma ValidatesExactlyLive(
    policy: Policy, destroyed: Destroyed, tenant: string, c: DataClass, ref: string, key: KeyRef)
    ensures ValidateRef(policy, destroyed, tenant, c, ref) == Ok(key)
            <==> Strip(ref) == key.Canonical() && Live(policy, destroyed, tenant, c, key)
  {
    ParsedPrintsBack(ref);
    if Strip(ref) == key.Canonical() && Live(policy, destroyed, tenant, c, key) {
      CanonicalRoundTrip(key);
      ParseIgnoresOuterSpace(ref);
    }
  }

  lemma ParseIgnoresOuterSpace(ref: string)
    ensures Parse(ref) == Parse(Strip(ref))
  {
    StripFacts(ref);
    StripFacts(Strip(ref));
  }

  /** Canonical texts tell references apart. */
  lemma CanonicalDistinguishes(a: KeyRef, b: KeyRef)
    requires a.Valid() && b.Valid() && '/' !in a.tenant && '/' !in b.tenant && a.Canonical() == b.Canonical()
    ensures a == b
  {
    CanonicalRoundTrip(a);
    CanonicalRoundTrip(b);
  }

  /** Rotation keeps the reference well-formed and moves it one version up. It succeeds whether or
      not the new version is destroyed already. */
  lemma RotationStepsOne(policy: Policy, destroyed: Destroyed, tenant: string, c: DataClass, ref: string)
    ensures var r := Rotate(policy, destroyed, tenant, c, ref);
            r.Ok? ==>
              && r.value.1.Valid() && '/' !in r.value.1.tenant && r.value.1.version == r.value.0.version + 1
              && r.value.1.tenant == tenant && r.value.1.class_ == c
              && (ValidateRef(policy, destroyed, tenant, c, r.value.1.Canonical()) == Ok(r.value.1)
                  <==> r.value.1.Canonical() !in destroyed)
  {
    var r := Rotate(policy, destroyed, tenant, c, ref);
    if r.Ok? {
      ValidatesExactlyLive(policy, destroyed, tenant, c, ref, r.value.0);
      CanonicalShape(r.value.1);
      ValidatesExactlyLive(policy, destroyed, tenant, c, r.value.1.Canonical(), r.value.1);
    }
  }

  // ---- whole runs ----

  predicate Taken(policy: Policy, states: seq<Destroyed>, steps: seq<DestroyCommand>, i: nat) {
    i < |steps| && i + 1 < |states| && states[i + 1] == After(policy, states[i], steps[i])
  }

  predicate Run(policy: Policy, states: seq<Destroyed>, steps: seq<DestroyCommand>) {
    && PolicyOk(policy) && |states| == |steps| + 1 && states[0] == {}
    && forall i :: 0 <= i < |steps| ==> Taken(policy, states, steps, i)
  }

  lemma {:induction false} DestroyedGrows(
    policy: Policy, states: seq<Destroyed>, steps: seq<DestroyCommand>, i: nat, j: nat)
    requires Run(policy, states, steps) && i <= j < |states|
    ensures states[i] <= states[j]
  {
    if i < j {
      DestroyedGrows(policy, states, steps, i, j - 1);
      assert Taken(policy, states, steps, j - 1);
    }
  }

  /** A text names a key that may be destroyed: canonical, of a class that allows it. */
  ghost predicate Shreddable(policy: Policy, text: string) {
    exists key: KeyRef ::
      && key.Valid() && '/' !in key.tenant && text == key.Canonical()
      && key.class_ != Gobd && key.class_ != LegalHoldClass
      && PolicyFor(policy, key.class_).Some? && PolicyFor(policy, key.class_).value.cryptoshred
  }

  lemma DestroyedIsShreddable(policy: Policy, destroyed: Destroyed, c: DestroyCommand)
    requires Destroy(policy, destroyed, c).Ok?
    ensures Shreddable(policy, Destroy(policy, destroyed, c).value.Canonical())
  {
    var key := Destroy(policy, destroyed, c).value;
    ValidatesExactlyLive(policy, destroyed, c.tenant, c.class_, c.ref, key);
  }

  /** No run ever destroys a GoBD or legal-hold key, or one whose class policy forbids it. */
  lemma OnlyShreddableDestroyed(
    policy: Policy, states: seq<Destroyed>, steps: seq<DestroyCommand>, i: nat, key: KeyRef)
    requires Run(policy, states, steps) && i < |states| && key.Valid() && '/' !in key.tenant
    requires key.Canonical() in states[i]
    ensures key.class_ != Gobd && key.class_ != LegalHoldClass
    ensures exists p :: p in policy && p.class_ == key.class_
    ensures forall p :: p in policy && p.class_ == key.class_ ==> p.cryptoshred && p.humanApproval
  {
    DestroyedIsAllowed(policy, states, steps, i, key);
    PolicyForIsUnique(policy, key.class_);
    assert PolicyFor(policy, key.class_).value.Safe();
  }

  lemma {:induction false} DestroyedIsAllowed(
    policy: Policy, states: seq<Destroyed>, steps: seq<DestroyCommand>, i: nat, key: KeyRef)
    requires Run(policy, states, steps) && i < |states| && key.Valid() && '/' !in key.tenant
    requires key.Canonical() in states[i]
    ensures key.class_ != Gobd && key.class_ != LegalHoldClass
    ensures PolicyFor(policy, key.class_).Some? && PolicyFor(policy, key.class_).value.cryptoshred
  {
    assert i > 0;
    assert Taken(policy, states, steps, i - 1);
    if key.Canonical() in states[i - 1] {
      DestroyedIsAllowed(policy, states, steps, i - 1, key);
    } else {
      DestroyedIsShreddable(policy, states[i - 1], steps[i - 1]);
      var other: KeyRef :|
        && other.Valid() && '/' !in other.tenant && key.Canonical() == other.Canonical()
        && other.class_ != Gobd && other.class_ != LegalHoldClass
        && PolicyFor(policy, other.class_).Some? && PolicyFor(policy, other.class_).value.cryptoshred;
      CanonicalDistinguishes(key, other);
    }
  }

  lemma GoneIsRefused(policy: Policy, destroyed: Destroyed, tenant: string, c: DataClass, ref: string)
    requires Strip(ref) in destroyed
    ensures ValidateRef(policy, destroyed, tenant, c, ref).Err?
  {
    ParsedPrintsBack(ref);
  }

  lemma OthersUnchanged(policy: Policy, destroyed: Destroyed, text: string, tenant: string, c: DataClass, ref: string)
    requires Strip(ref) != text
    ensures ValidateRef(policy, destroyed + {text}, tenant, c, ref) == ValidateRef(policy, destroyed, tenant, c, ref)
  {
    ParsedPrintsBack(ref);
  }

  /** Destruction is exact and for good: from the step that destroys a key on, no text is honoured
      as that key, whatever else happens; and the step itself changes the answer for no other. */
  lemma DestructionIsExact(
    policy: Policy, states: seq<Destroyed>, steps: seq<DestroyCommand>, i: nat, j: nat, tenant: string, c: DataClass,
    ref: string)
    requires Run(policy, states, steps) && i < j < |states| && Destroy(policy, states[i], steps[i]).Ok?
    ensures var gone := Destroy(policy, states[i], steps[i]).value.Canonical();
            && (Strip(ref) == gone ==> ValidateRef(policy, states[j], tenant, c, ref).Err?)
            && (Strip(ref) != gone ==>
                  ValidateRef(policy, states[i + 1], tenant, c, ref) == ValidateRef(policy, states[i], tenant, c, ref))
  {
    var gone := Destroy(policy, states[i], steps[i]).value.Canonical();
    assert Taken(policy, states, steps, i);
    DestroyedGrows(policy, states, steps, i + 1, j);
    if Strip(ref) == gone {
      GoneIsRefused(policy, states[j], tenant, c, ref);
    } else {
      OthersUnchanged(policy, states[i], gone, tenant, c, ref);
    }
  }

  /** A run can destroy the version after a live one, so that a rotation of the live version leads to
      a destroyed one: one destruction of a class that allows it is enough. */
  lemma NextVersionFirst(policy: Policy, key: KeyRef) returns (states: seq<Destroyed>, steps: seq<DestroyCommand>)
    requires PolicyOk(policy) && Live(policy, {}, key.tenant, key.class_, key)
    requires PolicyFor(policy, key.class_).value.cryptoshred
    ensures Run(policy, states, steps) && |steps| == 1
    ensures NextVersion(key).Canonical() in states[1] && key.Canonical() !in states[1]
    ensures Rotate(policy, states[1], key.tenant, key.class_, key.Canonical()) == Ok((key, NextVersion(key)))
  {
    var next := NextVersion(key);
    PolicyForIsUnique(policy, key.class_);
    CanonicalShape(key);
    CanonicalShape(next);
    ValidatesExactlyLive(policy, {}, key.tenant, key.class_, next.Canonical(), next);
    var c := DestroyCommand(key.tenant, key.class_, next.Canonical(), "none", "working", "approval:1");
    assert PolicyFor(policy, key.class_).value.Safe();
    NotBarred(PolicyFor(policy, key.class_).value, c);
    steps := [c];
    states := [{}, After(policy, {}, c)];
    assert Taken(policy, states, steps, 0);
    if key.Canonical() == next.Canonical() {
      CanonicalDistinguishes(key, next);
      assert false;
    }
    ValidatesExactlyLive(policy, states[1], key.tenant, key.class_, key.Canonical(), key);
  }

  lemma NotBarred(p: ClassPolicy, c: DestroyCommand)
    requires p.Safe() && p.cryptoshred && p.class_ == c.class_
    requires c.holdState == "none" && c.lifecycle == "working" && c.approvalRef != ""
    ensures DestructionBarrier(p, c).None?
  {
    assert |"none"| != |"active"| && |"working"| != |"business_record"| && |"working"| != |"worm_evidence"|;
  }
}
