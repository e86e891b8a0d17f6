/** Where served keys come from and how old they can be, over any sequence of lookups and any
    behaviour of the network. */
module OidcKeyCacheRuns {
  import opened Wrappers
  import opened OidcKeyCache

  /** The issuer's cached keys are exactly those of the index. */
  ghost predicate Holds(cache: Cache, issuer: string, index: KeyIndex) {
    && (forall kid :: (issuer, kid) in cache.keys <==> kid in index)
    && (forall kid :: kid in index ==> cache.keys[(issuer, kid)] == index[kid])
  }

  lemma InstalledAt(cache: Cache, issuer: string, index: KeyIndex, at: int, i: string, kid: string)
    ensures var keys := Installed(cache, issuer, index, at).keys;
            if i == issuer then (i, kid) in keys <==> kid in index else (i, kid) in keys <==> (i, kid) in cache.keys
    ensures var keys := Installed(cache, issuer, index, at).keys;
            (i, kid) in keys ==> keys[(i, kid)] == if i == issuer then index[kid] else cache.keys[(i, kid)]
  {
    var added := map id | id in index :: (issuer, id) := index[id];
    assert (i, kid) in added <==> i == issuer && kid in index;
  }

  /** Installing an index gives the issuer exactly those keys and leaves every other issuer's alone. */
  lemma InstallReplacesOne(cache: Cache, issuer: string, index: KeyIndex, at: int, other: string, kept: KeyIndex)
    ensures var after := Installed(cache, issuer, index, at);
            && Holds(after, issuer, index) && after.refreshedAt[issuer] == at
            && (other != issuer ==> (Holds(after, other, kept) <==> Holds(cache, other, kept))
                                    && (other in after.refreshedAt <==> other in cache.refreshedAt)
                                    && (other in cache.refreshedAt ==>
                                          after.refreshedAt[other] == cache.refreshedAt[other]))
  {
    var after := Installed(cache, issuer, index, at);
    forall kid ensures (issuer, kid) in after.keys <==> kid in index
               ensures kid in index ==> after.keys[(issuer, kid)] == index[kid] {
      InstalledAt(cache, issuer, index, at, issuer, kid);
    }
    if other != issuer {
      forall kid ensures (other, kid) in after.keys <==> (other, kid) in cache.keys
                 ensures (other, kid) in cache.keys ==> after.keys[(other, kid)] == cache.keys[(other, kid)] {
        InstalledAt(cache, issuer, index, at, other, kid);
      }
    }
  }

  /** A failed refresh changes no key and no refresh time. */
  lemma FailureKeepsKeys(config: Config, cache: Cache, issuer: string, now: int, a: Attempt)
    ensures var (after, error) := TryRefresh(config, cache, issuer, now, a);
            && (Yield(issuer, a).Err? ==> after.keys == cache.keys && after.refreshedAt == cache.refreshedAt)
            && (Yield(issuer, a).Ok? ==> error.None? && after == Installed(cache, issuer, Yield(issuer, a).value, a.at))
  {
  }

  // ---- provenance ----

  /** A successful refresh. */
  datatype Success = Success(issuer: string, index: KeyIndex, at: int)

  function SuccessOf(issuer: string, a: Attempt): seq<Success> {
    var y := Yield(issuer, a);
    if y.Ok? then [Success(issuer, y.value, a.at)] else []
  }

  /** The successful refreshes a lookup makes, in order. */
  function Successes(configs: map<string, Config>, cache: Cache, c: Call): seq<Success> {
    if c.issuer !in configs then []
    else
      var config := configs[c.issuer];
      var first := if Due(config, cache, c.issuer, c.now) then SuccessOf(c.issuer, c.first) else [];
      var (kept, error) := Ensured(config, cache, c);
      if error.Some? || (c.issuer, c.kid) in kept.keys then first else first + SuccessOf(c.issuer, c.second)
  }

  function Latest(log: seq<Success>, issuer: string): Option<Success> {
    if log == [] then None
    else if log[|log| - 1].issuer == issuer then Some(log[|log| - 1])
    else Latest(log[..|log| - 1], issuer)
  }

  /** The cache holds, for every issuer, the keys and the time of its latest successful refresh. */
  ghost predicate Reflects(cache: Cache, log: seq<Success>) {
    forall issuer :: ReflectsOne(cache, issuer, Latest(log, issuer))
  }

  ghost predicate ReflectsOne(cache: Cache, issuer: string, latest: Option<Success>) {
    match latest
    case None => Holds(cache, issuer, map[]) && issuer !in cache.refreshedAt
    case Some(s) => Holds(cache, issuer, s.index) && issuer in cache.refreshedAt && cache.refreshedAt[issuer] == s.at
  }

  lemma TryReflects(config: Config, cache: Cache, issuer: string, now: int, a: Attempt, log: seq<Success>)
    requires Reflects(cache, log)
    ensures Reflects(TryRefresh(config, cache, issuer, now, a).0, log + SuccessOf(issuer, a))
  {
    var after := TryRefresh(config, cache, issuer, now, a).0;
    var log' := log + SuccessOf(issuer, a);
    FailureKeepsKeys(config, cache, issuer, now, a);
    if Yield(issuer, a).Err? {
      assert log' == log;
      forall other ensures ReflectsOne(after, other, Latest(log', other)) {
        assert ReflectsOne(cache, other, Latest(log, other));
      }
    } else {
      assert log'[..|log'| - 1] == log;
      forall other ensures ReflectsOne(after, other, Latest(log', other)) {
        assert ReflectsOne(cache, other, Latest(log, other));
        InstallReplacesOne(cache, issuer, Yield(issuer, a).value, a.at, other, map[]);
        if Latest(log, other).Some? {
          InstallReplacesOne(cache, issuer, Yield(issuer, a).value, a.at, other, Latest(log, other).value.index);
        }
      }
    }
  }

  lemma LookupReflects(configs: map<string, Config>, cache: Cache, c: Call, log: seq<Success>)
    requires Reflects(cache, log)
    ensures Reflects(KeyFor(configs, cache, c).0, log + Successes(configs, cache, c))
  {
    if c.issuer !in configs {
      assert log + [] == log;
    } else {
      var config := configs[c.issuer];
      var (kept, error) := Ensured(config, cache, c);
      var first := if Due(config, cache, c.issuer, c.now) then SuccessOf(c.issuer, c.first) else [];
      assert log + [] == log;
      if Due(config, cache, c.issuer, c.now) {
        TryReflects(config, cache, c.issuer, c.now, c.first, log);
      }
      if error.None? && (c.issuer, c.kid) !in kept.keys {
        TryReflects(config, kept, c.issuer, c.now, c.second, log + first);
        assert log + first + SuccessOf(c.issuer, c.second) == log + (first + SuccessOf(c.issuer, c.second));
      }
    }
  }

  // ---- age ----

  /** The clock during one lookup does not go back: each refresh is stamped after the lookup began. */
  predicate Forward(c: Call) {
    c.now <= c.first.at && c.now <= c.second.at
  }

  /** How long a configuration lets keys be served, counted from their refresh. */
  predicate YoungEnough(config: Config, age: int) {
    match config.policy
    case FailClosed => age < config.interval
    case UseStaleKeys => age <= config.interval + config.grace
  }

  lemma EnsuredIsYoung(config: Config, cache: Cache, c: Call)
    requires config.Valid() && Forward(c) && Ensured(config, cache, c).1.None?
    ensures var kept := Ensured(config, cache, c).0;
            c.issuer in kept.refreshedAt && YoungEnough(config, c.now - kept.refreshedAt[c.issuer])
  {
  }

  /** A key handed out is young enough for its issuer's policy, and was not found by a failed
      rotation refresh. */
  lemma ServedIsYoung(configs: map<string, Config>, cache: Cache, c: Call)
    requires Forward(c) && (forall i :: i in configs ==> configs[i].Valid())
    requires KeyFor(configs, cache, c).1.Ok?
    ensures var (after, r) := KeyFor(configs, cache, c);
            && c.issuer in configs && (c.issuer, c.kid) in after.keys && r.value == after.keys[(c.issuer, c.kid)]
            && c.issuer in after.refreshedAt && YoungEnough(configs[c.issuer], c.now - after.refreshedAt[c.issuer])
  {
    EnsuredIsYoung(configs[c.issuer], cache, c);
  }

  // ---- refreshing all ----

  /** The successful refreshes among the visits. */
  function VisitSuccesses(visits: seq<Visit>): seq<Success>
    decreases |visits|
  {
    if visits == [] || Yield(visits[0].issuer, visits[0].attempt).Err? then []
    else SuccessOf(visits[0].issuer, visits[0].attempt) + VisitSuccesses(visits[1..])
  }

  lemma InstallReflects(cache: Cache, issuer: string, a: Attempt, log: seq<Success>)
    requires Reflects(cache, log) && Yield(issuer, a).Ok?
    ensures Reflects(Installed(cache, issuer, Yield(issuer, a).value, a.at), log + SuccessOf(issuer, a))
  {
    TryReflects(Config(1, 0, FailClosed), cache, issuer, 0, a, log);
  }

  /** Refreshing all issuers in turn keeps that, also when one of them fails and the rest are not tried. */
  lemma {:induction false} RefreshAllReflects(cache: Cache, visits: seq<Visit>, log: seq<Success>)
    requires Reflects(cache, log)
    ensures Reflects(RefreshAll(cache, visits).0, log + VisitSuccesses(visits))
    decreases |visits|
  {
    if visits == [] || Yield(visits[0].issuer, visits[0].attempt).Err? {
      assert log + [] == log;
    } else {
      var v := visits[0];
      var first := SuccessOf(v.issuer, v.attempt);
      InstallReflects(cache, v.issuer, v.attempt, log);
      RefreshAllReflects(Installed(cache, v.issuer, Yield(v.issuer, v.attempt).value, v.attempt.at), visits[1..],
                         log + first);
      assert log + first + VisitSuccesses(visits[1..]) == log + (first + VisitSuccesses(visits[1..]));
    }
  }

  // ---- runs ----

  datatype Step = Lookup(call: Call) | RefreshEvery(visits: seq<Visit>)

  function Next(configs: map<string, Config>, cache: Cache, s: Step): Cache {
    match s
    case Lookup(c) => KeyFor(configs, cache, c).0
    case RefreshEvery(visits) => RefreshAll(cache, visits).0
  }

  function StepSuccesses(configs: map<string, Config>, cache: Cache, s: Step): seq<Success> {
    match s
    case Lookup(c) => Successes(configs, cache, c)
    case RefreshEvery(visits) => VisitSuccesses(visits)
  }

  predicate Taken(configs: map<string, Config>, states: seq<Cache>, steps: seq<Step>, i: nat) {
    i < |steps| && i + 1 < |states| && states[i + 1] == Next(configs, states[i], steps[i])
  }

  ghost predicate Run(configs: map<string, Config>, states: seq<Cache>, steps: seq<Step>) {
    && |states| == |steps| + 1 && states[0] == Cache(map[], map[], map[])
    && (forall i :: i in configs ==> configs[i].Valid())
    && (forall i :: 0 <= i < |steps| ==> Taken(configs, states, steps, i))
  }

  /** All successful refreshes of the first `n` steps. */
  function Log(configs: map<string, Config>, states: seq<Cache>, steps: seq<Step>, n: nat): seq<Success>
    requires n <= |steps| < |states|
  {
    if n == 0 then [] else Log(configs, states, steps, n - 1) + StepSuccesses(configs, states[n - 1], steps[n - 1])
  }

  lemma NextReflects(configs: map<string, Config>, cache: Cache, s: Step, log: seq<Success>)
    requires Reflects(cache, log)
    ensures Reflects(Next(configs, cache, s), log + StepSuccesses(configs, cache, s))
  {
    match s
    case Lookup(c) => LookupReflects(configs, cache, c, log);
    case RefreshEvery(visits) => RefreshAllReflects(cache, visits, log);
  }

  lemma {:induction false} RunReflects(configs: map<string, Config>, states: seq<Cache>, steps: seq<Step>, n: nat)
    requires Run(configs, states, steps) && n <= |steps|
    ensures Reflects(states[n], Log(configs, states, steps, n))
  {
    if n > 0 {
      RunReflects(configs, states, steps, n - 1);
      assert Taken(configs, states, steps, n - 1);
      NextReflects(configs, states[n - 1], steps[n - 1], Log(configs, states, steps, n - 1));
    }
  }

  /** Every key ever handed out belongs to its issuer's latest successful refresh, whichever fetches
      failed before or since, and is younger than the interval under fail-closed and at most
      interval plus grace old under stale serving. */
  lemma ServedKeysAreCurrent(configs: map<string, Config>, states: seq<Cache>, steps: seq<Step>, i: nat, c: Call)
    requires Run(configs, states, steps) && i < |steps| && steps[i] == Lookup(c) && Forward(c)
    requires KeyFor(configs, states[i], c).1.Ok?
    ensures c.issuer in configs
    ensures var latest := Latest(Log(configs, states, steps, i + 1), c.issuer);
            && latest.Some? && c.kid in latest.value.index
            && KeyFor(configs, states[i], c).1 == Ok(latest.value.index[c.kid])
            && YoungEnough(configs[c.issuer], c.now - latest.value.at)
  {
    RunReflects(configs, states, steps, i + 1);
    assert Taken(configs, states, steps, i);
    ServedIsYoung(configs, states[i], c);
    assert ReflectsOne(states[i + 1], c.issuer, Latest(Log(configs, states, steps, i + 1), c.issuer));
  }
}
