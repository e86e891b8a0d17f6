/** The signing-key cache of the dynamic OIDC verifier: when keys are fetched again, which answers
    replace them, and for how long they are served when fetching fails. */
module OidcKeyCache {
  import opened Wrappers

  datatype OutagePolicy = FailClosed | UseStaleKeys

  datatype Config = Config(interval: nat, grace: nat, policy: OutagePolicy) {
    /** The configuration record's field constraints. */
    predicate Valid() {
      interval >= 1
    }
  }

  datatype Key = Key(modulus: nat, exponent: nat)

  /** An entry of a JWKS document: not meant for RS256 signatures, without one of its required
      texts, with a number that is not positive, or a key. */
  datatype RawKey = Foreign | Incomplete | NotPositive | Usable(kid: string, key: Key)

  datatype Discovery = Unreachable | Malformed | Document(issuer: string, algorithms: seq<string>)
  datatype Jwks = JwksUnreachable | NoKeysArray | JwksKeys(raw: seq<RawKey>)

  /** What the network answers to one refresh, and the clock when the refresh has succeeded. */
  datatype Attempt = Attempt(discovery: Discovery, jwks: Jwks, at: int)

  datatype Reason = FetchFailed | IssuerMismatch | NoRs256 | JwksMalformed | KeyIncomplete | DuplicateKey | NoKeys

  /** `Refused` errors are the ones the cache handles and remembers; `Invalid` is the record
      validation error it lets through. */
  datatype RefreshError = Refused(reason: Reason) | Invalid
  datatype CallError = Untrusted | NoCachedKeys | Closed | Expired | KeyUnknown | Unhandled

  type KeyIndex = map<string, Key>

  /** `_build_rs256_jwks_key_index` for one issuer. */
  function Index(raw: seq<RawKey>): Result<KeyIndex, RefreshError> {
    if raw == [] then Ok(map[])
    else
      var front :- Index(raw[..|raw| - 1]);
      match raw[|raw| - 1]
      case Foreign => Ok(front)
      case Incomplete => Err(Refused(KeyIncomplete))
      case NotPositive => Err(Invalid)
      case Usable(kid, key) => if kid in front then Err(Refused(DuplicateKey)) else Ok(front[kid := key])
  }

  /** What an attempt yields for an issuer. */
  function Yield(issuer: string, a: Attempt): Result<KeyIndex, RefreshError> {
    match a.discovery
    case Unreachable => Err(Refused(FetchFailed))
    case Malformed => Err(Invalid)
    case Document(named, algorithms) =>
      if named != issuer then Err(Refused(IssuerMismatch))
      else if algorithms != [] && "RS256" !in algorithms then Err(Refused(NoRs256))
      else match a.jwks
           case JwksUnreachable => Err(Refused(FetchFailed))
           case NoKeysArray => Err(Refused(JwksMalformed))
           case JwksKeys(raw) =>
             var index :- Index(raw);
             if index == map[] then Err(Refused(NoKeys)) else Ok(index)
  }

  datatype Cache = Cache(keys: map<(string, string), Key>, refreshedAt: map<string, int>,
                         lastError: map<string, Reason>)

  /** A successful refresh: the issuer's keys are replaced as a whole. */
  function Installed(cache: Cache, issuer: string, index: KeyIndex, at: int): Cache {
    Cache((map k | k in cache.keys && k.0 != issuer :: cache.keys[k])
          + (map kid | kid in index :: (issuer, kid) := index[kid]),
          cache.refreshedAt[issuer := at], cache.lastError - {issuer})
  }

  /** `_handle_refresh_failure`: the error to raise, if any. */
  function Handled(config: Config, cache: Cache, issuer: string, now: int): Option<CallError> {
    if issuer !in cache.refreshedAt then Some(NoCachedKeys)
    else if config.policy.FailClosed? then Some(Closed)
    else if now - cache.refreshedAt[issuer] > config.interval + config.grace then Some(Expired)
    else None
  }

  function Due(config: Config, cache: Cache, issuer: string, now: int): bool {
    issuer !in cache.refreshedAt || now - cache.refreshedAt[issuer] >= config.interval
  }

  /** A refresh with its failure handling. */
  function TryRefresh(config: Config, cache: Cache, issuer: string, now: int, a: Attempt): (Cache, Option<CallError>) {
    match Yield(issuer, a)
    case Ok(index) => (Installed(cache, issuer, index, a.at), None)
    case Err(Invalid) => (cache, Some(Unhandled))
    case Err(Refused(reason)) =>
      (cache.(lastError := cache.lastError[issuer := reason]), Handled(config, cache, issuer, now))
  }

  datatype Call = Call(issuer: string, kid: string, now: int, first: Attempt, second: Attempt)

  /** The cache after the freshness check, and its error. */
  function Ensured(config: Config, cache: Cache, c: Call): (Cache, Option<CallError>) {
    if Due(config, cache, c.issuer, c.now) then TryRefresh(config, cache, c.issuer, c.now, c.first) else (cache, None)
  }

  /** `_key_for`. */
  function KeyFor(configs: map<string, Config>, cache: Cache, c: Call): (Cache, Result<Key, CallError>) {
    if c.issuer !in configs then (cache, Err(Untrusted))
    else
      var config := configs[c.issuer];
      var (kept, error) := Ensured(config, cache, c);
      if error.Some? then (kept, Err(error.value))
      else if (c.issuer, c.kid) in kept.keys then (kept, Ok(kept.keys[(c.issuer, c.kid)]))
      else
        var (rotated, error') := TryRefresh(config, kept, c.issuer, c.now, c.second);
        if error'.Some? then (rotated, Err(error'.value))
        else if (c.issuer, c.kid) in rotated.keys then (rotated, Ok(rotated.keys[(c.issuer, c.kid)]))
        else (rotated, Err(KeyUnknown))
  }

  /** One issuer to refresh, and what the network answers. */
  datatype Visit = Visit(issuer: string, attempt: Attempt)

  /** `refresh_all`: the issuers in turn; the first failure ends it, without being remembered. */
  function RefreshAll(cache: Cache, visits: seq<Visit>): (Cache, Result<(), RefreshError>)
    decreases |visits|
  {
    if visits == [] then (cache, Ok(()))
    else
      match Yield(visits[0].issuer, visits[0].attempt)
      case Err(e) => (cache, Err(e))
      case Ok(index) => RefreshAll(Installed(cache, visits[0].issuer, index, visits[0].attempt.at), visits[1..])
  }

  // ---- the verifier's cache as an object ----

  class KeyCache {
    const configs: map<string, Config>
    var keys: map<(string, string), Key>
    var refreshedAt: map<string, int>
    var lastError: map<string, Reason>

    function State(): Cache
      reads this
    {
      Cache(keys, refreshedAt, lastError)
    }

    constructor (configs: map<string, Config>)
      ensures this.configs == configs && State() == Cache(map[], map[], map[])
    {
      this.configs := configs;
      keys, refreshedAt, lastError := map[], map[], map[];
    }

    method BuildIndex(raw: seq<RawKey>) returns (r: Result<KeyIndex, RefreshError>)
      ensures r == Index(raw)
    {
      var index: KeyIndex := map[];
      for i := 0 to |raw|
        invariant Index(raw[..i]) == Ok(index)
      {
        assert raw[..i + 1][..i] == raw[..i];
        match raw[i] {
          case Foreign =>
          case Incomplete =>
            IndexFails(raw, i + 1);
            return Err(Refused(KeyIncomplete));
          case NotPositive =>
            IndexFails(raw, i + 1);
            return Err(Invalid);
          case Usable(kid, key) =>
            if kid in index {
              IndexFails(raw, i + 1);
              return Err(Refused(DuplicateKey));
            }
            index := index[kid := key];
        }
      }
      assert raw[..|raw|] == raw;
      return Ok(index);
    }

    /** Checks the whole answer to a refresh. */
    method CheckAnswer(issuer: string, a: Attempt) returns (r: Result<KeyIndex, RefreshError>)
      ensures r == Yield(issuer, a)
    {
      match a.discovery {
        case Unreachable => return Err(Refused(FetchFailed));
        case Malformed => return Err(Invalid);
        case Document(named, algorithms) =>
          if named != issuer {
            return Err(Refused(IssuerMismatch));
          }
          if algorithms != [] && "RS256" !in algorithms {
            return Err(Refused(NoRs256));
          }
      }
      match a.jwks {
        case JwksUnreachable => return Err(Refused(FetchFailed));
        case NoKeysArray => return Err(Refused(JwksMalformed));
        case JwksKeys(_) =>
      }
      var built := BuildIndex(a.jwks.raw);
      var index :- built;
      return if index == map[] then Err(Refused(NoKeys)) else Ok(index);
    }

    /** `_refresh_issuer`: nothing changes before the whole answer has been checked. */
    method RefreshIssuer(issuer: string, a: Attempt) returns (r: Result<(), RefreshError>)
      modifies this
      ensures match Yield(issuer, a)
              case Ok(index) => r.Ok? && State() == Installed(old(State()), issuer, index, a.at)
              case Err(e) => r == Err(e) && State() == old(State())
    {
      var answer := CheckAnswer(issuer, a);
      var index :- answer;
      keys := map k | k in keys && k.0 != issuer :: keys[k];
      keys := keys + map kid | kid in index :: (issuer, kid) := index[kid];
      refreshedAt := refreshedAt[issuer := a.at];
      lastError := lastError - {issuer};
      return Ok(());
    }

    method RefreshOrHandle(issuer: string, now: int, a: Attempt) returns (error: Option<CallError>)
      requires issuer in configs
      modifies this
      ensures (State(), error) == TryRefresh(configs[issuer], old(State()), issuer, now, a)
    {
      var refreshed := RefreshIssuer(issuer, a);
      if refreshed.Ok? {
        return None;
      }
      if refreshed.error.Invalid? {
        return Some(Unhandled);
      }
      lastError := lastError[issuer := refreshed.error.reason];
      if issuer !in refreshedAt {
        return Some(NoCachedKeys);
      }
      if configs[issuer].policy.FailClosed? {
        return Some(Closed);
      }
      if now - refreshedAt[issuer] > configs[issuer].interval + configs[issuer].grace {
        return Some(Expired);
      }
      return None;
    }

    method RefreshEvery(visits: seq<Visit>) returns (r: Result<(), RefreshError>)
      modifies this
      ensures (State(), r) == RefreshAll(old(State()), visits)
    {
      assert visits[0..] == visits;
      for i := 0 to |visits|
        invariant RefreshAll(old(State()), visits) == RefreshAll(State(), visits[i..])
      {
        assert visits[i..][1..] == visits[i + 1..];
        var refreshed := RefreshIssuer(visits[i].issuer, visits[i].attempt);
        if refreshed.Err? {
          return refreshed;
        }
      }
      return Ok(());
    }

    method FindKey(c: Call) returns (r: Result<Key, CallError>)
      modifies this
      ensures (State(), r) == KeyFor(configs, old(State()), c)
    {
      if c.issuer !in configs {
        return Err(Untrusted);
      }
      if Due(configs[c.issuer], State(), c.issuer, c.now) {
        var error := RefreshOrHandle(c.issuer, c.now, c.first);
        if error.Some? {
          return Err(error.value);
        }
      }
      if (c.issuer, c.kid) !in keys {
        var error := RefreshOrHandle(c.issuer, c.now, c.second);
        if error.Some? {
          return Err(error.value);
        }
      }
      return if (c.issuer, c.kid) in keys then Ok(keys[(c.issuer, c.kid)]) else Err(KeyUnknown);
    }
  }

  lemma {:induction false} IndexFails(raw: seq<RawKey>, n: nat)
    requires n <= |raw| && Index(raw[..n]).Err?
    ensures Index(raw) == Index(raw[..n])
    decreases |raw| - n
  {
    if n == |raw| {
      assert raw[..n] == raw;
    } else {
      assert raw[..n + 1][..n] == raw[..n];
      IndexFails(raw, n + 1);
    }
  }

  /** An index is built exactly from the usable entries, and only if no entry is broken and no key
      id occurs twice. */
  lemma {:induction false} IndexHolds(raw: seq<RawKey>)
    ensures Index(raw).Ok? <==>
              && (forall r :: r in raw ==> r.Foreign? || r.Usable?)
              && (forall i, j :: 0 <= i < j < |raw| && raw[i].Usable? && raw[j].Usable? ==> raw[i].kid != raw[j].kid)
    ensures Index(raw).Ok? ==>
              forall kid, key ::
                (kid in Index(raw).value && Index(raw).value[kid] == key) <==> Usable(kid, key) in raw
  {
    if raw != [] {
      var n := |raw| - 1;
      IndexHolds(raw[..n]);
      assert raw == raw[..n] + [raw[n]];
      if Index(raw[..n]).Ok? && raw[n].Usable? && raw[n].kid in Index(raw[..n]).value {
        var key := Index(raw[..n]).value[raw[n].kid];
        var i :| 0 <= i < n && raw[..n][i] == Usable(raw[n].kid, key);
        assert raw[i].kid == raw[n].kid;
      }
    }
  }
}
