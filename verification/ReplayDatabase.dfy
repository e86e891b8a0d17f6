/** The database replay store: looking a token up and inserting it are two transactions, so the
    checks of many verifiers interleave; the table's primary key decides. */
module ReplayDatabase {
  import opened Wrappers
  import opened JwtReplay

  /** A stored token: the tenant that recorded it and its expiry. */
  datatype Token = Token(tenant: string, expires: int)

  /** The table, keyed by issuer and token id, and the verifiers that found a token absent and
      have yet to insert it. */
  datatype Db = Db(tokens: map<PairKey, Token>, pending: map<nat, Claims>)

  datatype Step =
    | Check(verifier: nat, claims: Claims, now: int)
    | Insert(verifier: nat, at: int)
    | PurgeExpired(tenant: string, bound: int, clock: int)

  /** `contains`: the tenant's own, unexpired rows only. */
  predicate Contains(db: Db, c: Claims, now: int)
    requires c.jwtId.Some?
  {
    var k := (c.issuer, c.jwtId.value);
    k in db.tokens && db.tokens[k].tenant == c.tenant && db.tokens[k].expires > now
  }

  function Key(c: Claims): PairKey
    requires c.jwtId.Some?
  {
    (c.issuer, c.jwtId.value)
  }

  /** The last second of the year 9999: the expiry is also stored as a date. */
  const LAST_EPOCH := 253402300799

  /** The checks of the two tables, tokens and events, into which one transaction inserts. */
  predicate RowsOk(c: Claims, at: int)
    requires c.jwtId.Some?
  {
    && c.tenant != "" && c.issuer != "" && c.subject != "" && c.jwtId.value != ""
    && 0 < c.expires <= LAST_EPOCH && at > 0
  }

  /** The insert succeeds unless the primary key is taken or a row breaks its table's checks. */
  predicate Inserts(db: Db, c: Claims, at: int)
    requires c.jwtId.Some?
  {
    Key(c) !in db.tokens && RowsOk(c, at)
  }

  function Next(db: Db, s: Step): Db {
    match s
    case Check(v, c, now) =>
      if c.jwtId.None? || v in db.pending || Contains(db, c, now) then db
      else db.(pending := db.pending[v := c])
    case Insert(v, at) =>
      if v !in db.pending || db.pending[v].jwtId.None? then db
      else
        var c := db.pending[v];
        var done := db.(pending := db.pending - {v});
        if Inserts(db, c, at) then done.(tokens := db.tokens[Key(c) := Token(c.tenant, c.expires)]) else done
    case PurgeExpired(tenant, bound, _) =>
      db.(tokens := map k | k in db.tokens && !(db.tokens[k].tenant == tenant && db.tokens[k].expires <= bound) ::
          db.tokens[k])
  }

  /** The step is a successful insert for the pair: the moment a verifier accepts the token. */
  predicate Accepts(db: Db, s: Step, k: PairKey) {
    && s.Insert? && s.verifier in db.pending && db.pending[s.verifier].jwtId.Some?
    && Key(db.pending[s.verifier]) == k && Inserts(db, db.pending[s.verifier], s.at)
  }

  predicate Purges(db: Db, s: Step, k: PairKey) {
    s.PurgeExpired? && k in db.tokens && db.tokens[k].tenant == s.tenant && db.tokens[k].expires <= s.bound
  }

  predicate Taken(states: seq<Db>, steps: seq<Step>, i: nat) {
    i < |steps| && i + 1 < |states| && states[i + 1] == Next(states[i], steps[i])
  }

  /** Any interleaving of any number of verifiers and retention runs. */
  predicate Run(states: seq<Db>, steps: seq<Step>) {
    && |states| == |steps| + 1 && states[0] == Db(map[], map[])
    && forall i :: 0 <= i < |steps| ==> Taken(states, steps, i)
  }

  /** One step and one pair: a row appears only by an acceptance, disappears only by a purge, and
      is never changed. */
  lemma StepOnRow(states: seq<Db>, steps: seq<Step>, i: nat, k: PairKey)
    requires Run(states, steps) && i < |steps|
    ensures Accepts(states[i], steps[i], k) <==> k !in states[i].tokens && k in states[i + 1].tokens
    ensures Purges(states[i], steps[i], k) <==> k in states[i].tokens && k !in states[i + 1].tokens
    ensures k in states[i].tokens && k in states[i + 1].tokens ==> states[i + 1].tokens[k] == states[i].tokens[k]
  {
    assert Taken(states, steps, i);
  }

  predicate PurgedBetween(states: seq<Db>, steps: seq<Step>, i: nat, j: nat, k: PairKey)
    requires i <= j <= |steps| < |states|
  {
    exists m :: i <= m < j && Purges(states[m], steps[m], k)
  }

  /** A row stands exactly until it is purged. */
  lemma {:induction false} RowStands(states: seq<Db>, steps: seq<Step>, i: nat, j: nat, k: PairKey)
    requires Run(states, steps) && i <= j <= |steps| && k in states[i].tokens && !PurgedBetween(states, steps, i, j, k)
    ensures k in states[j].tokens && states[j].tokens[k] == states[i].tokens[k]
  {
    if i < j {
      assert !PurgedBetween(states, steps, i, j - 1, k);
      RowStands(states, steps, i, j - 1, k);
      assert !Purges(states[j - 1], steps[j - 1], k);
      StepOnRow(states, steps, j - 1, k);
    }
  }

  /** At most one acceptance per issuer and token id until its row is purged, whichever tenants and
      verifiers present it and however their checks interleave. */
  lemma OneAcceptanceUntilPurged(states: seq<Db>, steps: seq<Step>, i: nat, j: nat, k: PairKey)
    requires Run(states, steps) && i < j < |steps|
    requires Accepts(states[i], steps[i], k) && Accepts(states[j], steps[j], k)
    ensures PurgedBetween(states, steps, i + 1, j, k)
  {
    StepOnRow(states, steps, i, k);
    StepOnRow(states, steps, j, k);
    if !PurgedBetween(states, steps, i + 1, j, k) {
      RowStands(states, steps, i + 1, j, k);
    }
  }

  function TimeOf(s: Step): int {
    match s
    case Check(_, _, now) => now
    case Insert(_, at) => at
    case PurgeExpired(_, _, clock) => clock
  }

  /** The clock never goes back. */
  predicate Forward(steps: seq<Step>) {
    forall i, j :: 0 <= i <= j < |steps| ==> TimeOf(steps[i]) <= TimeOf(steps[j])
  }

  lemma {:induction false} FirstPurge(states: seq<Db>, steps: seq<Step>, i: nat, j: nat, k: PairKey) returns (m: nat)
    requires i <= j <= |steps| < |states| && PurgedBetween(states, steps, i, j, k)
    ensures i <= m < j && Purges(states[m], steps[m], k) && !PurgedBetween(states, steps, i, m, k)
    decreases j
  {
    m :| i <= m < j && Purges(states[m], steps[m], k);
    if PurgedBetween(states, steps, i, m, k) {
      m := FirstPurge(states, steps, i, m, k);
    }
  }

  /** A purge of the pair's row between the two moments, with a bound past the clock. */
  predicate PurgedEarly(states: seq<Db>, steps: seq<Step>, i: nat, j: nat, k: PairKey)
    requires i <= j <= |steps| < |states|
  {
    exists m :: i <= m < j && Purges(states[m], steps[m], k) && steps[m].clock < steps[m].bound
  }

  /** With a clock that never goes back, a pair is accepted again before its expiry only if its row
      has been purged with a bound past the clock; so never with timely retention. */
  lemma NoReplayBeforeExpiry(states: seq<Db>, steps: seq<Step>, i: nat, j: nat, k: PairKey)
    requires Run(states, steps) && Forward(steps) && i < j < |steps|
    requires Accepts(states[i], steps[i], k) && Accepts(states[j], steps[j], k)
    ensures TimeOf(steps[j]) < states[i].pending[steps[i].verifier].expires ==> PurgedEarly(states, steps, i + 1, j, k)
  {
    OneAcceptanceUntilPurged(states, steps, i, j, k);
    StepOnRow(states, steps, i, k);
    assert Taken(states, steps, i);
    var m := FirstPurge(states, steps, i + 1, j, k);
    RowStands(states, steps, i + 1, m, k);
    assert TimeOf(steps[m]) <= TimeOf(steps[j]);
  }

  /** A row that is gone stays away until the pair is accepted again. */
  lemma {:induction false} RowStaysAway(states: seq<Db>, steps: seq<Step>, i: nat, j: nat, k: PairKey)
    requires Run(states, steps) && i <= j <= |steps| && k !in states[i].tokens
    requires forall m :: i <= m < j ==> !Accepts(states[m], steps[m], k)
    ensures k !in states[j].tokens
  {
    if i < j {
      RowStaysAway(states, steps, i, j - 1, k);
      StepOnRow(states, steps, j - 1, k);
    }
  }

  /** Exactly when a pair is accepted again, with no assumption on clocks or retention: its next
      insert succeeds if and only if its row has been purged since. */
  lemma AcceptedAgainExactly(states: seq<Db>, steps: seq<Step>, i: nat, j: nat, k: PairKey)
    requires Run(states, steps) && i < j < |steps| && Accepts(states[i], steps[i], k)
    requires forall m :: i < m < j ==> !Accepts(states[m], steps[m], k)
    requires steps[j].Insert? && steps[j].verifier in states[j].pending
    requires var c := states[j].pending[steps[j].verifier];
             c.jwtId.Some? && Key(c) == k && RowsOk(c, steps[j].at)
    ensures Accepts(states[j], steps[j], k) <==> PurgedBetween(states, steps, i + 1, j, k)
  {
    StepOnRow(states, steps, i, k);
    if PurgedBetween(states, steps, i + 1, j, k) {
      var m :| i + 1 <= m < j && Purges(states[m], steps[m], k);
      StepOnRow(states, steps, m, k);
      RowStaysAway(states, steps, m + 1, j, k);
    } else {
      RowStands(states, steps, i + 1, j, k);
    }
  }

  /** What untimely retention does: purged at time 2 with the bound 10, a token that expires at 10 and
      was accepted at time 1 is accepted again at time 3. */
  lemma UntimelyPurgeReplays() returns (states: seq<Db>, steps: seq<Step>)
    ensures Run(states, steps) && |steps| == 5
    ensures Forward(steps)
    ensures Accepts(states[1], steps[1], ("iss", "id")) && Accepts(states[4], steps[4], ("iss", "id"))
    ensures TimeOf(steps[4]) < states[1].pending[steps[1].verifier].expires
  {
    var c := Claims("t", "iss", "s", Some("id"), 10);
    steps := [Check(0, c, 1), Insert(0, 1), PurgeExpired("t", 10, 2), Check(0, c, 3), Insert(0, 3)];
    var d0 := Db(map[], map[]);
    var d1 := Next(d0, steps[0]);
    var d2 := Next(d1, steps[1]);
    var d3 := Next(d2, steps[2]);
    var d4 := Next(d3, steps[3]);
    states := [d0, d1, d2, d3, d4, Next(d4, steps[4])];
    assert Taken(states, steps, 0) && Taken(states, steps, 1) && Taken(states, steps, 2);
    assert Taken(states, steps, 3) && Taken(states, steps, 4);
    assert ("iss", "id") !in d3.tokens;
  }

  /** The two transactions look at different rows: the check passes and the insert fails exactly for
      rows of another tenant or past their expiry. */
  lemma CheckAndInsertDisagree(db: Db, c: Claims, now: int, at: int)
    requires c.jwtId.Some? && RowsOk(c, at)
    ensures !Contains(db, c, now) && !Inserts(db, c, at)
            <==> Key(c) in db.tokens && (db.tokens[Key(c)].tenant != c.tenant || db.tokens[Key(c)].expires <= now)
  {
  }
}
