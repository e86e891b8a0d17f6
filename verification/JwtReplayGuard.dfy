/** The replay guard over either store, and what it means over sequences of calls. */
module JwtReplayGuard {
  import opened Wrappers
  import opened Text
  import opened JwtReplay

  lemma PurgeTwice(seen: Seen, now: int)
    ensures Purge(Purge(seen, now), now) == Purge(seen, now)
  {
  }

  /** What a read finds has not expired. */
  lemma LiveStaysLive(rows: seq<Row>, now: int)
    ensures Purge(Expiries(LiveOf(rows, now)), now) == Expiries(LiveOf(rows, now))
  {
    forall k | k in LiveOf(rows, now) ensures LiveOf(rows, now)[k].expires > now {
      LiveOfLive(rows, now, k);
    }
  }

  lemma {:induction false} LiveOfLive(rows: seq<Row>, now: int, k: PairKey)
    requires k in LiveOf(rows, now)
    ensures LiveOf(rows, now)[k].expires > now
  {
    var n := |rows| - 1;
    if rows[n].Key() != k || rows[n].entry.expires <= now {
      LiveOfLive(rows[..n], now, k);
    }
  }

  /** The guard over the in-memory store. */
  method RequireNotReplayed(store: InMemoryJwtReplayStore, c: Claims, now: int) returns (accepted: bool)
    modifies store
    ensures (store.seen, accepted) == Guard(old(store.seen), c, now)
  {
    if c.jwtId.None? {
      return true;
    }
    var found := store.Contains(c.issuer, c.jwtId.value, now);
    if found {
      return false;
    }
    store.Record(c.issuer, c.jwtId.value, c.expires, now);
    PurgeTwice(old(store.seen), now);
    return true;
  }

  /** Whether the claims carry a pair the file store can read back; claims that come out of token
      validation always do. */
  predicate Storable(c: Claims) {
    c.jwtId.Some? ==> !Blank(c.issuer) && !Blank(c.jwtId.value)
  }

  /** What a file store holds: the pairs with their expiries, and whether one of them is blank. */
  datatype FileState = FileState(seen: Seen, poisoned: bool)

  /** The guard over a file store as a function of what it holds. */
  function FileGuard(f: FileState, c: Claims, now: int): (FileState, Result<bool, ReplayError>) {
    if c.jwtId.None? then (f, Ok(true))
    else if f.poisoned then (f, Err(StoreCorrupt))
    else
      var (seen, accepted) := Guard(f.seen, c, now);
      (FileState(seen, accepted && !Storable(c)), Ok(accepted))
  }

  /** The guard over the file-backed store: the same answer and the same abstract state as over the
      in-memory one, for as long as only storable pairs were recorded. Recording another makes
      every later call fail. With a file that lists a pair twice it starts from what is live in it. */
  method RequireNotReplayedOnFile(store: JsonFileJwtReplayStore, c: Claims, now: int)
    returns (r: Result<bool, ReplayError>)
    modifies store
    ensures old(store.Valid()) ==>
              && store.Valid()
              && (FileState(store.Seen(), store.Corrupt()), r)
                 == FileGuard(old(FileState(store.Seen(), store.Corrupt())), c, now)
    ensures c.jwtId.Some? && !old(store.Corrupt()) ==>
              && store.Valid()
              && (FileState(store.Seen(), store.Corrupt()), r)
                 == FileGuard(FileState(old(store.SeenAt(now)), false), c, now)
  {
    if c.jwtId.None? {
      return Ok(true);
    }
    LiveStaysLive(store.Rows(), now);
    var found := store.Contains(c.issuer, c.jwtId.value, now);
    var present :- found;
    if present {
      return Ok(false);
    }
    var recorded := store.Record(c.tenant, c.issuer, c.jwtId.value, c.expires, now);
    return if recorded.Ok? then Ok(true) else Err(StoreCorrupt);
  }

  // ---- sequences of calls ----

  datatype Presentation = Presentation(claims: Claims, now: int)

  /** What the in-memory guard answers to a sequence of calls. */
  function Answers(seen: Seen, calls: seq<Presentation>): seq<bool>
    decreases |calls|
  {
    if calls == [] then []
    else
      var (next, accepted) := Guard(seen, calls[0].claims, calls[0].now);
      [accepted] + Answers(next, calls[1..])
  }

  /** What the file guard answers. */
  function FileAnswers(f: FileState, calls: seq<Presentation>): seq<Result<bool, ReplayError>>
    decreases |calls|
  {
    if calls == [] then []
    else
      var (next, r) := FileGuard(f, calls[0].claims, calls[0].now);
      [r] + FileAnswers(next, calls[1..])
  }

  function Oks(answers: seq<bool>): seq<Result<bool, ReplayError>> {
    seq(|answers|, i requires 0 <= i < |answers| => Ok(answers[i]))
  }

  /** On every sequence of calls whose pairs can be stored, the file guard answers as the in-memory
      guard does, call by call. */
  lemma {:induction false} FileAgrees(seen: Seen, calls: seq<Presentation>)
    requires forall c :: c in calls ==> Storable(c.claims)
    ensures FileAnswers(FileState(seen, false), calls) == Oks(Answers(seen, calls))
    decreases |calls|
  {
    if calls != [] {
      var (next, accepted) := Guard(seen, calls[0].claims, calls[0].now);
      assert calls[0] in calls && forall c :: c in calls[1..] ==> c in calls;
      FileAgrees(next, calls[1..]);
      assert Oks([accepted] + Answers(next, calls[1..])) == [Ok(accepted)] + Oks(Answers(next, calls[1..]));
    }
  }

  /** Once it has accepted a pair that cannot be stored it answers no token with an id any more. */
  lemma {:induction false} PoisonedForGood(seen: Seen, calls: seq<Presentation>, i: nat)
    requires i < |calls|
    ensures |FileAnswers(FileState(seen, true), calls)| == |calls|
    ensures FileAnswers(FileState(seen, true), calls)[i]
            == if calls[i].claims.jwtId.None? then Ok(true) else Err(StoreCorrupt)
    decreases |calls|
  {
    if |calls| > 1 {
      PoisonedForGood(seen, calls[1..], if i > 0 then i - 1 else 0);
    } else {
      assert calls[1..] == [];
    }
  }

  predicate Taken(seens: seq<Seen>, calls: seq<Presentation>, i: nat) {
    i < |calls| && i + 1 < |seens| && seens[i + 1] == Guard(seens[i], calls[i].claims, calls[i].now).0
  }

  predicate Run(seens: seq<Seen>, calls: seq<Presentation>) {
    && |seens| == |calls| + 1 && seens[0] == map[]
    && forall i :: 0 <= i < |calls| ==> Taken(seens, calls, i)
  }

  predicate Presents(c: Presentation, k: PairKey) {
    c.claims.jwtId.Some? && (c.claims.issuer, c.claims.jwtId.value) == k
  }

  predicate Accepted(seens: seq<Seen>, calls: seq<Presentation>, i: nat)
    requires i < |calls| && i < |seens|
  {
    Guard(seens[i], calls[i].claims, calls[i].now).1
  }

  predicate AcceptedFor(seens: seq<Seen>, calls: seq<Presentation>, i: nat, k: PairKey)
    requires i < |calls| && i < |seens|
  {
    Presents(calls[i], k) && Accepted(seens, calls, i)
  }

  predicate LastAccepted(seens: seq<Seen>, calls: seq<Presentation>, i: nat, j: nat, k: PairKey)
    requires i < j <= |calls| < |seens|
  {
    AcceptedFor(seens, calls, i, k) && forall m :: i < m < j ==> !AcceptedFor(seens, calls, m, k)
  }

  /** Some call that looked at the store between the two saw the clock at or past `expires`. */
  predicate ExpirySeen(calls: seq<Presentation>, i: nat, j: nat, expires: int)
    requires i < j <= |calls|
  {
    exists m :: i < m < j && calls[m].claims.jwtId.Some? && calls[m].now >= expires
  }

  /** After an acceptance, the pair stays in the store with its expiry until a call sees that time
      pass, and is then gone until it is accepted again. */
  lemma {:induction false} KeptUntilExpirySeen(seens: seq<Seen>, calls: seq<Presentation>, i: nat, j: nat, k: PairKey)
    requires Run(seens, calls) && i < j <= |calls| && LastAccepted(seens, calls, i, j, k)
    ensures var e := calls[i].claims.expires;
            if ExpirySeen(calls, i, j, e) then k !in seens[j] else k in seens[j] && seens[j][k] == e
  {
    var e := calls[i].claims.expires;
    assert Taken(seens, calls, j - 1);
    if j > i + 1 {
      assert forall m :: i < m < j - 1 ==> !AcceptedFor(seens, calls, m, k);
      KeptUntilExpirySeen(seens, calls, i, j - 1, k);
      assert !AcceptedFor(seens, calls, j - 1, k);
      ExpirySeenLater(calls, i, j - 1, e);
    }
  }

  lemma ExpirySeenLater(calls: seq<Presentation>, i: nat, j: nat, e: int)
    requires i < j < |calls|
    ensures ExpirySeen(calls, i, j + 1, e)
            <==> ExpirySeen(calls, i, j, e) || (calls[j].claims.jwtId.Some? && calls[j].now >= e)
  {
  }

  /** Exactly when a pair is accepted again: at the first presentation at which its expiry lies in
      the past of some call since, this one included. No assumption on the clock. */
  lemma AcceptedAgainExactly(seens: seq<Seen>, calls: seq<Presentation>, i: nat, j: nat, k: PairKey)
    requires Run(seens, calls) && i < j < |calls| && LastAccepted(seens, calls, i, j, k) && Presents(calls[j], k)
    ensures Accepted(seens, calls, j) <==> ExpirySeen(calls, i, j + 1, calls[i].claims.expires)
  {
    KeptUntilExpirySeen(seens, calls, i, j, k);
    ExpirySeenLater(calls, i, j, calls[i].claims.expires);
  }

  predicate MonotoneClock(calls: seq<Presentation>) {
    forall i, j :: 0 <= i <= j < |calls| ==> calls[i].now <= calls[j].now
  }

  /** With a clock that never goes back, nothing is accepted for a pair before the expiry of the
      acceptance before. */
  lemma {:induction false} NoReplayBeforeExpiry(seens: seq<Seen>, calls: seq<Presentation>, i: nat, j: nat, k: PairKey)
    requires Run(seens, calls) && MonotoneClock(calls) && i < j < |calls|
    requires AcceptedFor(seens, calls, i, k) && AcceptedFor(seens, calls, j, k)
    ensures calls[j].now >= calls[i].claims.expires
    decreases j - i
  {
    if m :| i < m < j && AcceptedFor(seens, calls, m, k) {
      NoReplayBeforeExpiry(seens, calls, i, m, k);
    } else {
      AcceptedAgainExactly(seens, calls, i, j, k);
    }
  }

  /** The monotone clock is needed: here a call at time 20 forgets a token that expires at 10, and
      a later call at time 5 accepts it again. */
  lemma BackwardClockReplays()
    ensures exists seens: seq<Seen>, calls: seq<Presentation> :: Run(seens, calls) && |calls| == 3
              && AcceptedFor(seens, calls, 0, ("iss", "a")) && AcceptedFor(seens, calls, 2, ("iss", "a"))
              && calls[2].now < calls[0].claims.expires
  {
    var a := Claims("t", "iss", "s", Some("a"), 10);
    var b := Claims("t", "iss", "s", Some("b"), 30);
    var calls := [Presentation(a, 0), Presentation(b, 20), Presentation(a, 5)];
    var s1 := Guard(map[], a, 0).0;
    var s2 := Guard(s1, b, 20).0;
    var s3 := Guard(s2, a, 5).0;
    var seens: seq<Seen> := [map[], s1, s2, s3];
    assert s1 == map[("iss", "a") := 10];
    assert ("iss", "a") !in s2;
    assert Taken(seens, calls, 0) && Taken(seens, calls, 1) && Taken(seens, calls, 2);
    assert Run(seens, calls) && AcceptedFor(seens, calls, 0, ("iss", "a"))
           && AcceptedFor(seens, calls, 2, ("iss", "a"));
  }
}
