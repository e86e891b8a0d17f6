/** A verifier validates a token's registered claims, with a tolerance for clock skew, and then asks
    the replay guard. Each of the two reads the clock for itself. */
module JwtClaims {
  import opened Wrappers
  import opened JwtReplay
  import opened JwtReplayGuard

  /** A token whose signature has been verified. */
  datatype Token = Token(claims: Claims, audience: set<string>, notBefore: Option<int>, issuedAt: Option<int>)

  datatype Verifier = Verifier(audiences: map<string, set<string>>, skew: int)

  datatype Refusal = UntrustedIssuer | UntrustedAudience | Expired | NotYetValid | IssuedInFuture | Replayed

  /** `_validate_registered_claims`. */
  function ClaimsRefusal(v: Verifier, t: Token, now: int): Option<Refusal> {
    if t.claims.issuer !in v.audiences then Some(UntrustedIssuer)
    else if t.audience !! v.audiences[t.claims.issuer] then Some(UntrustedAudience)
    else if t.claims.expires <= now - v.skew then Some(Expired)
    else if t.notBefore.Some? && t.notBefore.value > now + v.skew then Some(NotYetValid)
    else if t.issuedAt.Some? && t.issuedAt.value > now + v.skew then Some(IssuedInFuture)
    else None
  }

  /** A token shown to the verifier, with what the two clock reads say. */
  datatype Showing = Showing(token: Token, now: int, guardNow: int)

  /** The end of `verify`: what has been seen afterwards, and the refusal if there is one. */
  function Verify(v: Verifier, seen: Seen, s: Showing): (Seen, Option<Refusal>) {
    var refusal := ClaimsRefusal(v, s.token, s.now);
    if refusal.Some? then (seen, refusal)
    else
      var (seen', accepted) := Guard(seen, s.token.claims, s.guardNow);
      (seen', if accepted then None else Some(Replayed))
  }

  method VerifyToken(v: Verifier, store: InMemoryJwtReplayStore, s: Showing) returns (refusal: Option<Refusal>)
    modifies store
    ensures (store.seen, refusal) == Verify(v, old(store.seen), s)
  {
    refusal := ClaimsRefusal(v, s.token, s.now);
    if refusal.Some? {
      return;
    }
    var accepted := RequireNotReplayed(store, s.token.claims, s.guardNow);
    return if accepted then None else Some(Replayed);
  }

  // ---- sequences of showings ----

  predicate ShownAt(v: Verifier, seens: seq<Seen>, showings: seq<Showing>, i: nat) {
    i < |showings| && i + 1 < |seens| && seens[i + 1] == Verify(v, seens[i], showings[i]).0
  }

  predicate Shown(v: Verifier, seens: seq<Seen>, showings: seq<Showing>) {
    && |seens| == |showings| + 1 && seens[0] == map[]
    && forall i :: 0 <= i < |showings| ==> ShownAt(v, seens, showings, i)
  }

  /** The clock never goes back, neither within a showing nor between showings. */
  predicate Ticks(showings: seq<Showing>) {
    && (forall i :: 0 <= i < |showings| ==> showings[i].now <= showings[i].guardNow)
    && (forall i, j :: 0 <= i < j < |showings| ==> showings[i].guardNow <= showings[j].now)
  }

  /** The token of a showing carries the pair and is accepted. */
  predicate Accepts(v: Verifier, seens: seq<Seen>, showings: seq<Showing>, i: nat, k: PairKey)
    requires i < |showings| && i < |seens|
  {
    && showings[i].token.claims.jwtId.Some?
    && (showings[i].token.claims.issuer, showings[i].token.claims.jwtId.value) == k
    && Verify(v, seens[i], showings[i]).1.None?
  }

  /** What the guard gets to see of a showing: nothing that looks at the store if the claims are refused. */
  function GuardCall(v: Verifier, s: Showing): Presentation {
    if ClaimsRefusal(v, s.token, s.now).None? then Presentation(s.token.claims, s.guardNow)
    else Presentation(s.token.claims.(jwtId := None), s.guardNow)
  }

  function GuardCalls(v: Verifier, showings: seq<Showing>): seq<Presentation> {
    seq(|showings|, i requires 0 <= i < |showings| => GuardCall(v, showings[i]))
  }

  lemma GuardRuns(v: Verifier, seens: seq<Seen>, showings: seq<Showing>)
    requires Shown(v, seens, showings)
    ensures Run(seens, GuardCalls(v, showings))
    ensures Ticks(showings) ==> MonotoneClock(GuardCalls(v, showings))
    ensures forall i, k :: 0 <= i < |showings| ==>
              (Accepts(v, seens, showings, i, k) <==> AcceptedFor(seens, GuardCalls(v, showings), i, k))
  {
    var calls := GuardCalls(v, showings);
    forall i | 0 <= i < |calls| ensures Taken(seens, calls, i) {
      assert ShownAt(v, seens, showings, i);
    }
  }

  /** No acceptance for the pair lies between the two. */
  predicate AcceptedLast(v: Verifier, seens: seq<Seen>, showings: seq<Showing>, i: nat, j: nat, k: PairKey)
    requires i < j <= |showings| < |seens|
  {
    Accepts(v, seens, showings, i, k) && forall m :: i < m < j ==> !Accepts(v, seens, showings, m, k)
  }

  /** After an acceptance, a token with the same pair is accepted again exactly if its claims are in
      order and the guard's clock has reached the first token's expiry. */
  lemma PairAcceptedAgainExactly(v: Verifier, seens: seq<Seen>, showings: seq<Showing>, i: nat, j: nat, k: PairKey)
    requires Shown(v, seens, showings) && Ticks(showings) && i < j < |showings|
    requires AcceptedLast(v, seens, showings, i, j, k)
    requires showings[j].token.claims.jwtId.Some?
    requires (showings[j].token.claims.issuer, showings[j].token.claims.jwtId.value) == k
    ensures Accepts(v, seens, showings, j, k)
            <==> ClaimsRefusal(v, showings[j].token, showings[j].now).None?
                 && showings[i].token.claims.expires <= showings[j].guardNow
  {
    GuardRuns(v, seens, showings);
    if ClaimsRefusal(v, showings[j].token, showings[j].now).None? {
      var calls := GuardCalls(v, showings);
      assert LastAccepted(seens, calls, i, j, k) by {
        assert Accepts(v, seens, showings, i, k);
        forall m | i < m < j ensures !AcceptedFor(seens, calls, m, k) {
          assert !Accepts(v, seens, showings, m, k);
        }
      }
      AcceptedAgainExactly(seens, calls, i, j, k);
    }
  }

  /** The window of a second acceptance, for one and the same token and any two showings: it lies at
      or past the expiry by the guard's clock, and within the skew after it by the validator's. */
  lemma AcceptedTwiceInWindow(v: Verifier, seens: seq<Seen>, showings: seq<Showing>, i: nat, j: nat, k: PairKey)
    requires Shown(v, seens, showings) && Ticks(showings) && i < j < |showings|
    requires Accepts(v, seens, showings, i, k) && Accepts(v, seens, showings, j, k)
    requires showings[i].token == showings[j].token
    ensures var expires := showings[i].token.claims.expires;
            expires <= showings[j].guardNow && showings[j].now < expires + v.skew
  {
    GuardRuns(v, seens, showings);
    NoReplayBeforeExpiry(seens, GuardCalls(v, showings), i, j, k);
  }

  /** And everywhere in that window it is accepted: the claims that were in order once stay in order
      until the expiry plus the skew. */
  lemma TokenAcceptedAgainExactly(v: Verifier, seens: seq<Seen>, showings: seq<Showing>, i: nat, j: nat, k: PairKey)
    requires Shown(v, seens, showings) && Ticks(showings) && i < j < |showings|
    requires AcceptedLast(v, seens, showings, i, j, k) && showings[i].token == showings[j].token
    ensures var expires := showings[i].token.claims.expires;
            Accepts(v, seens, showings, j, k)
            <==> expires <= showings[j].guardNow && showings[j].now < expires + v.skew
  {
    PairAcceptedAgainExactly(v, seens, showings, i, j, k);
  }

  /** Without skew, and if the two clock reads of a showing agree, no token is accepted twice. */
  lemma NoSkewNoReplay(v: Verifier, seens: seq<Seen>, showings: seq<Showing>, i: nat, j: nat, k: PairKey)
    requires Shown(v, seens, showings) && Ticks(showings) && i < j < |showings|
    requires v.skew <= 0 && showings[j].now == showings[j].guardNow
    requires Accepts(v, seens, showings, i, k) && showings[i].token == showings[j].token
    ensures !Accepts(v, seens, showings, j, k)
  {
    if Accepts(v, seens, showings, j, k) {
      AcceptedTwiceInWindow(v, seens, showings, i, j, k);
      assert false;
    }
  }

  /** Shows one token twice to a fresh verifier. */
  lemma ShowTwice(v: Verifier, t: Token, first: int, now: int, guardNow: int)
    returns (seens: seq<Seen>, showings: seq<Showing>)
    requires t.claims.jwtId.Some? && first <= now <= guardNow
    ensures showings == [Showing(t, first, first), Showing(t, now, guardNow)]
    ensures Shown(v, seens, showings) && Ticks(showings)
  {
    showings := [Showing(t, first, first), Showing(t, now, guardNow)];
    var after := Verify(v, map[], showings[0]).0;
    seens := [map[], after, Verify(v, after, showings[1]).0];
    assert ShownAt(v, seens, showings, 0) && ShownAt(v, seens, showings, 1);
  }

  const TOKEN := Token(Claims("t", "iss", "s", Some("id"), 10), {"api"}, None, None)

  /** Two such histories. With the default skew of 30 seconds a token that expires at 10 is accepted
      at 0 and again at 10; and without skew it is accepted again when the clock passes its expiry
      between the two reads. */
  lemma TokensAcceptedTwice()
    ensures exists seens: seq<Seen>, showings: seq<Showing> ::
              var v := Verifier(map["iss" := {"api"}], 30);
              && Shown(v, seens, showings) && Ticks(showings)
              && showings == [Showing(TOKEN, 0, 0), Showing(TOKEN, 10, 10)]
              && Accepts(v, seens, showings, 0, ("iss", "id")) && Accepts(v, seens, showings, 1, ("iss", "id"))
    ensures exists seens: seq<Seen>, showings: seq<Showing> ::
              var v := Verifier(map["iss" := {"api"}], 0);
              && Shown(v, seens, showings) && Ticks(showings)
              && showings == [Showing(TOKEN, 0, 0), Showing(TOKEN, 9, 10)]
              && Accepts(v, seens, showings, 0, ("iss", "id")) && Accepts(v, seens, showings, 1, ("iss", "id"))
  {
    var k := ("iss", "id");
    assert "api" in TOKEN.audience && "api" in {"api"};
    var v := Verifier(map["iss" := {"api"}], 30);
    var seens, showings := ShowTwice(v, TOKEN, 0, 10, 10);
    TokenAcceptedAgainExactly(v, seens, showings, 0, 1, k);
    var w := Verifier(map["iss" := {"api"}], 0);
    var seens', showings' := ShowTwice(w, TOKEN, 0, 9, 10);
    TokenAcceptedAgainExactly(w, seens', showings', 0, 1, k);
  }
}
