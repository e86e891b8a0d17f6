/** Hash-chained audit logs: verification, the in-memory logger, and the database logger whose
    processes interleave under a per-tenant lock. */
module AuditChain {
  import opened Wrappers
  import opened Sorting

  type Digest = nat

  /** The hash the first event links to. */
  const GENESIS: Digest := 0

  /** What an event's hash covers; `content` stands for user, type, model, sources and metadata. */
  datatype Body = Body(eventId: string, sequence: nat, tenant: string, content: string, previous: Digest)

  datatype Event = Event(body: Body, hash: Digest)

  type Hash = Body -> Digest

  ghost predicate CollisionFree(h: Hash) {
    forall p, q :: h(p) == h(q) ==> p == q
  }

  function Sealed(h: Hash, b: Body): Event {
    Event(b, h(b))
  }

  function LastHash(events: seq<Event>): Digest {
    if events == [] then GENESIS else events[|events| - 1].hash
  }

  // ---- verification ----

  /** Event `i` continues the chain before it. */
  predicate ValidAt(h: Hash, events: seq<Event>, i: nat)
    requires i < |events|
  {
    && events[i].body.sequence == i + 1
    && events[i].body.previous == LastHash(events[..i])
    && events[i].hash == h(events[i].body)
  }

  predicate ValidChain(h: Hash, events: seq<Event>) {
    forall i :: 0 <= i < |events| ==> ValidAt(h, events, i)
  }

  datatype Failure = WrongSequence | WrongPrevious | WrongHash

  datatype Verification = Verification(ok: bool, verified: nat, failure: Option<Failure>)

  /** The longest valid prefix, and what is wrong with the event after it. */
  ghost predicate Verifies(h: Hash, events: seq<Event>, v: Verification) {
    && v.verified <= |events|
    && (forall i :: 0 <= i < v.verified ==> ValidAt(h, events, i))
    && (v.ok <==> v.verified == |events|) && (v.ok <==> v.failure.None?)
    && (!v.ok ==> !ValidAt(h, events, v.verified)
                  && var e := events[v.verified];
                     v.failure == Some(if e.body.sequence != v.verified + 1 then WrongSequence
                                       else if e.body.previous != LastHash(events[..v.verified]) then WrongPrevious
                                       else WrongHash))
  }

  /** `verify_audit_chain`. */
  method VerifyChain(h: Hash, events: seq<Event>) returns (v: Verification)
    ensures Verifies(h, events, v)
    ensures v.ok <==> ValidChain(h, events)
  {
    var previous := GENESIS;
    for i := 0 to |events|
      invariant previous == LastHash(events[..i])
      invariant forall j :: 0 <= j < i ==> ValidAt(h, events, j)
    {
      var e := events[i];
      if e.body.sequence != i + 1 {
        return Verification(false, i, Some(WrongSequence));
      }
      if e.body.previous != previous {
        return Verification(false, i, Some(WrongPrevious));
      }
      if e.hash != h(e.body) {
        return Verification(false, i, Some(WrongHash));
      }
      previous := e.hash;
      assert events[..i + 1][i] == e;
    }
    return Verification(true, |events|, None);
  }

  // ---- chains ----

  lemma PrefixValid(h: Hash, events: seq<Event>, n: nat)
    requires ValidChain(h, events) && n <= |events|
    ensures ValidChain(h, events[..n])
  {
    forall i | 0 <= i < n ensures ValidAt(h, events[..n], i) {
      assert ValidAt(h, events, i);
      assert events[..n][..i] == events[..i];
    }
  }

  lemma AppendValid(h: Hash, events: seq<Event>, e: Event)
    requires ValidChain(h, events)
    requires e.body.sequence == |events| + 1 && e.body.previous == LastHash(events) && e.hash == h(e.body)
    ensures ValidChain(h, events + [e])
  {
    forall i | 0 <= i < |events| + 1 ensures ValidAt(h, events + [e], i) {
      assert (events + [e])[..i] == events[..i];
      if i < |events| {
        assert ValidAt(h, events, i);
      } else {
        assert events[..i] == events;
      }
    }
  }

  /** A hash pins everything before it: two valid chains with the same hash at position `n` have
      the same first `n` events. */
  lemma {:induction false} ChainsAgree(h: Hash, a: seq<Event>, b: seq<Event>, n: nat)
    requires CollisionFree(h) && ValidChain(h, a) && ValidChain(h, b)
    requires n <= |a| && n <= |b| && LastHash(a[..n]) == LastHash(b[..n])
    ensures a[..n] == b[..n]
  {
    if n > 0 {
      assert ValidAt(h, a, n - 1) && ValidAt(h, b, n - 1);
      assert a[..n][n - 1] == a[n - 1] && b[..n][n - 1] == b[n - 1];
      ChainsAgree(h, a, b, n - 1);
      assert a[..n] == a[..n - 1] + [a[n - 1]] && b[..n] == b[..n - 1] + [b[n - 1]];
    }
  }

  // ---- the in-memory logger: one chain over all tenants ----

  class InMemoryAuditLogger {
    const h: Hash
    var events: seq<Event>

    ghost predicate Valid()
      reads this
    {
      ValidChain(h, events)
    }

    constructor (h: Hash)
      ensures Valid() && events == [] && this.h == h
    {
      this.h, events := h, [];
    }

    method Record(eventId: string, tenant: string, content: string) returns (e: Event)
      requires Valid()
      modifies this
      ensures Valid() && events == old(events) + [e]
      ensures e.body.tenant == tenant && e.body.content == content && e.body.sequence == |events|
    {
      var previous := if events == [] then GENESIS else events[|events| - 1].hash;
      e := Sealed(h, Body(eventId, |events| + 1, tenant, content, previous));
      AppendValid(h, events, e);
      events := events + [e];
    }
  }

  // ---- the database logger ----

  /** How far a process has got in `record`: it holds the tenant's lock, and has then read the
      last row's sequence number and hash. */
  datatype Phase = Idle | Locked(tenant: string) | Ready(tenant: string, sequence: nat, hash: Digest)

  datatype Db = Db(rows: seq<Event>, locks: map<string, nat>, phases: map<nat, Phase>) {
    function PhaseOf(p: nat): Phase {
      if p in phases then phases[p] else Idle
    }
  }

  function RowsOf(rows: seq<Event>, tenant: string): seq<Event> {
    if rows == [] then []
    else
      var last := rows[|rows| - 1];
      RowsOf(rows[..|rows| - 1], tenant) + if last.body.tenant == tenant then [last] else []
  }

  /** `ORDER BY sequence_number`. */
  function EventsFor(rows: seq<Event>, tenant: string): seq<Event> {
    Sort(RowsOf(rows, tenant), (a: Event, b: Event) => a.body.sequence <= b.body.sequence)
  }

  /** The row with the highest sequence number. */
  function LastRow(rows: seq<Event>, tenant: string): Option<Event> {
    var events := EventsFor(rows, tenant);
    if events == [] then None else Some(events[|events| - 1])
  }

  datatype DbStep =
    | Lock(process: nat, lockTenant: string)
    | Read(process: nat)
    | InsertAndCommit(process: nat, eventId: string, content: string)
    | Abandon(process: nat)

  predicate KeyTaken(rows: seq<Event>, tenant: string, sequence: nat) {
    exists e | e in rows :: e.body.tenant == tenant && e.body.sequence == sequence
  }

  /** One step of one process. A lock that is held makes the process wait, which is no step; the
      commit publishes the row and releases the lock together. */
  function Next(h: Hash, db: Db, s: DbStep): Db {
    match s
    case Lock(p, tenant) =>
      if !db.PhaseOf(p).Idle? || tenant in db.locks then db
      else db.(locks := db.locks[tenant := p], phases := db.phases[p := Locked(tenant)])
    case Read(p) =>
      if !db.PhaseOf(p).Locked? then db
      else
        var tenant := db.PhaseOf(p).tenant;
        var last := LastRow(db.rows, tenant);
        db.(phases := db.phases[p := if last.None? then Ready(tenant, 0, GENESIS)
                                     else Ready(tenant, last.value.body.sequence, last.value.hash)])
    case InsertAndCommit(p, eventId, content) =>
      if !db.PhaseOf(p).Ready? then db
      else
        var at := db.PhaseOf(p);
        var e := Sealed(h, Body(eventId, at.sequence + 1, at.tenant, content, at.hash));
        var freed := db.(locks := db.locks - {at.tenant}, phases := db.phases[p := Idle]);
        if KeyTaken(db.rows, at.tenant, at.sequence + 1) then freed else freed.(rows := db.rows + [e])
    case Abandon(p) =>
      if db.PhaseOf(p).Idle? then db
      else db.(locks := db.locks - {db.PhaseOf(p).tenant}, phases := db.phases[p := Idle])
  }

  predicate LockHeld(db: Db, p: nat) {
    db.PhaseOf(p).Idle? || (db.PhaseOf(p).tenant in db.locks && db.locks[db.PhaseOf(p).tenant] == p)
  }

  /** What a process has read is still the end of the chain. */
  predicate ReadFresh(db: Db, p: nat) {
    db.PhaseOf(p).Ready? ==>
      var chain := RowsOf(db.rows, db.PhaseOf(p).tenant);
      db.PhaseOf(p).sequence == |chain| && db.PhaseOf(p).hash == LastHash(chain)
  }

  ghost predicate Inv(h: Hash, db: Db) {
    && (forall tenant :: ValidChain(h, RowsOf(db.rows, tenant)))
    && (forall p :: LockHeld(db, p))
    && (forall p :: ReadFresh(db, p))
  }

  predicate Numbered(events: seq<Event>) {
    forall i :: 0 <= i < |events| ==> events[i].body.sequence == i + 1
  }

  lemma ChainNumbered(h: Hash, events: seq<Event>)
    requires ValidChain(h, events)
    ensures Numbered(events)
  {
    forall i | 0 <= i < |events| ensures events[i].body.sequence == i + 1 {
      assert ValidAt(h, events, i);
    }
  }

  lemma SortNumbered(events: seq<Event>)
    requires Numbered(events)
    ensures Sort(events, (a: Event, b: Event) => a.body.sequence <= b.body.sequence) == events
  {
    var leq := (a: Event, b: Event) => a.body.sequence <= b.body.sequence;
    SortSorts(events, leq);
    forall x, y | x in events && y in events && leq(x, y) && leq(y, x) ensures x == y {
      var i, j :| 0 <= i < |events| && 0 <= j < |events| && events[i] == x && events[j] == y;
    }
    forall x | x in Sort(events, leq) ensures x in events {
      assert x in multiset(Sort(events, leq));
    }
    SortedUnique(Sort(events, leq), events, leq);
  }

  lemma SortOfChain(h: Hash, rows: seq<Event>, tenant: string)
    requires ValidChain(h, RowsOf(rows, tenant))
    ensures EventsFor(rows, tenant) == RowsOf(rows, tenant)
  {
    ChainNumbered(h, RowsOf(rows, tenant));
    SortNumbered(RowsOf(rows, tenant));
  }

  lemma {:induction false} RowsOfMembers(rows: seq<Event>, tenant: string)
    ensures forall e :: e in RowsOf(rows, tenant) <==> e in rows && e.body.tenant == tenant
  {
    if rows != [] {
      RowsOfMembers(rows[..|rows| - 1], tenant);
      assert rows == rows[..|rows| - 1] + [rows[|rows| - 1]];
    }
  }

  lemma RowsOfAppend(rows: seq<Event>, e: Event, tenant: string)
    ensures RowsOf(rows + [e], tenant) == RowsOf(rows, tenant) + if e.body.tenant == tenant then [e] else []
  {
    assert (rows + [e])[..|rows|] == rows;
  }

  /** The primary key never refuses an insert: the next sequence number is always free. */
  lemma KeyFree(h: Hash, db: Db, p: nat)
    requires Inv(h, db) && db.PhaseOf(p).Ready?
    ensures !KeyTaken(db.rows, db.PhaseOf(p).tenant, db.PhaseOf(p).sequence + 1)
  {
    var tenant := db.PhaseOf(p).tenant;
    var chain := RowsOf(db.rows, tenant);
    RowsOfMembers(db.rows, tenant);
    assert ReadFresh(db, p);
    forall e | e in db.rows && e.body.tenant == tenant ensures e.body.sequence != |chain| + 1 {
      var i :| 0 <= i < |chain| && chain[i] == e;
      assert ValidAt(h, chain, i);
    }
  }

  lemma LockKeepsInv(h: Hash, db: Db, p: nat, tenant: string)
    requires Inv(h, db)
    ensures Inv(h, Next(h, db, Lock(p, tenant)))
  {
    var db' := Next(h, db, Lock(p, tenant));
    forall q ensures LockHeld(db', q) && ReadFresh(db', q) {
      assert LockHeld(db, q) && ReadFresh(db, q);
    }
  }

  lemma ReadKeepsInv(h: Hash, db: Db, p: nat)
    requires Inv(h, db)
    ensures Inv(h, Next(h, db, Read(p)))
  {
    var db' := Next(h, db, Read(p));
    forall q ensures LockHeld(db', q) && ReadFresh(db', q) {
      assert LockHeld(db, q) && ReadFresh(db, q);
      if db.PhaseOf(p).Locked? && q == p {
        var chain := RowsOf(db.rows, db.PhaseOf(p).tenant);
        SortOfChain(h, db.rows, db.PhaseOf(p).tenant);
        if chain != [] {
          assert ValidAt(h, chain, |chain| - 1);
        }
      }
    }
  }

  lemma AbandonKeepsInv(h: Hash, db: Db, p: nat)
    requires Inv(h, db)
    ensures Inv(h, Next(h, db, Abandon(p)))
  {
    var db' := Next(h, db, Abandon(p));
    assert LockHeld(db, p);
    forall q ensures LockHeld(db', q) && ReadFresh(db', q) {
      assert LockHeld(db, q) && ReadFresh(db, q);
    }
  }

  lemma InsertKeepsInv(h: Hash, db: Db, p: nat, eventId: string, content: string)
    requires Inv(h, db) && db.PhaseOf(p).Ready?
    ensures Inv(h, Next(h, db, InsertAndCommit(p, eventId, content)))
  {
    var s := InsertAndCommit(p, eventId, content);
    var db' := Next(h, db, s);
    var at := db.PhaseOf(p);
    var e := Sealed(h, Body(eventId, at.sequence + 1, at.tenant, content, at.hash));
    KeyFree(h, db, p);
    assert db'.rows == db.rows + [e];
    assert ReadFresh(db, p) && LockHeld(db, p);
    AppendValid(h, RowsOf(db.rows, at.tenant), e);
    forall tenant ensures ValidChain(h, RowsOf(db'.rows, tenant)) {
      RowsOfAppend(db.rows, e, tenant);
      assert ValidChain(h, RowsOf(db.rows, tenant));
      if tenant == at.tenant {
        assert RowsOf(db'.rows, tenant) == RowsOf(db.rows, tenant) + [e];
      } else {
        assert RowsOf(db'.rows, tenant) == RowsOf(db.rows, tenant);
      }
    }
    forall q ensures LockHeld(db', q) && ReadFresh(db', q) {
      assert LockHeld(db, q) && ReadFresh(db, q);
      if q != p && db.PhaseOf(q).Ready? {
        RowsOfAppend(db.rows, e, db.PhaseOf(q).tenant);
      }
    }
  }

  lemma NextKeepsInv(h: Hash, db: Db, s: DbStep)
    requires Inv(h, db)
    ensures Inv(h, Next(h, db, s))
  {
    match s
    case Lock(p, tenant) => LockKeepsInv(h, db, p, tenant);
    case Read(p) => ReadKeepsInv(h, db, p);
    case InsertAndCommit(p, eventId, content) =>
      if db.PhaseOf(p).Ready? {
        InsertKeepsInv(h, db, p, eventId, content);
      }
    case Abandon(p) => AbandonKeepsInv(h, db, p);
  }

  // ---- runs ----

  predicate Taken(h: Hash, states: seq<Db>, steps: seq<DbStep>, i: nat) {
    i < |steps| && i + 1 < |states| && states[i + 1] == Next(h, states[i], steps[i])
  }

  /** Any interleaving of any processes from an empty table. */
  predicate Run(h: Hash, states: seq<Db>, steps: seq<DbStep>) {
    && |states| == |steps| + 1 && states[0] == Db([], map[], map[])
    && forall i :: 0 <= i < |steps| ==> Taken(h, states, steps, i)
  }

  lemma {:induction false} RunInv(h: Hash, states: seq<Db>, steps: seq<DbStep>, i: nat)
    requires Run(h, states, steps) && i < |states|
    ensures Inv(h, states[i])
  {
    if i > 0 {
      RunInv(h, states, steps, i - 1);
      assert Taken(h, states, steps, i - 1);
      NextKeepsInv(h, states[i - 1], steps[i - 1]);
    }
  }

  /** Under every interleaving each tenant's events verify, and their number is the last one's
      sequence number. */
  lemma EveryChainVerifies(h: Hash, states: seq<Db>, steps: seq<DbStep>, i: nat, tenant: string)
    requires Run(h, states, steps) && i < |states|
    ensures var events := EventsFor(states[i].rows, tenant);
            && ValidChain(h, events)
            && (events != [] ==> events[|events| - 1].body.sequence == |events|)
            && (forall e :: e in events <==> e in states[i].rows && e.body.tenant == tenant)
  {
    RunInv(h, states, steps, i);
    SortOfChain(h, states[i].rows, tenant);
    RowsOfMembers(states[i].rows, tenant);
    var events := RowsOf(states[i].rows, tenant);
    if events != [] {
      assert ValidAt(h, events, |events| - 1);
    }
  }

  lemma {:induction false} RowsGrow(h: Hash, states: seq<Db>, steps: seq<DbStep>, i: nat, j: nat, tenant: string)
    requires Run(h, states, steps) && i <= j < |states|
    ensures RowsOf(states[i].rows, tenant) <= RowsOf(states[j].rows, tenant)
  {
    if i < j {
      RowsGrow(h, states, steps, i, j - 1, tenant);
      assert Taken(h, states, steps, j - 1);
      NextGrows(h, states[j - 1], steps[j - 1], tenant);
    }
  }

  lemma NextGrows(h: Hash, db: Db, s: DbStep, tenant: string)
    ensures RowsOf(db.rows, tenant) <= RowsOf(Next(h, db, s).rows, tenant)
  {
    if s.InsertAndCommit? && db.PhaseOf(s.process).Ready? {
      var at := db.PhaseOf(s.process);
      RowsOfAppend(db.rows, Sealed(h, Body(s.eventId, at.sequence + 1, at.tenant, s.content, at.hash)), tenant);
    }
  }

  // ---- checkpoints ----

  datatype Checkpoint = Checkpoint(tenant: string, through: nat, count: nat, first: Digest, last: Digest)

  /** `create_checkpoint`; `None` is its refusal of an empty chain. The read happens under the lock. */
  function TakeCheckpoint(rows: seq<Event>, tenant: string): Option<Checkpoint> {
    var events := EventsFor(rows, tenant);
    if events == [] then None
    else
      var last := events[|events| - 1];
      Some(Checkpoint(tenant, last.body.sequence, |events|, events[0].hash, last.hash))
  }

  /** A checkpoint covers as many events as its sequence number says; the chain keeps them for good;
      and any valid chain, wherever it came from, that carries the checkpoint's last hash at that
      position starts with exactly those events. */
  lemma CheckpointPinsPrefix(
    h: Hash, states: seq<Db>, steps: seq<DbStep>, i: nat, j: nat, tenant: string, c: Checkpoint, other: seq<Event>)
    requires CollisionFree(h) && Run(h, states, steps) && i <= j < |states|
    requires TakeCheckpoint(states[i].rows, tenant) == Some(c)
    requires ValidChain(h, other)
    ensures var pinned := EventsFor(states[i].rows, tenant);
            && c.through == c.count == |pinned|
            && pinned <= EventsFor(states[j].rows, tenant)
            && (c.through <= |other| && other[c.through - 1].hash == c.last <==> pinned <= other)
  {
    var pinned := EventsFor(states[i].rows, tenant);
    CheckpointOf(states[i].rows, tenant, c, pinned);
    EveryChainVerifies(h, states, steps, i, tenant);
    EventsGrow(h, states, steps, i, j, tenant);
    SameLastHash(h, pinned, other);
  }

  lemma CheckpointOf(rows: seq<Event>, tenant: string, c: Checkpoint, events: seq<Event>)
    requires TakeCheckpoint(rows, tenant) == Some(c) && events == EventsFor(rows, tenant)
    ensures events != [] && c.count == |events|
    ensures c.through == events[|events| - 1].body.sequence && c.last == events[|events| - 1].hash
  {
  }

  lemma EventsGrow(h: Hash, states: seq<Db>, steps: seq<DbStep>, i: nat, j: nat, tenant: string)
    requires Run(h, states, steps) && i <= j < |states|
    ensures EventsFor(states[i].rows, tenant) <= EventsFor(states[j].rows, tenant)
  {
    RunInv(h, states, steps, i);
    RunInv(h, states, steps, j);
    SortOfChain(h, states[i].rows, tenant);
    SortOfChain(h, states[j].rows, tenant);
    RowsGrow(h, states, steps, i, j, tenant);
  }

  lemma SameLastHash(h: Hash, pinned: seq<Event>, other: seq<Event>)
    requires CollisionFree(h) && ValidChain(h, pinned) && ValidChain(h, other) && pinned != []
    ensures var n := |pinned|; n <= |other| && other[n - 1].hash == pinned[n - 1].hash <==> pinned <= other
  {
    var n := |pinned|;
    if n <= |other| && other[n - 1].hash == pinned[n - 1].hash {
      assert pinned[..n] == pinned && other[..n][n - 1] == other[n - 1];
      ChainsAgree(h, pinned, other, n);
    }
  }

  // ---- verification of a process's own events ----

  /** The database logger also inherits verification of the events its own process recorded. On
      rows of the table that succeeds exactly when they are the first events of one tenant, so a
      process that served two tenants fails it although every chain is intact. */
  lemma OwnEventsVerify(h: Hash, states: seq<Db>, steps: seq<DbStep>, i: nat, own: seq<Event>)
    requires CollisionFree(h) && Run(h, states, steps) && i < |states|
    requires forall e :: e in own ==> e in states[i].rows
    ensures ValidChain(h, own) <==> exists tenant :: own <= EventsFor(states[i].rows, tenant)
  {
    if tenant :| own <= EventsFor(states[i].rows, tenant) {
      EveryChainVerifies(h, states, steps, i, tenant);
      OwnPrefixValid(h, EventsFor(states[i].rows, tenant), own);
    }
    if ValidChain(h, own) {
      var tenant := OwnTenant(h, states, steps, i, own);
    }
  }

  lemma OwnPrefixValid(h: Hash, events: seq<Event>, own: seq<Event>)
    requires ValidChain(h, events) && own <= events
    ensures ValidChain(h, own)
  {
    PrefixValid(h, events, |own|);
    assert events[..|own|] == own;
  }

  lemma OwnTenant(h: Hash, states: seq<Db>, steps: seq<DbStep>, i: nat, own: seq<Event>) returns (tenant: string)
    requires CollisionFree(h) && Run(h, states, steps) && i < |states|
    requires ValidChain(h, own) && forall e :: e in own ==> e in states[i].rows
    ensures own <= EventsFor(states[i].rows, tenant)
  {
    tenant := if own == [] then "" else own[|own| - 1].body.tenant;
    if own != [] {
      EveryChainVerifies(h, states, steps, i, tenant);
      LastPinsOwn(h, own, EventsFor(states[i].rows, tenant));
    }
  }

  lemma LastPinsOwn(h: Hash, own: seq<Event>, chain: seq<Event>)
    requires CollisionFree(h) && ValidChain(h, own) && ValidChain(h, chain)
    requires own != [] && own[|own| - 1] in chain
    ensures own <= chain
  {
    var n := |own|;
    var k :| 0 <= k < |chain| && chain[k] == own[n - 1];
    assert ValidAt(h, own, n - 1) && ValidAt(h, chain, k);
    SameLastHash(h, own, chain);
  }

  /** What a process appends to its own list at a step: the event it has just committed. */
  function Appended(h: Hash, db: Db, s: DbStep, process: nat): seq<Event> {
    if !s.InsertAndCommit? || s.process != process || !db.PhaseOf(process).Ready? then []
    else
      var at := db.PhaseOf(process);
      if KeyTaken(db.rows, at.tenant, at.sequence + 1) then []
      else [Sealed(h, Body(s.eventId, at.sequence + 1, at.tenant, s.content, at.hash))]
  }

  /** The events a process has recorded in the first `n` steps, of whatever tenants. */
  function OwnEvents(h: Hash, states: seq<Db>, steps: seq<DbStep>, process: nat, n: nat): seq<Event>
    requires n <= |steps| < |states|
  {
    if n == 0 then []
    else OwnEvents(h, states, steps, process, n - 1) + Appended(h, states[n - 1], steps[n - 1], process)
  }

  lemma {:induction false} OwnEventsStored(h: Hash, states: seq<Db>, steps: seq<DbStep>, process: nat, n: nat)
    requires Run(h, states, steps) && n <= |steps|
    ensures forall e :: e in OwnEvents(h, states, steps, process, n) ==> e in states[n].rows
  {
    if n > 0 {
      OwnEventsStored(h, states, steps, process, n - 1);
      assert Taken(h, states, steps, n - 1);
    }
  }

  /** So the inherited verification of any process succeeds exactly when it has only recorded the
      first events of one tenant. */
  lemma ProcessVerifies(h: Hash, states: seq<Db>, steps: seq<DbStep>, process: nat, n: nat)
    requires CollisionFree(h) && Run(h, states, steps) && n <= |steps|
    ensures ValidChain(h, OwnEvents(h, states, steps, process, n))
            <==> exists tenant :: OwnEvents(h, states, steps, process, n) <= EventsFor(states[n].rows, tenant)
  {
    OwnEventsStored(h, states, steps, process, n);
    OwnEventsVerify(h, states, steps, n, OwnEvents(h, states, steps, process, n));
  }

  /** A process that records one event for each of two tenants fails it, although both chains verify. */
  lemma TwoTenantsFail(h: Hash) returns (states: seq<Db>, steps: seq<DbStep>)
    ensures Run(h, states, steps) && |steps| == 6
    ensures |OwnEvents(h, states, steps, 0, 6)| == 2 && !ValidChain(h, OwnEvents(h, states, steps, 0, 6))
    ensures ValidChain(h, EventsFor(states[6].rows, "a")) && ValidChain(h, EventsFor(states[6].rows, "b"))
  {
    steps := [Lock(0, "a"), Read(0), InsertAndCommit(0, "1", ""), Lock(0, "b"), Read(0), InsertAndCommit(0, "2", "")];
    var d0 := Db([], map[], map[]);
    var d3, e := FirstEvent(h, d0, "a", "1");
    var d6, f := FirstEvent(h, d3, "b", "2");
    var d1, d4 := Next(h, d0, steps[0]), Next(h, d3, steps[3]);
    states := [d0, d1, Next(h, d1, steps[1]), d3, d4, Next(h, d4, steps[4]), d6];
    assert Taken(h, states, steps, 0) && Taken(h, states, steps, 1) && Taken(h, states, steps, 2);
    assert Taken(h, states, steps, 3) && Taken(h, states, steps, 4) && Taken(h, states, steps, 5);
    OwnOfSix(h, states, steps, e, f);
    assert !ValidAt(h, [e, f], 1);
    EveryChainVerifies(h, states, steps, 6, "a");
    EveryChainVerifies(h, states, steps, 6, "b");
  }

  /** Process 0 records the first event of a tenant. */
  lemma FirstEvent(h: Hash, db: Db, tenant: string, eventId: string) returns (after: Db, e: Event)
    requires db.PhaseOf(0).Idle? && tenant !in db.locks && forall r :: r in db.rows ==> r.body.tenant != tenant
    ensures var locked := Next(h, db, Lock(0, tenant));
            var ready := Next(h, locked, Read(0));
            && after == Next(h, ready, InsertAndCommit(0, eventId, ""))
            && Appended(h, ready, InsertAndCommit(0, eventId, ""), 0) == [e]
    ensures e.body.sequence == 1 && e.body.tenant == tenant
    ensures after.rows == db.rows + [e] && after.locks == db.locks && after.PhaseOf(0).Idle?
  {
    var locked := Next(h, db, Lock(0, tenant));
    NoRows(db.rows, tenant);
    var ready := Next(h, locked, Read(0));
    e := Sealed(h, Body(eventId, 1, tenant, "", GENESIS));
    after := Next(h, ready, InsertAndCommit(0, eventId, ""));
  }

  lemma {:induction false} NoRows(rows: seq<Event>, tenant: string)
    requires forall r :: r in rows ==> r.body.tenant != tenant
    ensures RowsOf(rows, tenant) == []
  {
    if rows != [] {
      NoRows(rows[..|rows| - 1], tenant);
      assert rows[|rows| - 1] in rows;
    }
  }

  lemma OwnOfSix(h: Hash, states: seq<Db>, steps: seq<DbStep>, e: Event, f: Event)
    requires |steps| == 6 && |states| == 7
    requires forall i :: 0 <= i < 6 && i != 2 && i != 5 ==> !steps[i].InsertAndCommit?
    requires Appended(h, states[2], steps[2], 0) == [e] && Appended(h, states[5], steps[5], 0) == [f]
    ensures OwnEvents(h, states, steps, 0, 6) == [e, f]
  {
    assert OwnEvents(h, states, steps, 0, 0) == [];
    assert OwnEvents(h, states, steps, 0, 1) == [];
    assert OwnEvents(h, states, steps, 0, 2) == [];
    assert OwnEvents(h, states, steps, 0, 3) == [e];
    assert OwnEvents(h, states, steps, 0, 4) == [e];
    assert OwnEvents(h, states, steps, 0, 5) == [e];
  }
}
