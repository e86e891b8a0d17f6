/** Replay protection for signed tokens: the in-memory store, the file-backed store, and the guard
    over either, against one specification of what has been seen. */
module JwtReplay {
  import opened Wrappers
  import opened Text
  import opened Sorting

  type PairKey = (string, string)

  /** Expiry by issuer and token id. */
  type Seen = map<PairKey, int>

  datatype Claims = Claims(tenant: string, issuer: string, subject: string, jwtId: Option<string>, expires: int)

  datatype ReplayError = ReplayDetected | StoreCorrupt

  /** `_purge_expired`. */
  function Purge(seen: Seen, now: int): (live: Seen)
    ensures forall k :: k in live <==> k in seen && seen[k] > now
    ensures forall k :: k in live ==> live[k] == seen[k]
  {
    map k | k in seen && seen[k] > now :: seen[k]
  }

  /** `require_not_replayed`: what has been seen afterwards, and whether the token is accepted. */
  function Guard(seen: Seen, c: Claims, now: int): (Seen, bool) {
    if c.jwtId.None? then (seen, true)
    else
      var key := (c.issuer, c.jwtId.value);
      var live := Purge(seen, now);
      if key in live then (live, false) else (live[key := c.expires], true)
  }

  class InMemoryJwtReplayStore {
    var seen: Seen

    constructor ()
      ensures seen == map[]
    {
      seen := map[];
    }

    method Contains(issuer: string, jwtId: string, now: int) returns (found: bool)
      modifies this
      ensures seen == Purge(old(seen), now) && (found <==> (issuer, jwtId) in seen)
    {
      seen := Purge(seen, now);
      found := (issuer, jwtId) in seen;
    }

    method Record(issuer: string, jwtId: string, expires: int, now: int)
      modifies this
      ensures seen == Purge(old(seen), now)[(issuer, jwtId) := expires]
    {
      seen := Purge(seen, now);
      seen := seen[(issuer, jwtId) := expires];
    }
  }

  /** What the file remembers of a pair. */
  datatype Entry = Entry(tenant: string, expires: int)

  type Records = map<PairKey, Entry>

  function Expiries(records: Records): Seen {
    map k | k in records :: records[k].expires
  }

  /** Reading replaces a tenant that is no text or blank. */
  function Named(e: Entry): Entry {
    if Blank(e.tenant) then e.(tenant := "unknown") else e
  }

  /** The entries not expired, as reading them yields them. */
  function LiveEntries(records: Records, now: int): Records {
    map k | k in records && records[k].expires > now :: Named(records[k])
  }

  /** One record of the file; a tenant that is missing or no text is blank here. */
  datatype Row = Row(issuer: string, jwtId: string, entry: Entry) {
    predicate Blank() {
      BlankKey(Key())
    }

    function Key(): PairKey {
      (issuer, jwtId)
    }
  }

  predicate BlankKey(k: PairKey) {
    Blank(k.0) || Blank(k.1)
  }

  /** The order of `sorted` on pairs. */
  predicate RowLeq(a: Row, b: Row) {
    if a.issuer == b.issuer then StringLeq(a.jwtId, b.jwtId) else StringLeq(a.issuer, b.issuer)
  }

  predicate DistinctKeys(rows: seq<Row>) {
    forall i, j :: 0 <= i < j < |rows| ==> rows[i].Key() != rows[j].Key()
  }

  /** The rows say what the map says. */
  ghost predicate Stores(rows: seq<Row>, records: Records) {
    && (forall r :: r in rows ==> r.Key() in records && records[r.Key()] == r.entry)
    && (forall k :: k in records ==> Row(k.0, k.1, records[k]) in rows)
  }

  predicate Poisoned(rows: seq<Row>) {
    exists r | r in rows :: r.Blank()
  }

  /** There is no file yet, or one that is not a JSON object with a list of complete records, or one
      that holds records. */
  datatype File = NoFile | Garbled | Holds(rows: seq<Row>)

  /** The rows as a dictionary; of several rows with one key the last counts. */
  function AsRecords(rows: seq<Row>): Records {
    if rows == [] then map[]
    else
      var last := rows[|rows| - 1];
      AsRecords(rows[..|rows| - 1])[last.Key() := last.entry]
  }

  class JsonFileJwtReplayStore {
    var file: File

    function Rows(): seq<Row>
      reads this
    {
      if file.Holds? then file.rows else []
    }

    /** The file cannot be read, or one of its records is blank. */
    predicate Corrupt()
      reads this
    {
      file.Garbled? || Poisoned(Rows())
    }

    function Entries(): Records
      reads this
    {
      AsRecords(Rows())
    }

    function Seen(): Seen
      reads this
    {
      Expiries(Entries())
    }

    /** What a read at that time finds. */
    function SeenAt(now: int): Seen
      reads this
    {
      Expiries(LiveOf(Rows(), now))
    }

    /** No pair has two rows; so it is with every file this store has written. */
    predicate Valid()
      reads this
    {
      DistinctKeys(Rows())
    }

    /** A store over the file it finds. */
    constructor (file: File)
      ensures this.file == file
    {
      this.file := file;
    }

    method WriteRecords(records: Records)
      modifies this
      ensures Valid() && Entries() == records && Sorted(Rows(), RowLeq)
      ensures Corrupt() <==> AnyBlank(records)
    {
      var rows: seq<Row> := [];
      var left := records.Keys;
      while left != {}
        invariant left <= records.Keys
        invariant DistinctKeys(rows)
        invariant forall r :: r in rows ==> r.Key() in records && r.Key() !in left && records[r.Key()] == r.entry
        invariant forall k :: k in records && k !in left ==> Row(k.0, k.1, records[k]) in rows
        decreases left
      {
        var k :| k in left;
        rows := rows + [Row(k.0, k.1, records[k])];
        left := left - {k};
      }
      RowOrder();
      SortSorts(rows, RowLeq);
      SortedRows(rows, Sort(rows, RowLeq), records);
      file := Holds(Sort(rows, RowLeq));
      AsRecordsStores(Rows());
      StoresOnce(Rows(), AsRecords(Rows()), records);
    }

    /** Reads the live records, and rewrites the file if that leaves fewer records than it has rows. */
    method ReadRecords(now: int) returns (r: Result<Records, ReplayError>)
      modifies this
      ensures if old(Corrupt()) then r == Err(StoreCorrupt) && file == old(file)
              else r == Ok(LiveOf(old(Rows()), now)) && Seen() == old(SeenAt(now)) && Valid() && !Corrupt()
      ensures old(Valid()) ==> old(SeenAt(now)) == Purge(old(Seen()), now)
    {
      LivePurges(Rows(), now);
      match file {
        case Garbled => return Err(StoreCorrupt);
        case NoFile => return Ok(map[]);
        case Holds(_) =>
      }
      var rows := file.rows;
      var filtered := LiveRecords(rows, now);
      var records :- filtered;
      LiveNotBlank(rows, now);
      if |records| != |rows| {
        WriteRecords(records);
      } else {
        NothingToRewrite(rows, now);
      }
      return Ok(records);
    }

    method Contains(issuer: string, jwtId: string, now: int) returns (r: Result<bool, ReplayError>)
      modifies this
      ensures if old(Corrupt()) then r == Err(StoreCorrupt) && file == old(file)
              else r == Ok((issuer, jwtId) in Seen()) && Seen() == old(SeenAt(now)) && Valid() && !Corrupt()
      ensures old(Valid()) ==> old(SeenAt(now)) == Purge(old(Seen()), now)
    {
      var read := ReadRecords(now);
      var records :- read;
      return Ok((issuer, jwtId) in records);
    }

    method Record(tenant: string, issuer: string, jwtId: string, expires: int, now: int)
      returns (r: Result<(), ReplayError>)
      modifies this
      ensures if old(Corrupt()) then r == Err(StoreCorrupt) && file == old(file)
              else r.Ok? && Valid() && Entries() == LiveOf(old(Rows()), now)[(issuer, jwtId) := Entry(tenant, expires)]
                   && Seen() == old(SeenAt(now))[(issuer, jwtId) := expires]
                   && (Corrupt() <==> Blank(issuer) || Blank(jwtId))
      ensures old(Valid()) ==> old(SeenAt(now)) == Purge(old(Seen()), now)
    {
      LiveNotBlank(Rows(), now);
      var read := ReadRecords(now);
      var records :- read;
      Recorded(records, (issuer, jwtId), Entry(tenant, expires));
      WriteRecords(records[(issuer, jwtId) := Entry(tenant, expires)]);
      return Ok(());
    }
  }

  lemma {:induction false} AsRecordsKeys(rows: seq<Row>, k: PairKey)
    ensures k in AsRecords(rows) <==> exists r :: r in rows && r.Key() == k
    ensures k in AsRecords(rows) ==> Row(k.0, k.1, AsRecords(rows)[k]) in rows
  {
    if rows != [] {
      var n := |rows| - 1;
      AsRecordsKeys(rows[..n], k);
      assert rows == rows[..n] + [rows[n]];
      assert rows[n].Key() == k ==> Row(k.0, k.1, rows[n].entry) == rows[n];
    }
  }

  /** Without a pair in two rows, the dictionary says what the rows say. */
  lemma AsRecordsStores(rows: seq<Row>)
    requires DistinctKeys(rows)
    ensures Stores(rows, AsRecords(rows))
  {
    forall r | r in rows ensures r.Key() in AsRecords(rows) && AsRecords(rows)[r.Key()] == r.entry {
      var k := r.Key();
      AsRecordsKeys(rows, k);
      var i, j :| 0 <= i < |rows| && rows[i] == r && 0 <= j < |rows| && rows[j] == Row(k.0, k.1, AsRecords(rows)[k]);
      assert rows[i].Key() == rows[j].Key();
    }
    forall k | k in AsRecords(rows) ensures Row(k.0, k.1, AsRecords(rows)[k]) in rows {
      AsRecordsKeys(rows, k);
    }
  }

  lemma StoresOnce(rows: seq<Row>, records: Records, records': Records)
    requires Stores(rows, records) && Stores(rows, records')
    ensures records == records'
  {
    forall k ensures k in records <==> k in records'
             ensures k in records && k in records' ==> records[k] == records'[k] {
      if k in records {
        assert Row(k.0, k.1, records[k]).Key() == k;
      }
      if k in records' {
        assert Row(k.0, k.1, records'[k]).Key() == k;
      }
    }
  }

  predicate AnyBlank(records: Records) {
    exists k | k in records :: BlankKey(k)
  }

  /** Adding an entry adds its expiry, and a blank row exactly if its key is blank. */
  lemma Recorded(records: Records, key: PairKey, entry: Entry)
    requires !AnyBlank(records)
    ensures Expiries(records[key := entry]) == Expiries(records)[key := entry.expires]
    ensures AnyBlank(records[key := entry]) <==> BlankKey(key)
  {
    assert key in records[key := entry];
  }

  lemma LiveExpiries(records: Records, now: int)
    ensures Expiries(LiveEntries(records, now)) == Purge(Expiries(records), now)
  {
  }

  /** The entries of readable rows have no blank issuer or token id. */
  lemma LiveNotBlank(rows: seq<Row>, now: int)
    ensures !Poisoned(rows) ==> !AnyBlank(LiveOf(rows, now))
  {
    if k :| k in LiveOf(rows, now) && BlankKey(k) {
      LiveOfKey(rows, now, k);
      var i :| 0 <= i < |rows| && rows[i].Key() == k;
      assert rows[i] in rows && rows[i].Blank();
    }
  }

  lemma RowOrder()
    ensures TotalPreorder(RowLeq)
  {
    forall a, b ensures RowLeq(a, b) || RowLeq(b, a) {
      StringLeqTotal(a.issuer, b.issuer);
      StringLeqTotal(a.jwtId, b.jwtId);
    }
    forall a, b, c | RowLeq(a, b) && RowLeq(b, c) ensures RowLeq(a, c) {
      StringLeqTotal(a.issuer, b.issuer);
      StringLeqTotal(b.issuer, c.issuer);
      StringLeqTotal(a.issuer, c.issuer);
      if a.issuer == b.issuer == c.issuer {
        StringLeqTransitive(a.jwtId, b.jwtId, c.jwtId);
      } else {
        StringLeqTransitive(a.issuer, b.issuer, c.issuer);
      }
    }
  }

  lemma SortedRows(rows: seq<Row>, sorted: seq<Row>, records: Records)
    requires multiset(rows) == multiset(sorted) && DistinctKeys(rows) && Stores(rows, records)
    ensures DistinctKeys(sorted) && Stores(sorted, records)
    ensures Poisoned(sorted) <==> AnyBlank(records)
  {
    assert Distinct(rows);
    Rearranged(rows, sorted);
    forall i, j | 0 <= i < j < |sorted| ensures sorted[i].Key() != sorted[j].Key() {
      assert sorted[i] in rows && sorted[j] in rows && sorted[i] != sorted[j];
    }
    if Poisoned(sorted) {
      var r :| r in sorted && r.Blank();
      assert r.Key() in records;
    }
  }

  /** The unexpired rows as a dictionary. */
  function LiveOf(rows: seq<Row>, now: int): Records {
    if rows == [] then map[]
    else
      var last := rows[|rows| - 1];
      var front := LiveOf(rows[..|rows| - 1], now);
      if last.entry.expires > now then front[last.Key() := Named(last.entry)] else front
  }

  lemma InLonger(rows: seq<Row>, r: Row)
    requires rows != []
    ensures r in rows <==> r in rows[..|rows| - 1] || r == rows[|rows| - 1]
  {
    assert rows == rows[..|rows| - 1] + [rows[|rows| - 1]];
  }

  /** A row is in the dictionary exactly if it has not expired. */
  lemma {:induction false} LiveOfRow(rows: seq<Row>, now: int, r: Row)
    requires DistinctKeys(rows) && r in rows
    ensures r.Key() in LiveOf(rows, now) <==> r.entry.expires > now
    ensures r.entry.expires > now ==> LiveOf(rows, now)[r.Key()] == Named(r.entry)
  {
    var n := |rows| - 1;
    InLonger(rows, r);
    if r in rows[..n] {
      LiveOfRow(rows[..n], now, r);
      var i :| 0 <= i < n && rows[i] == r;
    } else if r.Key() in LiveOf(rows[..n], now) {
      LiveOfKey(rows[..n], now, r.Key());
    }
  }

  lemma {:induction false} LiveOfKey(rows: seq<Row>, now: int, k: PairKey)
    requires k in LiveOf(rows, now)
    ensures exists i :: 0 <= i < |rows| && rows[i].Key() == k && rows[i].entry.expires > now
  {
    var n := |rows| - 1;
    if rows[n].Key() != k || rows[n].entry.expires <= now {
      LiveOfKey(rows[..n], now, k);
      var i :| 0 <= i < n && rows[..n][i].Key() == k && rows[..n][i].entry.expires > now;
      assert rows[i].Key() == k;
    }
  }

  /** Any row that has not expired leaves its key in the dictionary. */
  lemma {:induction false} LiveOfHas(rows: seq<Row>, now: int, r: Row)
    requires r in rows && r.entry.expires > now
    ensures r.Key() in LiveOf(rows, now)
  {
    InLonger(rows, r);
    if r in rows[..|rows| - 1] {
      LiveOfHas(rows[..|rows| - 1], now, r);
    }
  }

  /** The dictionary is as long as the list only if nothing has expired and no pair has two rows. */
  lemma {:induction false} LiveOfSize(rows: seq<Row>, now: int)
    ensures |LiveOf(rows, now)| <= |rows|
    ensures |LiveOf(rows, now)| == |rows| ==> DistinctKeys(rows) && forall r :: r in rows ==> r.entry.expires > now
  {
    if rows != [] {
      var n := |rows| - 1;
      LiveOfSize(rows[..n], now);
      assert rows == rows[..n] + [rows[n]];
      if |LiveOf(rows, now)| == |rows| {
        forall i | 0 <= i < n ensures rows[i].Key() != rows[n].Key() {
          assert rows[i] in rows[..n];
          LiveOfHas(rows[..n], now, rows[i]);
        }
        assert forall i, j :: 0 <= i < j < n ==> rows[..n][i].Key() != rows[..n][j].Key();
      }
    }
  }

  lemma LiveOfAt(rows: seq<Row>, records: Records, now: int, k: PairKey)
    requires DistinctKeys(rows) && Stores(rows, records)
    ensures k in LiveOf(rows, now) <==> k in records && records[k].expires > now
    ensures k in LiveOf(rows, now) ==> LiveOf(rows, now)[k] == Named(records[k])
  {
    if k in LiveOf(rows, now) {
      LiveOfKey(rows, now, k);
      var i :| 0 <= i < |rows| && rows[i].Key() == k;
      assert rows[i] in rows;
    }
    if k in records {
      var r := Row(k.0, k.1, records[k]);
      assert r.Key() == k;
      LiveOfRow(rows, now, r);
    }
  }

  lemma LiveOfEntries(rows: seq<Row>, records: Records, now: int)
    requires DistinctKeys(rows) && Stores(rows, records)
    ensures LiveOf(rows, now) == LiveEntries(records, now)
  {
    forall k ensures k in LiveOf(rows, now) <==> k in records && records[k].expires > now
             ensures k in LiveOf(rows, now) ==> LiveOf(rows, now)[k] == Named(records[k]) {
      LiveOfAt(rows, records, now, k);
    }
  }

  /** Without a pair in two rows, reading purges what has expired and nothing else. */
  lemma LivePurges(rows: seq<Row>, now: int)
    ensures DistinctKeys(rows) ==> Expiries(LiveOf(rows, now)) == Purge(Expiries(AsRecords(rows)), now)
  {
    if DistinctKeys(rows) {
      AsRecordsStores(rows);
      LiveOfEntries(rows, AsRecords(rows), now);
      LiveExpiries(AsRecords(rows), now);
    }
  }

  /** Reading leaves the file alone only if it finds all that is in it. */
  lemma NothingToRewrite(rows: seq<Row>, now: int)
    requires |LiveOf(rows, now)| == |rows|
    ensures DistinctKeys(rows) && Expiries(AsRecords(rows)) == Expiries(LiveOf(rows, now))
  {
    LiveOfSize(rows, now);
    LivePurges(rows, now);
    forall k | k in AsRecords(rows) ensures AsRecords(rows)[k].expires > now {
      AsRecordsKeys(rows, k);
    }
  }

  /** The loop over the records of the file: it stops at a blank one, and keeps those not expired. */
  method LiveRecords(rows: seq<Row>, now: int) returns (r: Result<Records, ReplayError>)
    ensures r == if Poisoned(rows) then Err(StoreCorrupt) else Ok(LiveOf(rows, now))
  {
    var records: Records := map[];
    for i := 0 to |rows|
      invariant forall j :: 0 <= j < i ==> !rows[j].Blank()
      invariant records == LiveOf(rows[..i], now)
    {
      assert rows[..i + 1][..i] == rows[..i];
      if rows[i].Blank() {
        assert rows[i] in rows;
        return Err(StoreCorrupt);
      }
      if rows[i].entry.expires > now {
        records := records[rows[i].Key() := Named(rows[i].entry)];
      }
    }
    assert rows[..|rows|] == rows;
    return Ok(records);
  }
}
