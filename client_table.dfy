/**
 * The `clients` table as a value: its rows in row id order, the row an
 * upsert writes, the upsert itself, and the `ORDER BY last_seen DESC` scan.
 */
module ClientTable {
  import opened Wrappers
  import opened JsonValue
  import opened Sqlite

  /** One row of `clients`; every column has TEXT affinity. */
  datatype ClientRow = ClientRow(
    clientId: Cell,
    hostname: Cell,
    ip: Cell,
    uptime: Cell,
    modules: Cell,
    info: Cell,
    lastSeen: Cell)

  /**
   * The PRIMARY KEY constraint: no two rows share a non-NULL `client_id`.
   * SQLite lets a TEXT key of a rowid table be NULL, and NULLs are distinct.
   */
  ghost predicate UniqueKeys(rows: seq<ClientRow>) {
    forall i, j :: 0 <= i < j < |rows| && rows[i].clientId.Some? ==> rows[i].clientId != rows[j].clientId
  }

  /**
   * The row the INSERT of `upsert_client` proposes for a status payload:
   * five columns take the payload's values as bound, `modules` and `info`
   * take their serialisations. A value that cannot be bound fails the
   * statement, the first such parameter in order deciding the error.
   */
  function ClientRowOf(data: Payload, dumps: Json -> string): (r: Result<ClientRow, BindError>)
    ensures r.Success? <==>
      Bindable(Get(data, "client_id")) && Bindable(Get(data, "hostname")) && Bindable(Get(data, "ip"))
      && Bindable(Get(data, "uptime")) && Bindable(Get(data, "last_seen"))
    ensures r.Failure? && !Bindable(Get(data, "client_id")) ==> r.error == BindText(Get(data, "client_id")).error
    ensures r.Success? ==>
      && r.value.clientId == BindText(Get(data, "client_id")).value
      && r.value.hostname == BindText(Get(data, "hostname")).value
      && r.value.ip == BindText(Get(data, "ip")).value
      && r.value.uptime == BindText(Get(data, "uptime")).value
      && r.value.lastSeen == BindText(Get(data, "last_seen")).value
    // the serialised columns are never NULL, whatever the payload holds
    ensures r.Success? ==>
      r.value.modules == Some(dumps(Get(data, "modules"))) && r.value.info == Some(dumps(Get(data, "info")))
    // a field the payload leaves out is stored as NULL ...
    ensures r.Success? ==>
      && ("client_id" !in data ==> r.value.clientId == None)
      && ("hostname" !in data ==> r.value.hostname == None)
      && ("ip" !in data ==> r.value.ip == None)
      && ("uptime" !in data ==> r.value.uptime == None)
      && ("last_seen" !in data ==> r.value.lastSeen == None)
    // ... except the serialised ones, which hold the text "null"
    ensures r.Success? && dumps(Null) == "null" ==>
      && ("modules" !in data ==> r.value.modules == Some("null"))
      && ("info" !in data ==> r.value.info == Some("null"))
  {
    var clientId :- BindText(Get(data, "client_id"));
    var hostname :- BindText(Get(data, "hostname"));
    var ip :- BindText(Get(data, "ip"));
    var uptime :- BindText(Get(data, "uptime"));
    var modules := Some(dumps(Get(data, "modules")));
    var info := Some(dumps(Get(data, "info")));
    var lastSeen :- BindText(Get(data, "last_seen"));
    Success(ClientRow(clientId, hostname, ip, uptime, modules, info, lastSeen))
  }

  // ----- looking a key up

  /** The position of the row whose key is `k`, if there is one (the first one). */
  function KeyIndex(rows: seq<ClientRow>, k: string): (r: Option<nat>)
    ensures r.Some? ==> r.value < |rows| && rows[r.value].clientId == Some(k)
    ensures r.Some? ==> forall j :: 0 <= j < r.value ==> rows[j].clientId != Some(k)
    ensures r.None? <==> forall i :: 0 <= i < |rows| ==> rows[i].clientId != Some(k)
  {
    if rows == [] then None
    else if rows[0].clientId == Some(k) then Some(0)
    else match KeyIndex(rows[1..], k)
      case None => None
      case Some(i) => Some(i + 1)
  }

  /** KeyIndex finds a row with the key when no earlier row has it. */
  lemma KeyIndexIsFirst(rows: seq<ClientRow>, k: string, i: nat)
    requires i < |rows| && rows[i].clientId == Some(k)
    requires forall j :: 0 <= j < i ==> rows[j].clientId != Some(k)
    ensures KeyIndex(rows, k) == Some(i)
  {
    assert KeyIndex(rows, k).Some?;
  }

  /** The row whose key is `k`; the PRIMARY KEY allows at most one. */
  function Lookup(rows: seq<ClientRow>, k: string): (r: Option<ClientRow>)
    ensures r.Some? ==> r.value in rows && r.value.clientId == Some(k)
    ensures r.None? <==> forall i :: 0 <= i < |rows| ==> rows[i].clientId != Some(k)
  {
    match KeyIndex(rows, k)
    case None => None
    case Some(i) => Some(rows[i])
  }

  // ----- INSERT ... ON CONFLICT(client_id) DO UPDATE SET <every other column>

  /**
   * The table after the upsert of `row`. A row with the same non-NULL key
   * is updated in place, every non-key column taking the new value, which
   * makes it equal to `row`. Otherwise `row` is inserted at the end: this
   * is also what happens to a NULL key, which never conflicts.
   */
  function Upserted(rows: seq<ClientRow>, row: ClientRow): (r: seq<ClientRow>)
    ensures row in r
    ensures |rows| <= |r| <= |rows| + 1
    ensures row.clientId.None? ==> r == rows + [row]
  {
    match row.clientId
    case None => rows + [row]
    case Some(k) =>
      match KeyIndex(rows, k)
      case None => rows + [row]
      case Some(i) => assert rows[i := row][i] == row; rows[i := row]
  }

  /** Upsert keeps the PRIMARY KEY constraint. */
  lemma UpsertPreservesUniqueKeys(rows: seq<ClientRow>, row: ClientRow)
    requires UniqueKeys(rows)
    ensures UniqueKeys(Upserted(rows, row))
  {
  }

  /**
   * After the upsert the key names exactly one row, and that row holds
   * the new payload in every column: nothing of an older report survives.
   */
  lemma UpsertLeavesOneRowForKey(rows: seq<ClientRow>, row: ClientRow, k: string)
    requires UniqueKeys(rows)
    requires row.clientId == Some(k)
    ensures Lookup(Upserted(rows, row), k) == Some(row)
    ensures forall i :: 0 <= i < |Upserted(rows, row)| && Upserted(rows, row)[i].clientId == Some(k) ==>
      Upserted(rows, row)[i] == row
    ensures forall i, j :: 0 <= i < j < |Upserted(rows, row)| ==>
      Upserted(rows, row)[i].clientId != Some(k) || Upserted(rows, row)[j].clientId != Some(k)
  {
    UpsertPreservesUniqueKeys(rows, row);
    var u := Upserted(rows, row);
    match KeyIndex(rows, k)
    case None =>
      assert u == rows + [row];
      KeyIndexIsFirst(u, k, |rows|);
    case Some(i) =>
      assert u == rows[i := row];
      KeyIndexIsFirst(u, k, i);
  }

  /**
   * Every row with another key (and every row with a NULL key) keeps its
   * place and its content; the table grows by one row exactly when the
   * key was new or NULL.
   */
  lemma UpsertKeepsOtherRows(rows: seq<ClientRow>, row: ClientRow)
    ensures |Upserted(rows, row)| ==
      if row.clientId.Some? && Lookup(rows, row.clientId.value).Some? then |rows| else |rows| + 1
    ensures forall i :: 0 <= i < |rows| && (row.clientId.None? || rows[i].clientId != row.clientId) ==>
      Upserted(rows, row)[i] == rows[i]
    ensures forall k :: row.clientId != Some(k) ==> Lookup(Upserted(rows, row), k) == Lookup(rows, k)
  {
    var u := Upserted(rows, row);
    forall k | row.clientId != Some(k)
      ensures Lookup(u, k) == Lookup(rows, k)
    {
      assert forall i :: 0 <= i < |rows| ==> (u[i].clientId == Some(k) <==> rows[i].clientId == Some(k));
      assert |u| > |rows| ==> u[|rows|].clientId != Some(k);
      match KeyIndex(rows, k)
      case None =>
        assert KeyIndex(u, k).None?;
      case Some(i) =>
        KeyIndexIsFirst(u, k, i);
    }
  }

  /**
   * The most recent report wins: upserting `r1` and then `r2` under the
   * same key leaves the table as upserting `r2` alone would.
   */
  lemma LastReportWins(rows: seq<ClientRow>, r1: ClientRow, r2: ClientRow)
    requires r1.clientId.Some? && r1.clientId == r2.clientId
    ensures Upserted(Upserted(rows, r1), r2) == Upserted(rows, r2)
  {
    var k := r1.clientId.value;
    var u := Upserted(rows, r1);
    match KeyIndex(rows, k)
    case None =>
      assert u == rows + [r1];
      KeyIndexIsFirst(u, k, |rows|);
    case Some(i) =>
      assert u == rows[i := r1];
      KeyIndexIsFirst(u, k, i);
  }

  /** Repeating a report changes nothing. */
  lemma UpsertIdempotent(rows: seq<ClientRow>, row: ClientRow)
    requires row.clientId.Some?
    ensures Upserted(Upserted(rows, row), row) == Upserted(rows, row)
  {
    LastReportWins(rows, row, row);
  }

  // ----- SELECT * FROM clients ORDER BY last_seen DESC

  /**
   * `a` may come before `b` under ORDER BY last_seen DESC: NULL sorts
   * below every text, so NULLs come last; texts by the BINARY collation,
   * greatest first.
   */
  predicate NewerOrEqual(a: ClientRow, b: ClientRow)
    ensures a.lastSeen == b.lastSeen ==> NewerOrEqual(a, b)
    ensures a.lastSeen.None? && b.lastSeen.Some? ==> !NewerOrEqual(a, b)
    ensures b.lastSeen.None? ==> NewerOrEqual(a, b)
  {
    match b.lastSeen
    case None => true
    case Some(y) =>
      a.lastSeen.Some? && TextLe(y, a.lastSeen.value)
  }

  lemma NewerOrEqualTotal(a: ClientRow, b: ClientRow)
    ensures NewerOrEqual(a, b) || NewerOrEqual(b, a)
  {
    if a.lastSeen.Some? && b.lastSeen.Some? {
      TextLeTotal(a.lastSeen.value, b.lastSeen.value);
    }
  }

  lemma NewerOrEqualTransitive(a: ClientRow, b: ClientRow, c: ClientRow)
    requires NewerOrEqual(a, b) && NewerOrEqual(b, c)
    ensures NewerOrEqual(a, c)
  {
    if c.lastSeen.Some? {
      TextLeTransitive(c.lastSeen.value, b.lastSeen.value, a.lastSeen.value);
    }
  }

  ghost predicate SortedByLastSeenDesc(s: seq<ClientRow>) {
    forall i, j :: 0 <= i < j < |s| ==> NewerOrEqual(s[i], s[j])
  }

  /** A row at or after every row of `s` heads any sorted list that follows it. */
  lemma PrependSorted(x: ClientRow, s: seq<ClientRow>)
    requires SortedByLastSeenDesc(s)
    requires forall y :: y in multiset(s) ==> NewerOrEqual(x, y)
    ensures SortedByLastSeenDesc([x] + s)
  {
    forall j | 0 <= j < |s| ensures NewerOrEqual(x, s[j]) {
      assert s[j] in multiset(s);
    }
  }

  /** Inserts `x` into a list sorted by `last_seen` descending. */
  function InsertByLastSeen(x: ClientRow, s: seq<ClientRow>): (r: seq<ClientRow>)
    requires SortedByLastSeenDesc(s)
    ensures SortedByLastSeenDesc(r)
    ensures multiset(r) == multiset(s) + multiset{x}
    decreases |s|
  {
    if s == [] then [x]
    else if NewerOrEqual(x, s[0]) then
      assert s == [s[0]] + s[1..];
      HeadDominates(x, s);
      PrependSorted(x, s);
      [x] + s
    else
      assert s == [s[0]] + s[1..];
      NewerOrEqualTotal(x, s[0]);
      var t := InsertByLastSeen(x, s[1..]);
      HeadDominates(s[0], s[1..]);
      PrependSorted(s[0], t);
      [s[0]] + t
  }

  /** In a sorted list, the head is at or after every row that follows. */
  lemma HeadDominates(x: ClientRow, s: seq<ClientRow>)
    requires SortedByLastSeenDesc(s)
    requires s != [] ==> NewerOrEqual(x, s[0])
    ensures forall y :: y in multiset(s) ==> NewerOrEqual(x, y)
  {
    forall y | y in multiset(s) ensures NewerOrEqual(x, y) {
      var j :| 0 <= j < |s| && s[j] == y;
      if j > 0 { NewerOrEqualTransitive(x, s[0], s[j]); }
    }
  }

  /**
   * The result of `get_all_clients`: the whole table, as a permutation,
   * ordered by `last_seen` descending. Ties are left in an order the
   * model does not promise.
   */
  function SortByLastSeenDesc(rows: seq<ClientRow>): (r: seq<ClientRow>)
    ensures SortedByLastSeenDesc(r)
    ensures multiset(r) == multiset(rows)
    decreases |rows|
  {
    if rows == [] then []
    else
      assert rows == [rows[0]] + rows[1..];
      InsertByLastSeen(rows[0], SortByLastSeenDesc(rows[1..]))
  }

  /**
   * A row seen strictly later comes strictly earlier in any list sorted
   * by `last_seen` descending, whatever the tie-breaking.
   */
  lemma LaterSeenListedFirst(s: seq<ClientRow>, i: int, j: int)
    requires SortedByLastSeenDesc(s)
    requires 0 <= i < |s| && 0 <= j < |s|
    requires s[i].lastSeen.Some? && s[j].lastSeen.Some?
    requires TextLe(s[j].lastSeen.value, s[i].lastSeen.value) && s[i].lastSeen != s[j].lastSeen
    ensures i < j
  {
    if j < i {
      TextLeAntisymmetric(s[j].lastSeen.value, s[i].lastSeen.value);
    }
  }
}
