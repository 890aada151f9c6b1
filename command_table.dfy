/**
 * The `commands` table as a value: append-only rows with increasing ids,
 * and the pending-commands query `get_pending_commands` runs on it.
 */
module CommandTable {
  import opened Wrappers
  import opened Sqlite

  /** One row of `commands`. `executed` is an INTEGER that defaults to 0. */
  datatype CommandRow = CommandRow(
    id: int,
    clientId: Cell,
    cmd: Cell,
    args: Cell,
    executed: int,
    timestamp: Cell)

  /** A row of the pending-commands query: the columns `id, cmd, args`. */
  datatype PendingCommand = PendingCommand(id: int, cmd: Cell, args: Cell)

  function Project(r: CommandRow): PendingCommand {
    PendingCommand(r.id, r.cmd, r.args)
  }

  /** Ids strictly increase along the table: rows are only ever appended. */
  ghost predicate IdsIncreasing(rows: seq<CommandRow>) {
    forall i, j :: 0 <= i < j < |rows| ==> rows[i].id < rows[j].id
  }

  ghost predicate PendingIdsIncreasing(ps: seq<PendingCommand>) {
    forall i, j :: 0 <= i < j < |ps| ==> ps[i].id < ps[j].id
  }

  /**
   * `WHERE client_id = ? AND executed = 0`. Comparing with a NULL
   * parameter is never true, nor is comparing a NULL column.
   */
  predicate IsPendingFor(r: CommandRow, cid: Option<string>)
    ensures cid.None? || r.clientId.None? ==> !IsPendingFor(r, cid)
  {
    cid.Some? && r.clientId == cid && r.executed == 0
  }

  /** `SELECT id, cmd, args FROM commands WHERE client_id = ? AND executed = 0`, in table order. */
  function PendingOf(rows: seq<CommandRow>, cid: Option<string>): (r: seq<PendingCommand>)
    ensures |r| <= |rows|
    ensures cid.None? ==> r == []
    decreases |rows|
  {
    if rows == [] then []
    else (if IsPendingFor(rows[0], cid) then [Project(rows[0])] else []) + PendingOf(rows[1..], cid)
  }

  /**
   * The query returns exactly the matching rows: each entry is the
   * projection of a pending row for `cid`, and each pending row for `cid`
   * is in the result.
   */
  lemma {:induction false} PendingOfExact(rows: seq<CommandRow>, cid: Option<string>)
    ensures forall p :: p in PendingOf(rows, cid) ==>
      exists i :: 0 <= i < |rows| && IsPendingFor(rows[i], cid) && Project(rows[i]) == p
    ensures forall i :: 0 <= i < |rows| && IsPendingFor(rows[i], cid) ==> Project(rows[i]) in PendingOf(rows, cid)
    decreases |rows|
  {
    if rows != [] {
      PendingOfExact(rows[1..], cid);
      var head := if IsPendingFor(rows[0], cid) then [Project(rows[0])] else [];
      assert PendingOf(rows, cid) == head + PendingOf(rows[1..], cid);
      forall p | p in PendingOf(rows, cid)
        ensures exists i :: 0 <= i < |rows| && IsPendingFor(rows[i], cid) && Project(rows[i]) == p
      {
        if p in head {
          assert IsPendingFor(rows[0], cid) && Project(rows[0]) == p;
        } else {
          var i :| 0 <= i < |rows[1..]| && IsPendingFor(rows[1..][i], cid) && Project(rows[1..][i]) == p;
          assert rows[i + 1] == rows[1..][i];
        }
      }
      forall i | 0 <= i < |rows| && IsPendingFor(rows[i], cid)
        ensures Project(rows[i]) in PendingOf(rows, cid)
      {
        if i > 0 { assert rows[i] == rows[1..][i - 1]; }
      }
    }
  }

  /** No row is listed twice: the ids of the result increase, as the table's do. */
  lemma {:induction false} PendingOfNoDuplicates(rows: seq<CommandRow>, cid: Option<string>)
    requires IdsIncreasing(rows)
    ensures PendingIdsIncreasing(PendingOf(rows, cid))
    decreases |rows|
  {
    if rows != [] {
      PendingOfNoDuplicates(rows[1..], cid);
      PendingOfExact(rows[1..], cid);
      var tail := PendingOf(rows[1..], cid);
      forall k | 0 <= k < |tail| ensures rows[0].id < tail[k].id {
        assert tail[k] in tail;
        var i :| 0 <= i < |rows[1..]| && IsPendingFor(rows[1..][i], cid) && Project(rows[1..][i]) == tail[k];
        assert rows[1..][i] == rows[i + 1];
      }
    }
  }

  /**
   * Polling with no client id, or with one no row carries, gives the
   * empty list and not an error.
   */
  lemma {:induction false} NoPendingForUnknownClient(rows: seq<CommandRow>, cid: Option<string>)
    ensures (cid.None? || forall i :: 0 <= i < |rows| ==> rows[i].clientId != cid) ==> PendingOf(rows, cid) == []
    decreases |rows|
  {
    if rows != [] && (cid.None? || forall i :: 0 <= i < |rows| ==> rows[i].clientId != cid) {
      NoPendingForUnknownClient(rows[1..], cid);
      assert !IsPendingFor(rows[0], cid);
    }
  }

  /** Appending a row extends the result of the query by that row, if it matches. */
  lemma {:induction false} PendingOfAppend(rows: seq<CommandRow>, row: CommandRow, cid: Option<string>)
    ensures PendingOf(rows + [row], cid) ==
      PendingOf(rows, cid) + (if IsPendingFor(row, cid) then [Project(row)] else [])
    decreases |rows|
  {
    var t := if IsPendingFor(row, cid) then [Project(row)] else [];
    if rows == [] {
      assert rows + [row] == [row];
      assert PendingOf([row], cid) == t + PendingOf([], cid);
    } else {
      var s := rows + [row];
      assert s[0] == rows[0] && s[1..] == rows[1..] + [row];
      PendingOfAppend(rows[1..], row, cid);
      var h := if IsPendingFor(rows[0], cid) then [Project(rows[0])] else [];
      calc {
        PendingOf(s, cid);
        h + PendingOf(rows[1..] + [row], cid);
        h + (PendingOf(rows[1..], cid) + t);
        (h + PendingOf(rows[1..], cid)) + t;
        PendingOf(rows, cid) + t;
      }
    }
  }

  /** No row is ever marked executed. */
  ghost predicate NoneExecuted(rows: seq<CommandRow>) {
    forall i :: 0 <= i < |rows| ==> rows[i].executed == 0
  }

  /**
   * With nothing marked executed, every command ever queued for a client
   * stays in its pending list: the list never drains.
   */
  lemma NeverDrains(rows: seq<CommandRow>, c: string)
    requires NoneExecuted(rows)
    ensures forall i :: 0 <= i < |rows| && rows[i].clientId == Some(c) ==> Project(rows[i]) in PendingOf(rows, Some(c))
  {
    PendingOfExact(rows, Some(c));
  }
}
