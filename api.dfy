/**
 * The HTTP handlers of `api.py` and the dashboard of `app.py`, reduced to
 * what they do to the store. The clock is a parameter: `now` is the text
 * of the current time, as `datetime.utcnow().isoformat()` gives it.
 */
module Api {
  import opened Wrappers
  import opened JsonValue
  import opened Sqlite
  import opened ClientTable
  import opened CommandTable
  import opened Models

  /**
   * POST /api/status: stamp `last_seen` with `now`, then upsert. There is
   * no check on `client_id`: a report without one adds a row keyed NULL.
   */
  method ReportStatus(db: Database, data: Payload, now: string, dumps: Json -> string)
    returns (res: Outcome<StoreError>)
    requires db.Valid()
    modifies db`clients
    ensures db.Valid()
    ensures var row := ClientRowOf(data["last_seen" := Str(now)], dumps);
      && (res.Pass? <==> db.hasClients && row.Success?)
      && (res.Pass? ==> db.clients == Upserted(old(db.clients), row.value))
      && (res.Fail? ==> db.clients == old(db.clients))
    ensures res.Pass? && BindText(Get(data, "client_id")).value.Some? ==>
      var k := BindText(Get(data, "client_id")).value.value;
      Lookup(db.clients, k).Some? && Lookup(db.clients, k).value.lastSeen == Some(now)
  {
    var stamped := data["last_seen" := Str(now)];
    assert Get(stamped, "client_id") == Get(data, "client_id");
    res := db.UpsertClient(stamped, dumps);
    if res.Pass? && BindText(Get(data, "client_id")).value.Some? {
      var row := ClientRowOf(stamped, dumps).value;
      UpsertLeavesOneRowForKey(old(db.clients), row, row.clientId.value);
    }
  }

  /**
   * POST /api/command: queue `cmd` with `args` for `client_id`. Neither
   * field is checked: one that is missing is queued as NULL.
   */
  method Enqueue(db: Database, data: Payload, now: string) returns (res: Outcome<StoreError>)
    requires db.Valid()
    modifies db`commands, db`nextId
    ensures db.Valid()
    ensures res.Pass? <==>
      && db.hasCommands && old(db.nextId) <= MaxInteger
      && Bindable(Get(data, "client_id")) && Bindable(Get(data, "cmd")) && Bindable(Get(data, "args"))
    ensures res.Pass? ==>
      && db.commands == old(db.commands) + [CommandRow(old(db.nextId), BindText(Get(data, "client_id")).value,
                                                       BindText(Get(data, "cmd")).value,
                                                       BindText(Get(data, "args")).value, 0, Some(now))]
      && ("cmd" !in data ==> db.commands[|old(db.commands)|].cmd == None)
      && ("args" !in data ==> db.commands[|old(db.commands)|].args == None)
      && db.nextId == old(db.nextId) + 1
      && forall i :: 0 <= i < |old(db.commands)| ==> old(db.commands)[i].id < db.commands[|db.commands| - 1].id
    ensures res.Fail? ==> db.commands == old(db.commands) && db.nextId == old(db.nextId)
    ensures !db.hasCommands ==> res == Fail(NoSuchTable("commands"))
    ensures db.hasCommands && !Bindable(Get(data, "client_id")) ==>
      res == Fail(BindFailed(BindText(Get(data, "client_id")).error))
    ensures (db.hasCommands && old(db.nextId) > MaxInteger
             && Bindable(Get(data, "client_id")) && Bindable(Get(data, "cmd")) && Bindable(Get(data, "args")))
      ==> res == Fail(DatabaseFull)
  {
    res := db.AddCommand(Get(data, "client_id"), Get(data, "cmd"), Get(data, "args"), now);
  }

  /**
   * Queue "reboot" for "c1" on a freshly initialised store, then poll
   * for "c1": the one pending entry is that command.
   */
  method EnqueueThenPoll() {
    var db := new Database.Open();
    db.InitDb();
    var data := map["client_id" := Str("c1"), "cmd" := Str("reboot")];
    assert Get(data, "args") == Null;
    var res := Enqueue(db, data, "2024-01-01 00:00:00");
    assert res.Pass?;
    var polled := db.GetPendingCommands(Some("c1"));
    var queued := CommandRow(1, Some("c1"), Some("reboot"), None, 0, Some("2024-01-01 00:00:00"));
    assert db.commands == [] + [queued];
    PendingOfAppend([], queued, Some("c1"));
    assert IsPendingFor(queued, Some("c1"));
    assert PendingOf(db.commands, Some("c1")) == [Project(queued)];
    assert db.hasCommands;
    assert polled == Success([PendingCommand(1, Some("reboot"), None)]);
  }

  /**
   * Two reports from the same client leave one row, holding the second
   * report; its hostname is gone when the second report has none.
   */
  method ReportTwice(dumps: Json -> string) {
    var db := new Database.Open();
    db.InitDb();
    var first := map["client_id" := Str("agent1"), "hostname" := Str("h1")];
    var second := map["client_id" := Str("agent1")];
    var r1 := ReportStatus(db, first, "2024-01-01T00:00:00", dumps);
    var r2 := ReportStatus(db, second, "2024-02-01T00:00:00", dumps);
    assert r2.Pass?;
    var row2 := ClientRowOf(second["last_seen" := Str("2024-02-01T00:00:00")], dumps).value;
    assert row2.hostname == None;
    assert |db.clients| == 1;
    assert db.clients[0] == row2;
  }

  lemma FebruaryAfterJanuary()
    ensures TextLe("2024-01-01T00:00:00", "2024-02-01T00:00:00")
    ensures "2024-01-01T00:00:00" != "2024-02-01T00:00:00"
  {
    var p := "2024-0";
    assert "2024-01-01T00:00:00" == p + "1-01T00:00:00";
    assert "2024-02-01T00:00:00" == p + "2-01T00:00:00";
    TextLeCommonPrefix(p, "1-01T00:00:00", "2-01T00:00:00");
    assert "2024-01-01T00:00:00"[6] != "2024-02-01T00:00:00"[6];
  }

  /**
   * The dashboard's order: a client seen 2024-02-01 is
   * listed before one seen 2024-01-01, in whatever order the table holds
   * them.
   */
  lemma DashboardListsNewerFirst(rows: seq<ClientRow>, older: ClientRow, newer: ClientRow)
    requires older.lastSeen == Some("2024-01-01T00:00:00")
    requires newer.lastSeen == Some("2024-02-01T00:00:00")
    ensures var listed := SortByLastSeenDesc(rows);
      forall i, j :: 0 <= i < |listed| && 0 <= j < |listed| && listed[i] == newer && listed[j] == older ==> i < j
  {
    var listed := SortByLastSeenDesc(rows);
    FebruaryAfterJanuary();
    forall i, j | 0 <= i < |listed| && 0 <= j < |listed| && listed[i] == newer && listed[j] == older
      ensures i < j
    {
      LaterSeenListedFirst(listed, i, j);
    }
  }
}
