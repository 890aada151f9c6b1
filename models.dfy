/**
 * The store of `models.py`: one database holding the `clients` and
 * `commands` tables, with the five operations the web layer calls.
 */
module Models {
  import opened Wrappers
  import opened JsonValue
  import opened Sqlite
  import opened ClientTable
  import opened CommandTable

  /** How a statement on the store fails. */
  datatype StoreError =
    | NoSuchTable(table: string)   // the table was never created: init_db has not run
    | BindFailed(reason: BindError)
    | DatabaseFull                 // AUTOINCREMENT has already handed out the largest row id

  class Database {
    var hasClients: bool         // CREATE TABLE clients has run
    var hasCommands: bool        // CREATE TABLE commands has run
    var clients: seq<ClientRow>
    var commands: seq<CommandRow>
    var nextId: int              // one more than the row id AUTOINCREMENT last handed out

    ghost predicate Valid()
      reads this
    {
      && (!hasClients ==> clients == [])
      && (!hasCommands ==> commands == [] && nextId == 1)
      && UniqueKeys(clients)
      && 1 <= nextId <= MaxInteger + 1
      && IdsIncreasing(commands)
      && (forall i :: 0 <= i < |commands| ==> 1 <= commands[i].id < nextId)
      && NoneExecuted(commands)
    }

    /** A fresh database file, holding no tables yet. */
    constructor Open()
      ensures Valid()
      ensures !hasClients && !hasCommands && clients == [] && commands == [] && nextId == 1
    {
      hasClients, hasCommands := false, false;
      clients, commands := [], [];
      nextId := 1;
    }

    /**
     * `init_db`: CREATE TABLE IF NOT EXISTS for both tables. Both exist
     * afterwards and no row changes, so running it again, or on a store
     * that already holds data, is harmless.
     */
    method InitDb()
      requires Valid()
      modifies this`hasClients, this`hasCommands
      ensures Valid() && hasClients && hasCommands
      ensures clients == old(clients) && commands == old(commands) && nextId == old(nextId)
    {
      hasClients := true;
      hasCommands := true;
    }

    /**
     * `upsert_client(data)`: insert the payload's row, or on a clash of
     * `client_id` overwrite every other column of the existing row.
     * `dumps` is the JSON serialiser applied to `modules` and `info`.
     */
    method UpsertClient(data: Payload, dumps: Json -> string) returns (res: Outcome<StoreError>)
      requires Valid()
      modifies this`clients
      ensures Valid()
      ensures !hasClients ==> res == Fail(NoSuchTable("clients")) && clients == old(clients)
      ensures hasClients && ClientRowOf(data, dumps).Failure? ==>
        res == Fail(BindFailed(ClientRowOf(data, dumps).error)) && clients == old(clients)
      ensures hasClients && ClientRowOf(data, dumps).Success? ==>
        res == Pass && clients == Upserted(old(clients), ClientRowOf(data, dumps).value)
    {
      if !hasClients {
        return Fail(NoSuchTable("clients"));
      }
      var row := ClientRowOf(data, dumps);
      if row.Failure? {
        return Fail(BindFailed(row.error));
      }
      UpsertPreservesUniqueKeys(clients, row.value);
      clients := Upserted(clients, row.value);
      res := Pass;
    }

    /**
     * `get_all_clients`: every row of `clients`, each once, newest
     * `last_seen` first. A query: it reads the store and changes nothing.
     */
    function GetAllClients(): (r: Result<seq<ClientRow>, StoreError>)
      reads this
      ensures r.Failure? <==> !hasClients
      ensures r.Failure? ==> r.error == NoSuchTable("clients")
      ensures r.Success? ==> multiset(r.value) == multiset(clients) && SortedByLastSeenDesc(r.value)
    {
      if !hasClients then Failure(NoSuchTable("clients")) else Success(SortByLastSeenDesc(clients))
    }

    /**
     * `get_pending_commands(client_id)`: the `(id, cmd, args)` of every
     * row queued for `cid` and not executed, each once. A query: it reads
     * the store and changes nothing, so two polls in a row agree.
     */
    function GetPendingCommands(cid: Option<string>): (r: Result<seq<PendingCommand>, StoreError>)
      requires Valid()
      reads this
      ensures r.Failure? <==> !hasCommands
      ensures r.Failure? ==> r.error == NoSuchTable("commands")
      ensures r.Success? ==> forall p :: p in r.value <==>
        exists i :: 0 <= i < |commands| && IsPendingFor(commands[i], cid) && Project(commands[i]) == p
      ensures r.Success? ==> PendingIdsIncreasing(r.value)
      ensures r.Success? && (cid.None? || forall i :: 0 <= i < |commands| ==> commands[i].clientId != cid) ==>
        r.value == []
    {
      if !hasCommands then Failure(NoSuchTable("commands"))
      else
        PendingOfExact(commands, cid);
        PendingOfNoDuplicates(commands, cid);
        NoPendingForUnknownClient(commands, cid);
        Success(PendingOf(commands, cid))
    }

    /**
     * `add_command(client_id, cmd, args)`: append one row, not executed,
     * stamped `now`, under the next AUTOINCREMENT id, which is larger
     * than every id in the table. Nothing else in the store changes.
     */
    method AddCommand(clientId: Json, cmd: Json, args: Json, now: string) returns (res: Outcome<StoreError>)
      requires Valid()
      modifies this`commands, this`nextId
      ensures Valid()
      ensures res.Pass? <==>
        hasCommands && Bindable(clientId) && Bindable(cmd) && Bindable(args) && old(nextId) <= MaxInteger
      ensures res.Pass? ==>
        && commands == old(commands) + [CommandRow(old(nextId), BindText(clientId).value, BindText(cmd).value,
                                                   BindText(args).value, 0, Some(now))]
        && nextId == old(nextId) + 1
        && forall i :: 0 <= i < |old(commands)| ==> old(commands)[i].id < commands[|commands| - 1].id
      ensures res.Fail? ==> commands == old(commands) && nextId == old(nextId)
      ensures !hasCommands ==> res == Fail(NoSuchTable("commands"))
      ensures hasCommands && !Bindable(clientId) ==> res == Fail(BindFailed(BindText(clientId).error))
      ensures hasCommands && Bindable(clientId) && Bindable(cmd) && Bindable(args) && old(nextId) > MaxInteger ==>
        res == Fail(DatabaseFull)
    {
      if !hasCommands {
        return Fail(NoSuchTable("commands"));
      }
      var c := BindText(clientId);
      if c.Failure? { return Fail(BindFailed(c.error)); }
      var m := BindText(cmd);
      if m.Failure? { return Fail(BindFailed(m.error)); }
      var a := BindText(args);
      if a.Failure? { return Fail(BindFailed(a.error)); }
      if nextId > MaxInteger {
        return Fail(DatabaseFull);
      }
      commands := commands + [CommandRow(nextId, c.value, m.value, a.value, 0, Some(now))];
      nextId := nextId + 1;
      res := Pass;
    }
  }
}
