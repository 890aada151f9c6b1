# aet-dashboard store, modelled in Dafny

The aet-dashboard backend lets remote agents report their status and poll
for commands, and lets an operator queue commands for an agent. All of its
logic is the two-table SQLite store in `models.py`: the `clients` table
(one row per `client_id`, overwritten by every status report) and the
append-only `commands` table (AUTOINCREMENT ids, an `executed` flag that
defaults to 0 and is never set). This project models that store as an
in-memory database object and proves what its SQL promises.

- `wrappers.dfy` (`Wrappers`): Option, Result and Outcome.
- `json_value.dfy` (`JsonValue`): the decoded JSON request body and `dict.get`.
- `sqlite.dfy` (`Sqlite`): what a Python value becomes when bound to a
  TEXT column (NULL, text, decimal text of an int or bool, or a binding
  error for a list, a dict or an int outside 64 bits), and the BINARY
  collation that `ORDER BY last_seen` uses.
- `client_table.dfy` (`ClientTable`): client rows, the row a status
  payload produces, `INSERT … ON CONFLICT(client_id) DO UPDATE` as a
  function on the table, and `ORDER BY last_seen DESC` as an insertion sort.
- `command_table.dfy` (`CommandTable`): command rows and the pending
  query `WHERE client_id=? AND executed=0`.
- `models.dfy` (`Models`): the class `Database` with both tables as fields,
  `InitDb`, `UpsertClient` and `AddCommand` as methods that change them,
  and `GetAllClients` and `GetPendingCommands` as functions that only read.
- `api.dfy` (`Api`): the `/api/status` and `/api/command` handlers with
  the clock as a parameter, and worked examples.

The clients table is a sequence of rows in row id order, with the PRIMARY
KEY as an invariant over the non-NULL keys. This keeps a SQLite behaviour
that a map keyed by `client_id` would hide: a TEXT primary key of a rowid
table may be NULL, NULLs never conflict, so a status report without a
`client_id` appends a new NULL-keyed row every time. A NULL parameter in
`client_id = ?` matches no row, so polling without a client id returns the
empty list.

Tables exist only once `init_db` has run; before that every statement
fails with "no such table", which the model returns as
`NoSuchTable`. Statement preparation fails before any parameter is bound,
and parameters are bound in order, so the first unbindable one names the
error. JSON serialisation (`json.dumps`) is a parameter `dumps` of the
upsert. The model only uses the fact that `json.dumps(None)` is `"null"`,
and only where a contract says so.

The enqueue handler (`api.py:21-28`) validates nothing: a missing `cmd` or
`client_id` is queued as NULL and not rejected.

## Model

| member | source | states |
|---|---|---|
| Sqlite.BindText | models.py:46-54 | None binds to NULL and nothing else does; a str is stored unchanged; a list or dict, or an int outside the 64-bit range, fails to bind, and every other value binds; an int or bool is stored as a text that reads back as that integer (True as 1) |
| Sqlite.IntTextRoundTrip | models.py:11-18 | the decimal text that TEXT affinity stores for an integer parses back to that integer |
| Sqlite.IntTextInjective | models.py:12 | two distinct integer client ids are stored as distinct keys |
| Sqlite.TextLeTotal | models.py:60 | any two texts are comparable under the BINARY collation |
| Sqlite.TextLeTransitive | models.py:60 | the BINARY collation is transitive |
| Sqlite.TextLeAntisymmetric | models.py:60 | two texts that each sort at or before the other are equal |
| Sqlite.TextLeCommonPrefix | models.py:60 | texts with a common prefix compare as their remainders do |
| ClientTable.ClientRowOf | models.py:46-54 | the proposed row exists iff the five plain columns bind; each of them holds the bound payload value, NULL when the key is absent; `modules` and `info` always hold the serialisation, never NULL, which is the text "null" for an absent value when the serialiser writes None as "null"; a bad `client_id` names the error |
| Sqlite.TextLe | models.py:60 | the BINARY collation: texts compare character by character, which for UTF-8 is memcmp of the bytes; a prefix (the text itself included) sorts at or before, so the order is reflexive |
| ClientTable.Lookup | models.py:12 | the row holding key k, if any; none exactly when no row has that key |
| ClientTable.Upserted | models.py:36-45 | the upsert as a function on the table: a row with the same non-NULL key is overwritten in every column; otherwise the row is appended, and a NULL key never conflicts and is always appended; the new row is always in the table, which grows by at most one row |
| ClientTable.NewerOrEqual | models.py:60 | the order of ORDER BY last_seen DESC: greater texts first under the BINARY collation, equal values in either order, NULL after every text |
| CommandTable.IsPendingFor | models.py:67 | the WHERE clause client_id=? AND executed=0: a NULL parameter or a NULL column matches nothing |
| CommandTable.PendingOf | models.py:65-69 | the pending query on the table: at most one entry per row, and none for a NULL client id |
| ClientTable.KeyIndex | models.py:12 | finds the first row with a given key, and finds none exactly when no row has it |
| ClientTable.KeyIndexIsFirst | models.py:12 | a row with the key and no earlier such row is the one the lookup finds |
| ClientTable.UpsertPreservesUniqueKeys | models.py:36-45 | the upsert keeps the PRIMARY KEY constraint: no two rows share a non-NULL key |
| ClientTable.UpsertLeavesOneRowForKey | models.py:36-45 | after the upsert exactly one row has the key, and it equals the new row in every column |
| ClientTable.UpsertKeepsOtherRows | models.py:36-45 | rows with other keys and NULL-keyed rows keep their place and content; lookups of other keys are unchanged; the table grows by one exactly when the key was new or NULL |
| ClientTable.LastReportWins | models.py:39-45 | upserting r1 then r2 under one key equals upserting r2 alone: no field of r1 survives, an absent field included |
| ClientTable.UpsertIdempotent | models.py:36-45 | repeating a report with a non-NULL `client_id` leaves the table as one report did |
| ClientTable.NewerOrEqualTotal | models.py:60 | any two client rows are ordered one way or the other by `last_seen DESC` |
| ClientTable.NewerOrEqualTransitive | models.py:60 | the `last_seen DESC` order is transitive, NULLs last |
| ClientTable.InsertByLastSeen | models.py:60 | inserting a row into a list sorted by `last_seen DESC` gives a sorted list with that row added |
| ClientTable.SortByLastSeenDesc | models.py:60 | the result is a permutation of the table and sorted by `last_seen` descending, NULLs last |
| ClientTable.LaterSeenListedFirst | models.py:60 | in any such sorted list a row seen strictly later stands strictly earlier |
| CommandTable.PendingOfExact | models.py:65-69 | every entry of the pending query is the `(id, cmd, args)` of a row for the client with `executed = 0`, and every such row appears |
| CommandTable.PendingOfNoDuplicates | models.py:65-69 | with ids increasing in the table, the result's ids increase, so no row is listed twice |
| CommandTable.NoPendingForUnknownClient | models.py:67 | a NULL client id, or one no row carries, gives the empty list |
| CommandTable.PendingOfAppend | models.py:65-77 | appending a command extends the pending list of its client by that command and leaves every other client's list unchanged |
| CommandTable.NeverDrains | models.py:67 | while nothing is marked executed, every command queued for a client stays in its pending list |
| Models.Database.Open | models.py:8 | a new database file holds no table and no row, and the next AUTOINCREMENT id is 1 |
| Models.Database.InitDb | models.py:6-31 | both tables exist afterwards and no row and no id counter changes, so repeating it, or running it on a populated store, is harmless |
| Models.Database.UpsertClient | models.py:33-55 | fails with "no such table" before `init_db`, with the binding error when a column cannot bind, both leaving the table unchanged; otherwise the table becomes the upsert of the payload's row; the key invariant is kept |
| Models.Database.GetAllClients | models.py:57-60 | every client row, as a permutation of the table, with `last_seen` non-increasing; a query that reads the store and cannot change it |
| Models.Database.GetPendingCommands | models.py:62-69 | exactly the `(id, cmd, args)` of the client's rows with `executed = 0`, each once, in ascending id order (the order of SQLite's row id scan); empty for a NULL or unknown client id; a query that reads the store and cannot change it |
| Models.Database.AddCommand | models.py:71-78 | succeeds iff the table exists, the three values bind and the row id space is not exhausted; then appends one row with the given values, `executed = 0`, the timestamp and an id larger than every existing one, and advances the counter; on failure nothing changes; the clients table is never touched |
| Api.ReportStatus | api.py:8-13 | upserts the payload stamped with the current time; afterwards the reporting client's row carries that `last_seen` |
| Api.Enqueue | api.py:21-28 | queues the payload's `client_id`, `cmd` and `args` without validation: a missing `cmd` or `args` is stored as NULL |
| Api.FebruaryAfterJanuary | models.py:60 | "2024-02-01T00:00:00" sorts strictly after "2024-01-01T00:00:00" |
| Api.DashboardListsNewerFirst | app.py:9-12 | the dashboard lists a client seen 2024-02-01 before one seen 2024-01-01 |

`Api.EnqueueThenPoll` (queue "reboot" for "c1", then poll "c1") and
`Api.ReportTwice` (two reports by one agent leave one row with the second
report's fields) are worked examples that use the contracts above.

## Left out

- Connections, commits and the database file: `DB_PATH`, `os.makedirs` and `sqlite3.connect` (models.py:4, 7) are I/O. The store is one in-memory object. Every operation except `init_db` is one statement, so it is applied whole or not at all. `init_db` runs two `CREATE TABLE IF NOT EXISTS` statements, each committed on its own; once storage errors are left out neither can fail, so `InitDb` creates both tables at once.
- Storage failures such as disk or I/O errors are not modelled. The only failures are a missing table, a parameter that cannot bind, and an exhausted row id space.
- JSON numbers are integers only. A float would bind as REAL and be stored as its text, which is not modelled.
- `json.dumps` is a parameter. Its output is not described, except that None serialises to "null" where a contract says so.
- The clock: `datetime.utcnow().isoformat()` in the status handler and SQLite's `datetime('now')` for a command's `timestamp` are both passed in as the text `now`.
- Flask glue: routing, `request.get_json()`, `jsonify` and the response messages. A request body that is not a JSON object makes the handlers raise, and this is not modelled. The poll handler (api.py:15-19) passes its query argument, a text or None, straight to `GetPendingCommands`, so it has no member of its own.
- The dashboard's HTML template (app.py:129-165) and the `__main__` start-up (app.py:14-16).
- Concurrency between requests.
- Row order where SQL gives none: ties in `last_seen` are broken in no promised order. The pending query has no ORDER BY. The model returns its rows in table order, and `GetPendingCommands` promises ascending ids: this is the order SQLite's scan of `commands` by row id (which `id` is) gives, though SQL itself does not guarantee it.
- Sqlite.BindText: a Python str holding an unpaired surrogate (which `json.loads` accepts, e.g. "\ud800") fails to encode to UTF-8 when bound, so the statement raises; Dafny's `string` cannot hold such a value, so this error path is not modelled.
- Marking a command executed: no code path does it, so `executed` stays 0.
