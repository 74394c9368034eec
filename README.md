# simbot query core in Dafny

simbot is a chat bot. It answers "domain queries": parameterised SQL
statements described in YAML files and run against ODBC databases, with
results cached in memory. This project models the core of that system
and proves what it promises.

- **The query engine** (`executor.dfy`, module `Executor`). It covers:
  - the result cache, with its key format, TTL probe, FIFO eviction at
    1000 entries, and scoped clearing;
  - parameter validation and placeholder binding;
  - the database-name check, connection-string rewrite and connection map;
  - row normalisation: a cell is null, an integer, text, a date-time, or
    any other driver value (float, decimal, bool, date, bytes), which is
    kept as it is and carries the text `str()` gives it;
  - `execute`, the pipeline that runs cache probe, validation, the run and
    the cache store, in that order.

  `QueryExecutor` is a class whose `cache`, `cacheOrder` and
  `dbConnections` fields its methods update. Each method is proved equal to
  a function on the cache state (`Probe`, `Store`, `ClearAll`,
  `ClearScoped`, `Acquire`, `RunSql`, `ExecuteSpec`). Lemmas about those
  functions show that the cache invariant is kept: the insertion order
  holds exactly the cached keys, without repeats, and there are at most
  1000 of them. The ODBC driver is a parameter with three parts: `connect`,
  the liveness probe and `run`. The clock is a parameter giving integer
  seconds.
- **The definition index** (`loader.dfy`, module `Loader`). A directory
  listing is a list of files. Each file is empty, unreadable, or a raw
  definition. Loading folds the files into an insertion-ordered dictionary
  keyed by file stem: enabled definitions are added, and the first failure
  stops the load but keeps what was already added. `QueryLoader` is a class
  whose `queries` field `LoadAllQueries` and `Reload` update.
- **Definition validation and the result envelope** (`models.dfy`, module
  `Models`). This covers the field validators, the defaults, and rejection
  of unknown fields. It also covers `QueryResult`'s `executed_at`
  injection and `to_dict`, and the `ExecutionContext` label.
- **The MCP tool converter** (`converters.dfy`, module `Converters`). It
  covers the reverse group map, the tool name and group, the parameter
  schema, and `convert_all`.
- **The chat-side SQL tool** (`sql_tool.dfy`, module `SqlTool`). It covers:
  - the ASCII table and result text;
  - mention stripping;
  - trigger routing and positional binding of the words after a trigger;
  - the `clear cache`, `queries` and `reload queries` commands.
- **The per-user rate limiter** (`rate_limiter.dfy`), the **tool
  availability** decision (`tool_base.dfy`) and **configuration
  validation** (`config.dfy`).

Supporting modules:

- `Wrappers`: `Option` and `Result`.
- `Text`: ASCII case mapping, `strip`, whitespace `split`, `join`, and
  prefix and substring tests.
- `OrderedDict`: a Python `dict` as an association list that keeps
  insertion order; assigning to an existing key keeps its position.

## Model

| member | source | states |
|---|---|---|
| Executor.CacheKey | src/simbot/sql_tools/executor.py:265-269 | The key starts with the query name followed by ":". |
| Executor.CacheKeyOneParameter | src/simbot/sql_tools/executor.py:265-269 | One parameter gives exactly `name:k=v`, so two different values of one parameter give two different keys. |
| Executor.CacheKeyOrderIndependent | src/simbot/sql_tools/executor.py:265-269 | Two parameter maps with the same items in any insertion order give the same key (the items are sorted). |
| Executor.CacheKeySeparatesQueries | src/simbot/sql_tools/executor.py:265-269 | Distinct query names without ':' never share a key, whatever the parameters. |
| Executor.CacheKeyCollision | src/simbot/sql_tools/executor.py:265-269 | The key is not injective in the parameters: for names `k1 < k2`, `{k1: v1 + "_" + k2 + "=" + v2}` and `{k1: v1, k2: v2}` give the same key. |
| Executor.ScopedToOneQuery | src/simbot/sql_tools/executor.py:328 | A key in one query's scope (prefix `name:`) is not in another query's scope when neither name holds ':'. |
| Executor.Probe | src/simbot/sql_tools/executor.py:271-289 | Hit iff ttl > 0, the key is cached and `now - timestamp < ttl`; a hit returns the entry and changes nothing; an expired key is dropped from both the entries and the order, and nothing else changes. |
| Executor.ProbeKeepsInv | src/simbot/sql_tools/executor.py:271-289 | A probe keeps the cache invariant (order lists exactly the cached keys, no repeats, at most 1000). |
| Executor.ProbeDropsExpired | src/simbot/sql_tools/executor.py:285-288 | An expired entry is gone from both structures after the probe. |
| Executor.Store | src/simbot/sql_tools/executor.py:291-306 | After storing, the key holds the data with the store time. |
| Executor.StoreKeepsInv | src/simbot/sql_tools/executor.py:291-306 | Storing keeps the cache invariant, so the cache never exceeds 1000 entries. |
| Executor.StoreBelowBound | src/simbot/sql_tools/executor.py:291-306 | Below the bound nothing is evicted; the key is appended to the order only when new. |
| Executor.StoreAtBoundEvictsOldest | src/simbot/sql_tools/executor.py:293-303 | At the bound the oldest key is evicted before the store, even when the stored key is already cached; the new order is the rest of the old order, with the key appended unless it is already there. |
| Executor.StoreAtBoundMovesHeadLast | src/simbot/sql_tools/executor.py:293-303 | At the bound, re-storing the oldest key evicts it and appends it again: it moves to the back, and the set of cached keys is unchanged. |
| Executor.StoreAtBoundKeepsPlace | src/simbot/sql_tools/executor.py:293-303 | At the bound, re-storing any other cached key keeps its place; only the oldest key leaves the order. |
| Executor.StoreAllFromEmpty | src/simbot/sql_tools/executor.py:291-306 | Storing up to 1000 distinct keys into an empty cache keeps them all, in insertion order. |
| Executor.FifoEvictsFirstKey | src/simbot/sql_tools/executor.py:291-306 | After 1001 distinct keys the first is gone and the other 1000 remain, in order. |
| Executor.OrderLength | src/simbot/sql_tools/executor.py:40-41 | When the order lists exactly the cached keys without repeats, its length is the cache size. |
| Executor.RemoveFirst | src/simbot/sql_tools/executor.py:287-288 | `list.remove` of a key absent from the order changes nothing; on a repeat-free order it removes exactly that key. |
| Executor.ClearAll | src/simbot/sql_tools/executor.py:320-325 | Clearing everything empties both structures and returns the previous size. |
| Executor.Scope | src/simbot/sql_tools/executor.py:328 | The scope of a query is exactly the cached keys starting with `name:`. |
| Executor.ClearScoped | src/simbot/sql_tools/executor.py:327-335 | Exactly the keys in scope go; the others keep their entries and relative order; the count returned plus the remaining size is the old size. |
| Executor.ClearScopedKeepsInv | src/simbot/sql_tools/executor.py:327-335 | Scoped clearing keeps the cache invariant. |
| Executor.ClearScopedKeepsOtherQueries | src/simbot/sql_tools/executor.py:327-335 | Clearing one query never removes another query's entry. |
| Executor.MissingNames | src/simbot/sql_tools/executor.py:144-145 | The list is empty iff every required parameter is supplied. |
| Executor.MissingNamesMembers | src/simbot/sql_tools/executor.py:144-145 | A name is listed iff some required parameter has it and the caller did not supply it. |
| Executor.MissingNameAt | src/simbot/sql_tools/executor.py:144-145 | Every listed name is declared by a required parameter. |
| Executor.MissingNamesInOrder | src/simbot/sql_tools/executor.py:144-145 | The missing names keep declaration order: of two listed names, the earlier is declared by an earlier required parameter. |
| Executor.ValidateParameters | src/simbot/sql_tools/executor.py:137-150 | None iff every required parameter is supplied; otherwise the message is "Missing required parameters: ", the missing names in declaration order joined by ", ", then ". " and the description, so it names every missing parameter and ends with the description. |
| Executor.MissingMessageNames | src/simbot/sql_tools/executor.py:147-148 | The message starts with "Missing required parameters: ", names every missing parameter, and ends with ". " and the description. |
| Executor.Bind | src/simbot/sql_tools/executor.py:166-184 | Binding succeeds iff the statement has as many '?' as declared parameters; the values are the supplied ones in declaration order, absent ones as None; otherwise the mismatch message. |
| Executor.AllowListAdmitsTrailingNewline | src/simbot/sql_tools/executor.py:222 | The name check as written accepts "db\n", and the rewritten connection string then carries a newline. |
| Executor.AllowListAsWritten | src/simbot/sql_tools/executor.py:222 | `re.match` with `^[a-zA-Z0-9_]+$`: one or more identifier characters, optionally followed by a single final newline. |
| Executor.SafeDatabaseNameIsAllowListWithoutNewline | src/simbot/sql_tools/executor.py:222 | The intended check is the written one restricted to names without a newline. |
| Executor.SafeNameAddsOnlyItself | src/simbot/sql_tools/executor.py:222-237 | A name that passes the intended check adds at most `;Database=<name>`, with no ';', '=' or newline in it. |
| Executor.WithDatabase | src/simbot/sql_tools/executor.py:235-237 | The rewrite only appends; it appends a database key unless the string already names one or the name is empty. |
| Executor.WithDatabaseIdempotent | src/simbot/sql_tools/executor.py:235-237 | Rewriting twice equals rewriting once. |
| Executor.ConnectionString | src/simbot/sql_tools/executor.py:229-233 | The connection string is present iff the variable is set and non-empty. |
| Executor.Acquire | src/simbot/sql_tools/executor.py:207-263 | A bad name or a missing connection string is an error that changes nothing; a live cached connection is reused; otherwise the driver connects with the rewritten string and the new connection is recorded; no other database's connection changes. |
| Executor.Normalise | src/simbot/sql_tools/executor.py:197-200 | Date-time values become their ISO text; every other value, including the other driver types, is unchanged. |
| Executor.RowPairs | src/simbot/sql_tools/executor.py:195-201 | The assignments of one row: each column name with its normalised cell, in column order. |
| Executor.RowOfValid | src/simbot/sql_tools/executor.py:195-201 | A converted row is a dictionary with unique keys. |
| Executor.RowOfKeys | src/simbot/sql_tools/executor.py:195-201 | A name is a key of the row exactly when it is one of the column names. |
| Executor.RowOfLastWins | src/simbot/sql_tools/executor.py:195-201 | With duplicate column names the last column's normalised value wins, as in a dict comprehension. |
| Executor.NormalisedRows | src/simbot/sql_tools/executor.py:193-202 | One row per fetched row. |
| Executor.ConvertRow | src/simbot/sql_tools/executor.py:195-201 | The loop builds exactly `RowOf` over all columns. |
| Executor.ConvertRows | src/simbot/sql_tools/executor.py:193-202 | The loop builds exactly the normalised rows. |
| Executor.RunSql | src/simbot/sql_tools/executor.py:152-205 | No driver is an error; the connection map is the one `Acquire` leaves; success needs both a connection and a binding; a placeholder mismatch after connecting is that error. |
| Executor.DataOf | src/simbot/sql_tools/executor.py:100-101 | An empty result is None, any other is kept. |
| Executor.ExecuteSpec | src/simbot/sql_tools/executor.py:43-135 | Every result carries the correlation id and `executed_at`; success iff no error code; a failure has an error message, no data, and code VALIDATION_ERROR or EXECUTION_ERROR. |
| Executor.ExecuteKeepsInv | src/simbot/sql_tools/executor.py:70-116 | `execute` keeps the cache invariant. |
| Executor.ExecuteHit | src/simbot/sql_tools/executor.py:70-80 | A live entry answers with its data, `from_cache` true and `cached_at`, and leaves cache and connections as they were. |
| Executor.ExecuteMissingParameter | src/simbot/sql_tools/executor.py:82-92 | Without a live entry, a missing required parameter is a VALIDATION_ERROR naming it, and no connection is made. |
| Executor.ExecutePlaceholderMismatch | src/simbot/sql_tools/executor.py:125-135 | A placeholder count that differs from the parameter count is an EXECUTION_ERROR carrying the mismatch message. |
| Executor.ExecuteRunFails | src/simbot/sql_tools/executor.py:125-135 | Without a live entry and with every required parameter supplied, any failure of the run is an EXECUTION_ERROR whose message is "Query execution failed: " and the failure's text, with no data and nothing cached. |
| Executor.ExecuteRunSucceeds | src/simbot/sql_tools/executor.py:94-116 | A successful run answers `rows or None` with `row_count` the number of rows and `from_cache` false, and the answer is cached under the key exactly when the TTL is positive. |
| Executor.ExecuteThenHit | src/simbot/sql_tools/executor.py:70-116 | With a positive TTL, a successful run followed by the same call within the TTL is answered from the cache with the same data. |
| Executor.QueryExecutor.constructor | src/simbot/sql_tools/executor.py:35-41 | Starts with an empty cache, empty order and no connections. |
| Executor.QueryExecutor.CheckCache | src/simbot/sql_tools/executor.py:271-289 | The result and the new cache are those of `Probe`; connections unchanged. |
| Executor.QueryExecutor.CacheResult | src/simbot/sql_tools/executor.py:291-306 | The new cache is that of `Store`; connections unchanged. |
| Executor.QueryExecutor.ClearCache | src/simbot/sql_tools/executor.py:318-335 | Without a name, `ClearAll`; with one, `ClearScoped`; the count returned is theirs. |
| Executor.QueryExecutor.RemoveKeys | src/simbot/sql_tools/executor.py:328-332 | Removes exactly the given keys from the entries and from the order. |
| Executor.QueryExecutor.RemoveKey | src/simbot/sql_tools/executor.py:330-332 | Removes one key from the entries and from the order. |
| Executor.QueryExecutor.GetConnection | src/simbot/sql_tools/executor.py:207-263 | The result and the new connection map are those of `Acquire`; the cache is unchanged. |
| Executor.QueryExecutor.ExecuteSql | src/simbot/sql_tools/executor.py:152-205 | The result and the new connection map are those of `RunSql`; the cache is unchanged. |
| Executor.QueryExecutor.Execute | src/simbot/sql_tools/executor.py:43-135 | The result and the new state are those of `ExecuteSpec`, with the context's correlation id or a fresh one; the hit, validation, run-failure and run-success outcomes are the lemmas ExecuteHit, ExecuteMissingParameter, ExecuteRunFails and ExecuteRunSucceeds. |
| Executor.QueryExecutor.CloseConnections | src/simbot/sql_tools/executor.py:337-346 | Forgets every connection and leaves the cache alone. |
| Loader.ResolveDir | src/simbot/sql_tools/loader.py:28-34 | An error iff neither the argument nor `QUERY_DEFINITIONS_PATH` is given; the argument takes precedence. |
| Loader.Files | src/simbot/sql_tools/loader.py:47-57 | A directory yields its `.yaml` files then its `.yml` files; a missing path or non-directory yields none. |
| Loader.Steps | src/simbot/sql_tools/loader.py:61-84 | Each file becomes one load step, in order. |
| Loader.FileStep | src/simbot/sql_tools/loader.py:62-77 | An empty file is skipped, an unreadable or invalid one fails, a disabled one is skipped, and an enabled one adds its definition under its stem. |
| Loader.Load | src/simbot/sql_tools/loader.py:61-84 | The load fails iff some file's step fails, and the error is one such file's. |
| Loader.ApplyFails | src/simbot/sql_tools/loader.py:79-84 | Applying steps fails iff some step fails, with that step's error. |
| Loader.FailureSticks | src/simbot/sql_tools/loader.py:79-84 | Once a step fails, later files change nothing. |
| Loader.StopsAtFailure | src/simbot/sql_tools/loader.py:61-84 | A failed load stops at the first failing file; the index is what the files before it built, and the error is that file's. |
| Loader.LoadedKeys | src/simbot/sql_tools/loader.py:73-74 | After a successful load a stem is indexed iff it was indexed before or some file added it. |
| Loader.LastAddWins | src/simbot/sql_tools/loader.py:74 | A stem holds the definition of the last file that added it. |
| Loader.FileStepAdds | src/simbot/sql_tools/loader.py:66-77 | A file adds a definition only when it is non-empty, valid and enabled, under its stem. |
| Loader.EnabledFileAdds | src/simbot/sql_tools/loader.py:71-74 | A non-empty, valid, enabled file adds its validated definition under its stem. |
| Loader.EnabledFileIndexed | src/simbot/sql_tools/loader.py:73-74 | After a successful load every enabled file's stem is indexed. |
| Loader.IndexedStemIsEnabledFile | src/simbot/sql_tools/loader.py:73-77 | Every indexed stem comes from an enabled file. |
| Loader.LoadOnlyEnabled | src/simbot/sql_tools/loader.py:73-77 | No disabled definition is ever in the index. |
| Loader.AppliedEnabled | src/simbot/sql_tools/loader.py:73-77 | Adding only enabled definitions keeps an all-enabled index all-enabled. |
| Loader.LoadValid | src/simbot/sql_tools/loader.py:74 | Loading keeps the index's keys unique. |
| Loader.FirstTriggerIndexSpec | src/simbot/sql_tools/loader.py:92-98 | The index found is the first definition whose lowercased trigger starts the text, or the end when none does. |
| Loader.TriggerMatchIsFirst | src/simbot/sql_tools/loader.py:94-97 | What is found is the definition at the scan's index: its lowercased trigger starts the text and no earlier one does. |
| Loader.FirstTriggerMatch | src/simbot/sql_tools/loader.py:92-98 | Nothing is found iff no lowercased trigger starts the text; a find is the definition at the first such index. |
| Loader.QueryLoader.GetQueryByTrigger | src/simbot/sql_tools/loader.py:92-98 | Against the lowercased, stripped text: none iff no held trigger (lowercased) starts it; otherwise a held definition whose trigger starts it and no earlier one's does. |
| Loader.QueryLoader.constructor | src/simbot/sql_tools/loader.py:36-37 | Records the directory with an empty index. |
| Loader.QueryLoader.LoadAllQueries | src/simbot/sql_tools/loader.py:45-86 | The new index and the error are those of loading the listing's files onto the old index. |
| Loader.QueryLoader.LoadFiles | src/simbot/sql_tools/loader.py:61-84 | The loop leaves the index and the error of applying every file's step in order, stopping at the first failure. |
| Loader.QueryLoader.LoadFile | src/simbot/sql_tools/loader.py:62-84 | One file is skipped, added under its stem, or its failure is returned with the index unchanged. |
| Loader.QueryLoader.Reload | src/simbot/sql_tools/loader.py:104-107 | The index is cleared and rebuilt from the listing, so unchanged files give the same index. |
| Loader.QueryLoader.GetQueryById | src/simbot/sql_tools/loader.py:88-90 | Found iff the id is a key; the definition returned is the one stored under it. |
| Loader.QueryLoader.GetAllQueries | src/simbot/sql_tools/loader.py:100-102 | Exactly the index values, in order, with the same count. |
| Loader.Open | src/simbot/sql_tools/loader.py:19-43 | No directory is an error; otherwise the loader holds that directory and the loaded index, or the load's error. |
| Models.ValidateParamType | src/simbot/sql_tools/models.py:16-21 | Accepted iff the type is string, int or date; the value is kept. |
| Models.ValidateMcpName | src/simbot/sql_tools/models.py:30-35 | Rejected iff the name holds a space; the value is kept. |
| Models.ValidateSql | src/simbot/sql_tools/models.py:53-58 | Accepted iff some character is not whitespace; the stored value is the stripped text, and it is not empty. |
| Models.ParameterErrors | src/simbot/sql_tools/models.py:10-21 | No errors iff the parameter has a name and an allowed type. |
| Models.BuildParameter | src/simbot/sql_tools/models.py:10-21 | Built iff acceptable, with `required` defaulting to true; a rejection carries at least one error. |
| Models.McpErrors | src/simbot/sql_tools/models.py:24-35 | No errors iff name and group are present and the name has no space. |
| Models.ParameterListErrors | src/simbot/sql_tools/models.py:49 | No errors iff every parameter entry is acceptable. |
| Models.BuildParameters | src/simbot/sql_tools/models.py:49 | One parameter per entry, each as `BuildParameter` builds it. |
| Models.DefinitionErrors | src/simbot/sql_tools/models.py:38-58 | No errors iff every required field is present, the SQL is not blank, every parameter and the MCP block are valid, and there is no unknown field. |
| Models.BuildDefinition | src/simbot/sql_tools/models.py:38-58 | Built iff acceptable; defaults enabled true, no parameters, TTL 0, no MCP block; SQL stored stripped; parameter i is raw parameter i as `BuildParameter` builds it; the MCP block is the raw block's name, group and description; a rejection carries at least one error. |
| Models.Built | src/simbot/sql_tools/models.py:38-58 | An accepted definition keeps every required field, takes the defaults of the optional ones, stores the SQL stripped and non-empty, builds parameter i from raw parameter i, and copies the raw MCP block's name, group and description. |
| Models.WithExecutedAt | src/simbot/sql_tools/models.py:74-78 | `executed_at` is always present afterwards; an existing value is not overwritten; every other key is unchanged. |
| Models.NewResult | src/simbot/sql_tools/models.py:61-78 | A constructed result carries `executed_at` and the given fields. |
| Models.ToDict | src/simbot/sql_tools/models.py:80-89 | The dictionary has the six envelope keys in order. |
| Models.ToDictRoundTrip | src/simbot/sql_tools/models.py:80-89 | Reading the dictionary back gives the same result. |
| Models.UserLabel | src/simbot/sql_tools/models.py:99-100 | `user_id or "unknown"`: a non-empty id is the label, a missing or empty one gives "unknown"; so the label is "unknown" iff the id is missing, empty, or itself "unknown". |
| Models.ContextString | src/simbot/sql_tools/models.py:99-100 | Starts with `[cid] interface:`, ends with the user label (`user_id or "unknown"`), and has nothing else. |
| Converters.ChosenGroups | src/simbot/interfaces/mcp/converters.py:25-26 | Given groups are used unless absent or empty, in which case the built-in groups are. |
| Converters.GroupPairs | src/simbot/interfaces/mcp/converters.py:28-31 | Each id of a group is paired with that group, in order. |
| Converters.ReverseMap | src/simbot/interfaces/mcp/converters.py:27-31 | The reverse map has distinct keys. |
| Converters.LastGroupListing | src/simbot/interfaces/mcp/converters.py:28-31 | None iff no group lists the id; otherwise a group listing it, with no later group listing it. |
| Converters.ReverseMapLastGroupWins | src/simbot/interfaces/mcp/converters.py:28-31 | The reverse map sends an id to the last group listing it, and has no entry for unlisted ids. |
| Converters.AssignmentsBinding | src/simbot/interfaces/mcp/converters.py:28-31 | The last assignment of an id in the flattened group listing is its last group. |
| Converters.ToolNameHasNoSpace | src/simbot/interfaces/mcp/converters.py:45-49 | For a validated definition the tool name has no space. |
| Converters.JsonType | src/simbot/interfaces/mcp/converters.py:74-78 | "integer" iff the parameter type is int; otherwise "string". |
| Converters.PropertyFor | src/simbot/interfaces/mcp/converters.py:80-87 | Only date parameters get the date format and the date suffix; the description names the parameter and its type. |
| Converters.PropertyPairs | src/simbot/interfaces/mcp/converters.py:80-87 | One property per parameter, in order. |
| Converters.RequiredNamesMembers | src/simbot/interfaces/mcp/converters.py:89-90 | A name is listed iff some required parameter has it. |
| Converters.RequiredNames | src/simbot/interfaces/mcp/converters.py:89-90 | At most one name per parameter; the list is empty iff no parameter is required. |
| Converters.AllRequiredListsEveryName | src/simbot/interfaces/mcp/converters.py:89-90 | When every parameter is required, all names are listed in declaration order. |
| Converters.ToolName | src/simbot/interfaces/mcp/converters.py:44-49 | The configured MCP name when non-empty; otherwise the trigger, character by character, with spaces turned into "_" and ASCII capitals lowered. |
| Converters.GroupFor | src/simbot/interfaces/mcp/converters.py:51-56 | The configured MCP group when non-empty; otherwise the reverse map's group for the id; otherwise "ungrouped". |
| Converters.DescriptionFor | src/simbot/interfaces/mcp/converters.py:61-66 | The configured MCP description when present and non-empty; otherwise the definition's own. |
| Converters.ToolFor | src/simbot/interfaces/mcp/converters.py:33-105 | The name is `group.tool` with the group and tool-name fallbacks, the description follows its fallback, the input type is "object", the properties and the required list are those of the parameters, and the metadata carries the group, the id and the TTL. |
| Converters.ConvertedGroup | src/simbot/interfaces/mcp/converters.py:51-56 | Without a configured group, a converted definition's group is the last group of the grouping that lists its id, else "ungrouped". |
| Converters.ToolPropertiesByName | src/simbot/interfaces/mcp/converters.py:80-87 | A property looked up by name is that of the last parameter with the name. |
| Converters.AssignGroup | src/simbot/interfaces/mcp/converters.py:30-31 | The loop assigns the group to each of its ids in turn. |
| Converters.ParameterSchema | src/simbot/interfaces/mcp/converters.py:72-90 | The loop builds the property dictionary and the required-name list. |
| Converters.McpConverter.constructor | src/simbot/interfaces/mcp/converters.py:25-31 | Keeps the chosen groups and builds their reverse map. |
| Converters.McpConverter.Convert | src/simbot/interfaces/mcp/converters.py:33-105 | The schema is `ToolFor`, with its name, group and description fallbacks; without a configured group, the group is the last group of the converter's grouping that lists the id, else "ungrouped". |
| Converters.McpConverter.ConvertAll | src/simbot/interfaces/mcp/converters.py:107-118 | One schema per query, in index order. |
| SqlTool.ColumnWidth | src/simbot/interfaces/slack/tools/sql_tool.py:117-123 | A width is at least the header's and every cell's length, and equals one of them. |
| SqlTool.CellText | src/simbot/interfaces/slack/tools/sql_tool.py:141 | `str(value)`, or "" for a null cell. |
| SqlTool.TableLines | src/simbot/interfaces/slack/tools/sql_tool.py:126-145 | Separator, header, separator, one line per row, separator. |
| SqlTool.Table | src/simbot/interfaces/slack/tools/sql_tool.py:109-148 | No rows gives "No results"; otherwise the text opens with the code fence and the separator line and closes with the separator and the fence. |
| SqlTool.NormalisedRowsUniform | src/simbot/sql_tools/executor.py:193-202 | Rows converted from tuples as wide as the column list all have the first row's columns, so the table lookup cannot fail on them. |
| SqlTool.RunSqlRowsUniform | src/simbot/sql_tools/executor.py:152-205 | Rows a well-behaved driver's run returns are uniform. |
| SqlTool.ColumnWidthLoop | src/simbot/interfaces/slack/tools/sql_tool.py:119-123 | The loop computes `ColumnWidth`. |
| SqlTool.WidthOfColumn | src/simbot/interfaces/slack/tools/sql_tool.py:115-123 | Every row has every column of the first row; the j-th width is that column's width. |
| SqlTool.ComputeWidths | src/simbot/interfaces/slack/tools/sql_tool.py:117-123 | The loop computes every column's width. |
| SqlTool.RowText | src/simbot/interfaces/slack/tools/sql_tool.py:137-143 | The loop builds one padded row line. |
| SqlTool.FormatTable | src/simbot/interfaces/slack/tools/sql_tool.py:109-148 | The method builds the table text: "No results" for no rows, else the fenced table lines. |
| SqlTool.LineLength | src/simbot/interfaces/slack/tools/sql_tool.py:129-130 | A padded line and the separator have the same length. |
| SqlTool.RowLineLength | src/simbot/interfaces/slack/tools/sql_tool.py:137-143 | Every row line has the table's line length. |
| SqlTool.TableShape | src/simbot/interfaces/slack/tools/sql_tool.py:126-148 | The table has rows + 4 lines, all of equal length. |
| SqlTool.CellsFitColumns | src/simbot/interfaces/slack/tools/sql_tool.py:117-123 | No header or cell is longer than its column's width. |
| SqlTool.ResultHeader | src/simbot/interfaces/slack/tools/sql_tool.py:82-90 | No parameters gives `**name**:`; one gives ``**name** for `v`:``. |
| SqlTool.ResultText | src/simbot/interfaces/slack/tools/sql_tool.py:92-107 | The text starts with the header and a newline; a cached result's text ends with "\n[cached: t]". |
| SqlTool.ResultTextLayout | src/simbot/interfaces/slack/tools/sql_tool.py:92-107 | Without the cache note, the text is the header, a blank line, then "No results" or the table. |
| SqlTool.ResultTextCacheNote | src/simbot/interfaces/slack/tools/sql_tool.py:99-107 | A cached result's text starts with the header and ends with the cache note. |
| SqlTool.MentionLength | src/simbot/interfaces/slack/tools/sql_tool.py:166 | A positive length is that of a mention `<@[A-Z0-9]+>` at the start. |
| SqlTool.MentionAtStart | src/simbot/interfaces/slack/tools/sql_tool.py:166 | A mention at the start is recognised whole. |
| SqlTool.StripMentions | src/simbot/interfaces/slack/tools/sql_tool.py:166 | Stripping never lengthens the text. |
| SqlTool.StripMentionsPlain | src/simbot/interfaces/slack/tools/sql_tool.py:166 | Text without '<' is unchanged. |
| SqlTool.StripMentionsMention | src/simbot/interfaces/slack/tools/sql_tool.py:166 | A leading mention is removed. |
| SqlTool.StripMentionsPlainPrefix | src/simbot/interfaces/slack/tools/sql_tool.py:166 | A prefix without '<' is kept and the rest is stripped. |
| SqlTool.CleanText | src/simbot/interfaces/slack/tools/sql_tool.py:166 | The cleaned text is no longer than the message and neither starts nor ends with whitespace. |
| SqlTool.TokenPairs | src/simbot/interfaces/slack/tools/sql_tool.py:202-210 | Word i is paired with parameter i, up to the shorter of the two. |
| SqlTool.Bind | src/simbot/interfaces/slack/tools/sql_tool.py:202-210 | The binding has distinct keys. |
| SqlTool.BindKeys | src/simbot/interfaces/slack/tools/sql_tool.py:202-210 | A name is bound iff it is the i-th parameter name for some i below the word count. |
| SqlTool.BindTokens | src/simbot/interfaces/slack/tools/sql_tool.py:202-210 | The loop builds the positional binding. |
| SqlTool.BindLookup | src/simbot/interfaces/slack/tools/sql_tool.py:202-210 | A name's value is its last pairing. |
| SqlTool.BindPositional | src/simbot/interfaces/slack/tools/sql_tool.py:202-210 | With distinct names, parameter i gets word i; extra words are ignored; a missing word leaves the key absent. |
| SqlTool.BindOrder | src/simbot/interfaces/slack/tools/sql_tool.py:202-210 | With distinct names, the keys are the first min(names, words) parameter names, in order. |
| SqlTool.FirstHolder | src/simbot/interfaces/slack/tools/sql_tool.py:175-179 | The position found is the first entry holding the definition, or the end. |
| SqlTool.FindHolder | src/simbot/interfaces/slack/tools/sql_tool.py:175-179 | The loop finds that position. |
| SqlTool.RouteMatched | src/simbot/interfaces/slack/tools/sql_tool.py:175-210 | Once a definition has matched, the message is always handled as a query. |
| SqlTool.RouteWords | src/simbot/interfaces/slack/tools/sql_tool.py:186-210 | Under a known id the bot either asks for parameters or runs the query under that same id. |
| SqlTool.QueryRouteFor | src/simbot/interfaces/slack/tools/sql_tool.py:166-210 | Not a query iff no trigger matched; a run names a non-empty id held in the index. |
| SqlTool.RouteFound | src/simbot/interfaces/slack/tools/sql_tool.py:175-210 | The method routes a matched definition as `RouteMatched` does. |
| SqlTool.MatchedIsHeld | src/simbot/interfaces/slack/tools/sql_tool.py:169-183 | A definition found by trigger is held by some index entry. |
| SqlTool.TriggerMatchIsHeld | src/simbot/interfaces/slack/tools/sql_tool.py:169-179 | Whatever text the lookup is given, what it finds is held by some index entry. |
| SqlTool.QueryRouteIsQuery | src/simbot/interfaces/slack/tools/sql_tool.py:166-172 | A message is not a query iff no trigger starts the stripped, lowercased text. |
| SqlTool.TriggerMatchOverIndex | src/simbot/interfaces/slack/tools/sql_tool.py:169 | The trigger lookup over the index values finds nothing iff no trigger starts the text. |
| SqlTool.RunResolves | src/simbot/interfaces/slack/tools/sql_tool.py:175-210 | The id a query runs under looks up the matched definition. |
| SqlTool.RunUnderHolder | src/simbot/interfaces/slack/tools/sql_tool.py:175-210 | A run's id looks up the definition that matched. |
| SqlTool.AskWhenNoWords | src/simbot/interfaces/slack/tools/sql_tool.py:186-199 | With no words after the trigger, the bot replies with the description iff some parameter is required. |
| SqlTool.AskIffRequired | src/simbot/interfaces/slack/tools/sql_tool.py:186-199 | With no words, the bot asks for parameters iff the required-name list is not empty. |
| SqlTool.RunBindsWords | src/simbot/interfaces/slack/tools/sql_tool.py:186-210 | Otherwise the query runs under its id with the words bound in order. |
| SqlTool.AfterWord | src/simbot/interfaces/slack/tools/sql_tool.py:286 | Found iff the text starts with the word (any case) followed by whitespace; what is found is a suffix after the word and a whitespace run, and does not start with whitespace. |
| SqlTool.AfterWordRoundTrip | src/simbot/interfaces/slack/tools/sql_tool.py:286 | The word in any case, a non-empty whitespace run and any text give back that text with leading whitespace removed. |
| SqlTool.ClearTarget | src/simbot/interfaces/slack/tools/sql_tool.py:286-288 | A `clear cache` target is non-empty and does not start with whitespace. |
| SqlTool.TargetRoute | src/simbot/interfaces/slack/tools/sql_tool.py:290-318 | "all" in any case after stripping clears everything; otherwise the target is looked up by id, then by trigger, and is a known query or unknown. |
| SqlTool.ClearRouteFor | src/simbot/interfaces/slack/tools/sql_tool.py:284-318 | A cleaned message that is not a `clear cache` command is not a clear; otherwise its target is routed. |
| SqlTool.ClearTargetRoundTrip | src/simbot/interfaces/slack/tools/sql_tool.py:286-290 | "clear" and "cache" in any case, each followed by whitespace, then a one-line target not starting with whitespace give back exactly that target. |
| SqlTool.ClearTargetParts | src/simbot/interfaces/slack/tools/sql_tool.py:286-290 | Conversely, a text with a target is "clear", whitespace, "cache", whitespace and the target, and the target holds no newline. |
| SqlTool.ClearCacheCommand | src/simbot/interfaces/slack/tools/sql_tool.py:286-290 | The plain command `clear cache x` gives back the target `x`. |
| SqlTool.ClearCacheAll | src/simbot/interfaces/slack/tools/sql_tool.py:286-298 | `clear cache all` takes the clear-everything route, whatever the index. |
| SqlTool.ClearOutcome | src/simbot/interfaces/slack/tools/sql_tool.py:290-318 | No reply iff not a clear command; other text and unknown targets leave the cache alone; "all" empties it and reports the old count; a query clears exactly its `name:` keys and reports how many went. |
| SqlTool.ClearEverythingIffAll | src/simbot/interfaces/slack/tools/sql_tool.py:290-298 | Everything is cleared iff the target is "all" in any case. |
| SqlTool.ClearById | src/simbot/interfaces/slack/tools/sql_tool.py:300-318 | A target that is an id clears that definition's entries. |
| SqlTool.QueryLines | src/simbot/interfaces/slack/tools/sql_tool.py:267-270 | One listing line per definition. |
| SqlTool.ByTrigger | src/simbot/interfaces/slack/tools/sql_tool.py:267 | Each definition is paired with its trigger, in order. |
| SqlTool.ListingLines | src/simbot/interfaces/slack/tools/sql_tool.py:266-272 | The loop builds the title, a blank line, then one line per definition. |
| SqlTool.ListedSortedPermutation | src/simbot/interfaces/slack/tools/sql_tool.py:267 | The listing is a permutation of the definitions (equal multisets), ordered by trigger. |
| SqlTool.ListReply | src/simbot/interfaces/slack/tools/sql_tool.py:255-272 | No definitions gives "No domain queries available."; otherwise the reply starts with the title and a newline. |
| SqlTool.ListReplyShowsEvery | src/simbot/interfaces/slack/tools/sql_tool.py:265-272 | Every definition's line appears in the reply. |
| SqlTool.IsListCommand | src/simbot/interfaces/slack/tools/sql_tool.py:252 | `^queries?\s*$` ignoring case on stripped text: exactly "querie" or "queries". |
| SqlTool.ReloadReply | src/simbot/interfaces/slack/tools/sql_tool.py:345-363 | The reply starts with "Queries reloaded: N queries loaded " for the new count N and ends with the change note. |
| SqlTool.IsReloadCommand | src/simbot/interfaces/slack/tools/sql_tool.py:332 | `^reload\s+queries?\s*$` ignoring case: "reload", whitespace, then the list command. |
| SqlTool.ReloadReplyReportsChange | src/simbot/interfaces/slack/tools/sql_tool.py:346-363 | The reply ends " new)" iff the count grew, " removed)" iff it shrank, "(no changes)" iff equal, with the difference in the note. |
| SqlTool.DomainSqlTool.constructor | src/simbot/interfaces/slack/tools/sql_tool.py:19-25 | The tool holds a loader and an executor (passed in rather than built). |
| SqlTool.DomainSqlTool.HandleQuery | src/simbot/interfaces/slack/tools/sql_tool.py:157-210 | The route is `QueryRouteFor` over the loader's index. |
| SqlTool.DomainSqlTool.FindTarget | src/simbot/interfaces/slack/tools/sql_tool.py:301-303 | A target is looked up by id, then by trigger. |
| SqlTool.DomainSqlTool.ResolveTarget | src/simbot/interfaces/slack/tools/sql_tool.py:290-318 | "all" clears everything; a known target clears its query; anything else is unknown. |
| SqlTool.DomainSqlTool.ApplyClear | src/simbot/interfaces/slack/tools/sql_tool.py:290-318 | The cache and reply are those of `ClearOutcome`: an unknown target changes nothing. |
| SqlTool.DomainSqlTool.ClearRouteOf | src/simbot/interfaces/slack/tools/sql_tool.py:284-288 | The method routes the text as `ClearRouteFor` does. |
| SqlTool.DomainSqlTool.HandleClearCache | src/simbot/interfaces/slack/tools/sql_tool.py:275-320 | The cache and reply are those of `ClearOutcome` on the text's route; connections unchanged. |
| SqlTool.DomainSqlTool.HandleListQueries | src/simbot/interfaces/slack/tools/sql_tool.py:243-273 | Replies iff the text is `queries?` alone, with the listing of all definitions. |
| SqlTool.DomainSqlTool.HandleReload | src/simbot/interfaces/slack/tools/sql_tool.py:322-376 | Other text changes nothing; `reload queries` rebuilds the index and replies with the count change or the failure. |
| RateLimiter.Check | src/simbot/utils/rate_limiter.py:40-49 | Allowed iff the cooldown has passed since the last allowed request (0 for unseen users); an allowed request records `now` and waits 0; a denied one leaves the table unchanged. |
| RateLimiter.CheckOthersUntouched | src/simbot/utils/rate_limiter.py:45 | A check never adds, removes or changes another user's entry. |
| RateLimiter.WaitBounds | src/simbot/utils/rate_limiter.py:48 | A denial's wait is at least 1, covers the remaining cooldown, overshoots it by at most 1, and is at most cooldown + 1 when the last request is not in the future. |
| RateLimiter.WaitSuffices | src/simbot/utils/rate_limiter.py:44-48 | Asking again after the wait given is allowed. |
| RateLimiter.AllowedThenDenied | src/simbot/utils/rate_limiter.py:44-49 | With a positive cooldown, a user just allowed is denied until the cooldown passes. |
| RateLimiter.ResetForgets | src/simbot/utils/rate_limiter.py:51-58 | Reset removes only that user's entry. |
| RateLimiter.ResetAllows | src/simbot/utils/rate_limiter.py:41-58 | After reset a user is judged as unseen. |
| RateLimiter.RateLimiter.constructor | src/simbot/utils/rate_limiter.py:18-26 | Keeps the cooldown, with no user seen. |
| RateLimiter.RateLimiter.CheckRateLimit | src/simbot/utils/rate_limiter.py:28-49 | The verdict and new table are those of `Check`. |
| RateLimiter.RateLimiter.Reset | src/simbot/utils/rate_limiter.py:51-58 | Removes the user's entry, and is a no-op for unknown users. |
| ToolBase.FlagName | src/simbot/tools/base.py:15 | `ENABLE_` followed by the name in upper case: same length, no lower-case letter, same name up to case. |
| ToolBase.IsEnabled | src/simbot/tools/base.py:26-27 | On iff the flag is set and its lowercased value is "true", "1" or "yes"; an unset flag reads as "false", so the tool is off. |
| ToolBase.EnabledIgnoresCase | src/simbot/tools/base.py:26-27 | Case does not matter: a value and its lowercase give the same answer. |
| ToolBase.EchoHealth | src/simbot/tools/base.py:101-114 | Healthy iff audit logging is configured; an error exactly when unhealthy. |
| ToolBase.CheckAvailability | src/simbot/tools/base.py:46-77 | Available iff enabled and healthy; a disabled tool names its flag in the reason and carries no error; an enabled, unhealthy one carries the health error; an available one no error. |
| ToolBase.DisabledIgnoresHealth | src/simbot/tools/base.py:56-62 | The flag is checked first: a disabled tool gets the same answer whatever its health. |
| ToolBase.DefaultHealthAvailable | src/simbot/tools/base.py:41-44 | With the default health check, availability is the flag alone. |
| ToolBase.AuditText | src/simbot/tools/base.py:127-130 | The audit line starts with "Echo executed: " and is at most that prefix plus 50 characters plus "..." long. |
| ToolBase.AuditTruncation | src/simbot/tools/base.py:127-130 | Up to 50 characters the message is logged whole; beyond, its first 50 followed by "...". |
| ToolBase.EchoExecute | src/simbot/tools/base.py:116-125 | Echo always succeeds with no error; the result is "Echo: " followed by the message, which reads back whole; the audit line is `AuditText` of the message. |
| ToolBase.EchoFlag | src/simbot/tools/base.py:95-99 | Echo's flag is `ENABLE_ECHO`. |
| Config.Errors | src/simbot/config.py:21-30 | At most three errors. |
| Config.Valid | src/simbot/config.py:21-32 | A configuration is valid exactly when the checks report no error. |
| Config.ErrorsReportEveryFailure | src/simbot/config.py:21-30 | No errors iff valid; each error is reported iff its check fails; errors keep the order bot token, app token, secret. |
| Config.ErrorLines | src/simbot/config.py:33 | Each error on its own line behind "  - ". |
| Config.ErrorMessage | src/simbot/config.py:33 | The message starts with "Configuration errors:"; one error gives the title, a newline, then "  - " and the error. |
| Config.ErrorMessageNamesEach | src/simbot/config.py:32-34 | The message starts with the title and contains every error behind its marker. |
| Config.NewConfig | src/simbot/config.py:19-34 | Constructed iff valid; otherwise the error carries the message listing every failing check. |
| Config.LoadedFields | src/simbot/config.py:49-54 | Each field is its environment variable when set; otherwise "" for the three credentials and "INFO" for the log level. |
| Config.LoadConfig | src/simbot/config.py:37-59 | Loading succeeds iff the fields read from the environment are valid. |
| Config.MissingCredentialsFail | src/simbot/config.py:49-54 | A missing credential always fails its check; the log level defaults to "INFO". |

## Left out

- Database access: pyodbc's connect, the liveness probe and the cursor are
  the `Driver` parameter of `Executor`. Driver exceptions are its `Err`
  results. Closing a connection that raises is not modelled; closing only
  forgets the connection.
- YAML parsing, globbing and file reading: a directory is a `Listing` of
  files already parsed into raw definitions, empty files or errors.
  Pydantic's type coercion is not modelled; raw fields are already typed.
- Environment lookups are a map parameter.
- Clocks:
  - the executor's `time.time()` is an integer parameter, read once per
    step of `execute`;
  - `execution_time_seconds` is an opaque parameter;
  - `datetime.now().isoformat()` and the `[cached: …]` time formatting are
    opaque strings.
- RateLimiter: `time.time()` is a `real`, so that `int()`'s truncation of
  the wait shows. Float rounding is not modelled.
- `uuid` generation is a parameter. Logging and audit output are not
  modelled. The `EchoTool` audit line is returned rather than logged.
- ToolBase.EchoHealth: the audit logging service check is a boolean
  parameter, because it inspects logging handlers.
- Case mapping is ASCII only. Python's `lower()`/`upper()` on other letters
  are not modelled, nor `re.IGNORECASE`'s wider equivalences. The same
  holds for length changes under case mapping.
- Parameter values are strings, as they are when typed in chat.
- `DomainSQLTool.execute` (sql_tool.py:27-77), `get_help_text`,
  `check_health`, `register_handlers` and `Tool.__repr__` are not part of
  this model. They only assemble dictionaries and text around calls that
  are modelled.
- The Slack `say` calls are not modelled. The handlers return the reply
  text, or the route taken, instead of posting it, and error replies
  carrying a correlation id are not modelled.
- SqlTool.ListedSortedPermutation: it states a permutation in trigger
  order. It does not state the stability of Python's sort, that is, the
  order kept between two definitions with the same trigger.
- SqlTool.ResultHeader: its contract covers zero and one parameter. The
  `k=`v`` list for several parameters is given only by its definition.
- Executor.Acquire: runs the corrected database-name check
  (`SafeDatabaseName`, see "## Findings"), not the one at executor.py:222.
  A name of letters, digits and underscores followed by a single newline
  passes the source's check and is connected with; here it is rejected as
  an invalid name. The two checks agree on every name without a newline
  (`SafeDatabaseNameIsAllowListWithoutNewline`).
- Executor.QueryExecutor.GetConnection: equals `Acquire`, so it carries the
  same corrected name check.
- Executor.RunSql: runs `Acquire`, so a name with a trailing newline fails
  here where the source runs the statement.
- Executor.QueryExecutor.ExecuteSql: equals `RunSql`, with the same
  corrected name check.
- Executor.ExecuteSpec: runs `RunSql`, so a name with a trailing newline
  gives an EXECUTION_ERROR here where the source runs the statement.
- Executor.QueryExecutor.Execute: equals `ExecuteSpec`, with the same
  corrected name check.
- Converters.McpConverter.ConvertAll: `convert` cannot fail on a validated
  definition, so the skipped-on-exception branch of `convert_all` does not
  arise in the model.
- SqlTool.Table: requires `Uniform` (every row has every column of the
  first row), as do `Widths`, `FormatTable`, `ResultText` and the table
  lemmas. The `KeyError` that `row[col]` raises at sql_tool.py:122 on a
  row missing a column is not modelled. Rows the executor produces always
  meet it (`NormalisedRowsUniform`, `RunSqlRowsUniform`); only cached or
  hand-built results could break it.
- Executor.RunSql: requires `Behaves`, a driver whose fetched tuples are
  as wide as their column list, as do `ExecuteSpec`, its lemmas,
  `ExecuteSql` and `Execute`. The `IndexError` that `row[i]` raises at
  executor.py:197 on a shorter tuple is not modelled; a real ODBC cursor
  does not return one.
- The `queries?` pattern accepts "querie" and "queries" but not "query".
  Slack mentions are stripped before matching.

## Findings

| source | as written | input that shows it | evidently intended | confidence | as-written member | corrected member |
|---|---|---|---|---|---|---|
| src/simbot/sql_tools/executor.py:222 | `re.match(r"^[a-zA-Z0-9_]+$", database)`: `$` also matches before a final newline | database name `"db\n"` passes the check and is appended to the connection string | only letters, digits and underscores, with no newline (`re.fullmatch` or `\Z`) | not executed | Executor.AllowListAdmitsTrailingNewline | Executor.SafeDatabaseNameIsAllowListWithoutNewline |
