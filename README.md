# Dendrite configuration service in Dafny

Dendrite stores configuration values under slash-separated paths. Every write
to a path creates a new numbered version, and one version per path is marked
current. A GraphQL-shaped query such as `{ A { B { C D } } A { B } }` names
the paths to read. The service answers it with one nested map that mirrors the
query.

The model covers the three parts that hold the logic.

- **The query planner** (`planner.dfy`, module `Planner`):
  - `GetFieldVersion` reads the optional `version` argument.
  - `GetSelectionsByField` and `GetSelectionsBySet` flatten the field tree into
    an ordered list of `Selection(path, version)`.
  - `Join` is `path.Join`, restricted to names without `/` or `.`.
  - The planner is proved equal to a reference definition. That definition
    lists the leaves in depth-first, left-to-right order and puts each at the
    path of its names (`PlanFollowsLeaves`).
- **The result assembler** (`assembler.dfy`, module `Assembler`):
  - `GetConfigsBySelection` sends `-1` to `GetManyCurrent` and any other
    version to `GetMany`.
  - `GetObjectByPaths` is an imperative loop over the selections. It is proved
    against the fold `AssembleFrom`.
  - The cursor descent of one selection is the function `Place`. What `Place`
    does is stated through `Lookup`:
    - the merge at the path;
    - failure on a value in the way;
    - maps created for missing segments;
    - everything else left alone.
- **The query entry point** (`service.dfy`, module `Service`):
  - `Query` collects the plan of each top-level field from `"/"` and then
    assembles the result. It is proved equal to `QueryResult`, which is stated
    against the reference plan.
  - A query never fails with "invalid path".
- **The storage contract** (`backend.dfy`, module `Backend`):
  - `NotFoundErr` and its message, `Metadata`, `SetOptions`, and the dispatch
    of `NewBackend`.
  - The read side of the `Backend` interface, as the datatype `Reader`. The
    service only ever calls `GetManyCurrent` and `GetMany`.
  - Every service-level result holds for an arbitrary `Reader`, so it holds for
    both stores and for any other implementation.
- **The in-memory store** (`memory.dfy`, module `Memory`), modelled exactly as
  written:
  - `SetMany` never advances a version counter.
  - `SetMany` ignores `KeepCurrent`.
  - `Get` and `GetCurrent` turn a failed lookup into `""` with no error.
  - The lemmas spell out the consequences. For example, `Set` followed by
    `GetCurrent` on a new path reports not found.
- **The Postgres store** (`postgres.dfy`, module `Postgres`):
  - The two tables are a map `meta` (path to latest and current version) and
    the row table `config` as a sequence of `(path, version, value)` rows.
  - The reads are scan loops proved against the selections `Select` and
    `SelectCurrent`.
  - The metadata upsert is a step of its own. The increment, the promotion of
    the current version and the row insertion form one atomic transaction.
    `FailedSetManyIsInvisible` shows that a failed call leaves at most an empty
    metadata row behind.
- **The service's test cases** (`service_cases.dfy`, module `ServiceCases`),
  worked through the model:
  - the assembly over a mock backend;
  - each query of the service test after the test data has been imported into
    an empty Postgres store;
  - reading an older version.

The values passed between the steps are `Selection` and the service's errors,
in `dto.dfy` (module `Dto`). `wrappers.dfy` holds `Option` and `Result`.

Three behaviours of the code shape the results:

- **A value meets a single existing string** (`internal/pkg/dendrite/service.go:97`).
  `append(values, s)` puts the new values first and the old string last.
- **A map meets new values at its own path** (`internal/pkg/dendrite/service.go:100-105`).
  Its `"/"` key is assigned, so whatever it held is overwritten.
- **The Postgres store is asked for a path it does not know**
  (`internal/pkg/backend/postgres.go:65-85`). The join finds no row and the
  read answers an empty list, not `NotFoundErr`, so a query leaves that path
  out (`Service.PostgresSkipsUnknownPath`). The memory store does fail, and
  the whole query fails with it (`Service.MemoryFailsOnUnknownPath`).

Walking through a segment that already holds a string or a list is a failed
type assertion in Go (`internal/pkg/dendrite/service.go:117`), which panics.
The model makes it the explicit error `PathConflict(path)`, and the query
returns no tree. `Assembler.PlaceFailsOnLeafPrefix` states exactly when it
happens.

## Model

| member | source | states |
|---|---|---|
| Backend.NotFoundMessage | internal/pkg/backend/backend.go:15-17 | the message of NotFoundErr is "path " + path + " not found": it is the path's length plus 15, the path sits at offset 5, and distinct paths give distinct messages |
| Backend.NewBackend | internal/pkg/backend/backend.go:56-62 | a backend comes back exactly when the type is "postgres" and the pool opens; any other type, memory included, fails with "backend <type> not implemented"; a failed connection is passed on |
| Dto.ServiceMessage | internal/pkg/dendrite/service.go:83-88 | a backend failure reads "failed to get values from db: " + the backend's message; a relative path reads "invalid path"; a bad version reads "invalid version provided" |
| Memory.Maps.GetMetadata | internal/pkg/backend/memory.go:80-86 | the stored record exactly when the path has one, otherwise NotFoundErr for that path |
| Memory.Maps.ValuesAt | internal/pkg/backend/memory.go:41 | the nested lookup Config[path][version]: the stored list when both keys exist, the empty list (Go's nil slice) when either is missing |
| Memory.Maps.GetMany | internal/pkg/backend/memory.go:44-54 | succeeds exactly when both the path and the version key exist, with the stored list unchanged (even empty); otherwise NotFoundErr |
| Memory.Maps.GetManyCurrent | internal/pkg/backend/memory.go:36-42 | fails with NotFoundErr exactly when the path has no metadata; otherwise the list at the current version, empty when nothing is stored there |
| Memory.Maps.Get | internal/pkg/backend/memory.go:14-23 | a failed lookup gives "" and no error; an empty list gives NotFoundErr; otherwise the first value |
| Memory.Maps.GetCurrent | internal/pkg/backend/memory.go:25-34 | the same three outcomes over the current version: "" without metadata, NotFoundErr for an empty list, else the first value |
| Memory.Maps.SetMany | internal/pkg/backend/memory.go:60-78 | returns the stored metadata, or (path, 0, 0) which it stores for a new path; the values become what GetMany reads at latest + 1; every other version of the path and every other path are untouched |
| Memory.Maps.View | internal/pkg/backend/memory.go:36-54 | the reader the service sees answers exactly as GetManyCurrent and GetMany |
| Memory.SetManyPreservesValid | internal/pkg/backend/memory.go:65-72 | metadata stays filed under its own path |
| Memory.SetManyIgnoresOptions | internal/pkg/backend/memory.go:60-78 | KeepCurrent makes no difference to the state or the result |
| Memory.RepeatedSetManyRewritesSameVersion | internal/pkg/backend/memory.go:65-76 | a second write to a path returns the same metadata, leaves the metadata as it was, and overwrites the version the first wrote |
| Memory.SetThenGetCurrentOnNewPath | internal/pkg/backend/memory.go:56-78 | on a new path, Set then GetCurrent reports not found, GetMany at version 0 fails, and the value sits at version 1 |
| Memory.MemoryBackend.constructor | internal/pkg/backend/memory.go:9-12 | both maps initialised and empty |
| Memory.MemoryBackend.SetMany | internal/pkg/backend/memory.go:60-78 | the in-place update of the two maps yields exactly the state and result of Maps.SetMany |
| Memory.MemoryBackend.Set | internal/pkg/backend/memory.go:56-58 | Set(path, v) is SetMany(path, [v]) |
| Postgres.Select | internal/pkg/backend/postgres.go:90 | the WHERE on path and version; what it reads is stated by SelectAppend, SelectRowsFor, SelectAbsent, SelectRemove and the Tables lemmas |
| Postgres.SelectAppend | internal/pkg/backend/postgres.go:90 | the selection over two stretches of the table is the first stretch's values followed by the second's: values come back in row order |
| Postgres.SelectAbsent | internal/pkg/backend/postgres.go:90 | a table with no row carrying (path, version) selects nothing for it |
| Postgres.SelectCurrent | internal/pkg/backend/postgres.go:68-70 | the inner join with config_metadata on the current version; SelectCurrentIsSelectAtCurrent states what it reads |
| Postgres.SelectCurrentIsSelectAtCurrent | internal/pkg/backend/postgres.go:68-70 | the inner join with the metadata table reads the rows at the path's current version, and nothing for a path without metadata |
| Postgres.RowsFor | internal/pkg/backend/postgres.go:137-144 | CopyFrom inserts one row per value, in order, each tagged with the path and the new version; SelectRowsFor reads them back |
| Postgres.Remove | internal/pkg/backend/postgres.go:157 | the DELETE keeps only rows of the old table outside (path, version), never more rows than before; SelectRemove completes it |
| Postgres.SelectRowsFor | internal/pkg/backend/postgres.go:137-144 | the copied rows hold the values, in order, under (path, new version) and nothing else |
| Postgres.SelectRemove | internal/pkg/backend/postgres.go:157 | after the DELETE, (path, version) reads empty and every other pair reads as before |
| Postgres.Tables.GetMany | internal/pkg/backend/postgres.go:89-105 | fails exactly when the query fails, with "failed to fetch rows: " + cause; otherwise the values of (path, version), empty rather than an error when there are none |
| Postgres.Tables.GetManyCurrent | internal/pkg/backend/postgres.go:65-87 | the values at the path's current version, an empty list for a path without metadata, the same wrapped error |
| Postgres.Tables.Get | internal/pkg/backend/postgres.go:54-63 | the first value; NotFoundErr on an empty list; a fetch error unchanged |
| Postgres.Tables.GetCurrent | internal/pkg/backend/postgres.go:43-52 | the first current value; NotFoundErr on an empty list or unknown path; a fetch error unchanged |
| Postgres.Tables.Upserted | internal/pkg/backend/postgres.go:112 | `INSERT ... ON CONFLICT (path) DO NOTHING`: an existing metadata row is kept as it is, a new path gets the row (0, 0), no other path changes |
| Postgres.Tables.SetMany | internal/pkg/backend/postgres.go:111-154 | a failed upsert changes nothing; a failed transaction keeps only the upserted row; on success latest goes up by exactly one, current follows it unless KeepCurrent, the returned metadata says so, and one row per value is appended |
| Postgres.Tables.Delete | internal/pkg/backend/postgres.go:156-163 | metadata untouched; the rows left are old rows outside (path, version); a failure is wrapped as "failed to delete rows: " + cause and changes nothing |
| Postgres.Tables.View | internal/pkg/backend/postgres.go:65-105 | the reader the service sees answers exactly as GetManyCurrent and GetMany when the database answers |
| Postgres.SetManyPreservesValid | internal/pkg/backend/postgres.go:111-154 | 0 <= current <= latest for every path, and every row belongs to a path with metadata at a version no later than its latest |
| Postgres.DeletePreservesValid | internal/pkg/backend/postgres.go:156-163 | the same invariant survives Delete |
| Postgres.ValidSelectAbsent | internal/pkg/backend/postgres.go:90 | in valid tables, a path without metadata or a version above its latest selects nothing |
| Postgres.SetManyThenGetMany | internal/pkg/backend/postgres.go:126-144 | after a successful SetMany, the new version reads exactly the values given, in order |
| Postgres.SetManyKeepsOtherVersions | internal/pkg/backend/postgres.go:137-144 | every other (path, version) reads as before, and after a failure every pair does |
| Postgres.SetThenGetCurrent | internal/pkg/backend/postgres.go:131-136 | with KeepCurrent false, current equals latest and GetCurrent returns the value just set |
| Postgres.KeepCurrentKeepsCurrentValues | internal/pkg/backend/postgres.go:131-136 | with KeepCurrent true, current is unchanged and every path reads the same current values |
| Postgres.FailedSetManyIsInvisible | internal/pkg/backend/postgres.go:112-151 | a failed SetMany leaves the rows and every existing metadata row as they were, at most a (0, 0) row for a new path, and every read unchanged |
| Postgres.DeleteRemovesOnlyItsVersion | internal/pkg/backend/postgres.go:156-162 | Delete empties exactly its (path, version) |
| Postgres.PostgresBackend.constructor | internal/pkg/backend/postgres.go:22-24 | a store over empty tables, satisfying the invariant |
| Postgres.PostgresBackend.GetMany | internal/pkg/backend/postgres.go:89-105 | the scan loop collects exactly what Tables.GetMany specifies |
| Postgres.PostgresBackend.GetManyCurrent | internal/pkg/backend/postgres.go:65-87 | the scan loop over the join collects exactly what Tables.GetManyCurrent specifies |
| Postgres.PostgresBackend.Get | internal/pkg/backend/postgres.go:54-63 | equals Tables.Get |
| Postgres.PostgresBackend.GetCurrent | internal/pkg/backend/postgres.go:43-52 | equals Tables.GetCurrent |
| Postgres.PostgresBackend.SetMany | internal/pkg/backend/postgres.go:111-154 | the statement sequence yields the tables and result of Tables.SetMany and keeps the invariant |
| Postgres.PostgresBackend.Set | internal/pkg/backend/postgres.go:107-109 | Set(path, v) is SetMany(path, [v]) |
| Postgres.PostgresBackend.Delete | internal/pkg/backend/postgres.go:156-163 | yields Tables.Delete and keeps the invariant |
| Planner.GetFieldVersion | internal/pkg/dendrite/service.go:27-39 | -1 when no argument is named version; otherwise the first version argument decides: its int, or "invalid version provided"; later arguments are never read |
| Planner.Resolve | internal/pkg/dendrite/service.go:42-50 | fails exactly when some leaf's version is invalid, with InvalidVersion; otherwise one selection per leaf, in order, at the path of its names with its version |
| Planner.Clean | internal/pkg/dendrite/service.go:48 | the slash collapsing of path.Join; CleanKeepsName and CleanPathOf state that it keeps names and turns a doubled-slash base into the clean path |
| Planner.Join | internal/pkg/dendrite/service.go:48 | path.Join(base, name) for the planner's names; JoinIsPathOf states the path it gives |
| Planner.GetSelectionsByField | internal/pkg/dendrite/service.go:41-62 | the recursive planner; PlanFollowsLeaves states it equals resolving the field's leaves, in depth-first order, with the first version error |
| Planner.GetSelectionsBySet | internal/pkg/dendrite/service.go:52-60 | the loop over a selection set; PlanSetFollowsLeaves states it equals resolving the set's leaves |
| Planner.JoinIsPathOf | internal/pkg/dendrite/service.go:48 | path.Join of the base the planner builds ("//A/B", ...) and a name is the clean path "/A/B/name" |
| Planner.PlanFollowsLeaves | internal/pkg/dendrite/service.go:41-61 | the planner's result for a field equals the reference: its leaves depth-first, left to right, each at the path of its names; a leaf gives one selection, a branch nothing of its own, and an invalid version anywhere gives InvalidVersion and no selections |
| Planner.PlanSetFollowsLeaves | internal/pkg/dendrite/service.go:52-60 | the same for a list of fields: their selections concatenated in order |
| Planner.ResolveAppend | internal/pkg/dendrite/service.go:53-58 | planning two lists in turn is planning their concatenation, stopping at the first error |
| Planner.BranchIgnoresArguments | internal/pkg/dendrite/service.go:51-61 | a branch field's own arguments, version included, never matter |
| Planner.PlannerExample | internal/pkg/dendrite/service_test.go:308-380 | A { B(version: 1) C { D(version: 2) E } } plans /A/B@1, /A/C/D@2, /A/C/E@-1; a non-int version fails |
| Assembler.GetConfigsBySelection | internal/pkg/dendrite/service.go:64-78 | version -1 reads GetManyCurrent, any other version reads GetMany at that version; the answer, error included, is passed on |
| Assembler.Split | internal/pkg/dendrite/service.go:92 | strings.Split(s, "/"), never empty; SplitPathOf states what it gives on a built path |
| Assembler.Segments | internal/pkg/dendrite/service.go:92 | the segments below the root, never empty for a rooted path; SegmentsOfPathOf states they are the path's names |
| Assembler.LeafOf | internal/pkg/dendrite/service.go:106-111 | a fresh leaf holds exactly the values; it is a string exactly when there is one value |
| Assembler.Merge | internal/pkg/dendrite/service.go:94-112 | absent: a fresh leaf; a string s: the list values + [s]; a list l: l + values; a map: "/" set to a fresh leaf, whatever it held, and every other key kept |
| Assembler.Apply | internal/pkg/dendrite/service.go:83-120 | a relative path gives "invalid path"; a failed fetch gives its error, wrapped; an empty fetch leaves the tree unchanged; values give the placed tree, or a conflict on this path exactly when placing fails |
| Assembler.ApplyPlacesValues | internal/pkg/dendrite/service.go:91-119 | a selection with values fails, with a conflict on its path, exactly when a proper prefix of the path holds a string or a list; otherwise the node at the path becomes the merge of the old node with the values |
| Assembler.AssembleFrom | internal/pkg/dendrite/service.go:82-122 | the outer loop as a fold; AssembleAppend, AssembleFailsOnBadSelection and AssembleErrorNamesSelection state its results and errors, and GetObjectByPaths is proved equal to it |
| Assembler.GetObjectByPaths | internal/pkg/dendrite/service.go:80-124 | the loop returns exactly the left-to-right fold of the selections from an empty tree, stopping at the first error with no tree |
| Assembler.Place | internal/pkg/dendrite/service.go:91-119 | the cursor descent and the write at the last segment; PlaceFailsOnLeafPrefix, PlaceMergesAtPath, PlaceCreatesBranches, PlaceKeepsDivergingPaths and PlaceKeepsChildren state its result |
| Assembler.PlaceFailsOnLeafPrefix | internal/pkg/dendrite/service.go:113-118 | placing fails exactly when a proper prefix of the path holds a string or a list |
| Assembler.PlaceMergesAtPath | internal/pkg/dendrite/service.go:91-112 | after placing, the node at the path is the merge of what was there with the values |
| Assembler.PlaceCreatesBranches | internal/pkg/dendrite/service.go:114-117 | after placing, every proper prefix of the path holds a map; missing ones were created |
| Assembler.PlaceKeepsDivergingPaths | internal/pkg/dendrite/service.go:91-119 | every path that parts from the placed one reads as before |
| Assembler.PlaceKeepsChildren | internal/pkg/dendrite/service.go:100-105 | below the placed path, every child other than "/" reads as before |
| Assembler.AssembleFailsOnBadSelection | internal/pkg/dendrite/service.go:83-89 | a relative path or a failed fetch anywhere in the list makes the whole assembly fail, with no partial result; when the selections before it assemble, the error is "invalid path" or that fetch's wrapped error |
| Assembler.AssembleAppend | internal/pkg/dendrite/service.go:82-122 | assembling a concatenation is assembling the first part, then the second from its tree |
| Assembler.AssembleErrorNamesSelection | internal/pkg/dendrite/service.go:82-123 | every error of the assembly comes from one selection reached after the ones before it assembled: its relative path, its fetch error, or values that cannot be placed in the tree built so far |
| Service.QueryResult | internal/pkg/dendrite/service.go:126-144 | a parse failure is an error; otherwise the first planning error, or the tree assembled from the reference plan of the fields from "/" |
| Service.Query | internal/pkg/dendrite/service.go:131-143 | the loop over top-level fields followed by GetObjectByPaths gives exactly QueryResult |
| Service.SplitPathOf | internal/pkg/dendrite/service.go:92 | strings.Split of the path of some names is "" followed by those names |
| Service.SegmentsOfPathOf | internal/pkg/dendrite/service.go:83-92 | a planned path starts with "/" and the assembler walks exactly its names |
| Service.QueryNeverInvalidPath | internal/pkg/dendrite/service.go:83-85 | no query fails with "invalid path" |
| Service.PostgresSkipsUnknownPath | internal/pkg/dendrite/service.go:90 | over the Postgres store, a path without metadata adds nothing to the result and does not stop the query |
| Service.MemoryFailsOnUnknownPath | internal/pkg/backend/memory.go:36-40 | over the memory store, the same path ends the query with the NotFoundErr of that path |
| ServiceCases.GetObjectByPathsExample | internal/pkg/dendrite/service_test.go:396-453 | the mock's three reads assemble into {A: {B: {"/": [C, D], C: [1, 2], D: "3"}}}; a path without "/" is refused |
| ServiceCases.ImportedTestConfig | internal/pkg/dendrite/service_test.go:30-57 | importing testConfig into empty tables puts every path at version 1, current, with its rows in order |
| ServiceCases.DataQueryPlan | internal/pkg/dendrite/service_test.go:108-117 | the query { A { B { C D } } A { B } } plans /A/B/C, /A/B/D and /A/B at the current version |
| ServiceCases.KeyNotFoundQueryPlan | internal/pkg/dendrite/service_test.go:173-181 | the query { A { B { C D } } D } plans /A/B/C, /A/B/D and /D at the current version |
| ServiceCases.QueryDataAfterImport | internal/pkg/dendrite/service_test.go:103-130 | after the import, { A { B { C D } } A { B } } answers {A: {B: {C: "1", D: "2", "/": [C, D]}}} |
| ServiceCases.QueryOneLevelAfterImport | internal/pkg/dendrite/service_test.go:131-143 | after the import, { E } answers {E: "3"}, a single value as a string |
| ServiceCases.QueryKeyNotFoundAfterImport | internal/pkg/dendrite/service_test.go:168-192 | after the import, { A { B { C D } } D } answers {A: {B: {C: "1", D: "2"}}}; the unknown D is absent and is no error |
| ServiceCases.QueryInvalidAfterImport | internal/pkg/dendrite/service_test.go:193-202 | a query that does not parse is an error |
| ServiceCases.QueryOlderVersion | internal/pkg/dendrite/service_test.go:146-167 | after two writes to /A, A(version: 1) answers {A: "1"} |

## Left out

- GraphQL parsing (`parser.ParseOperation`): the model starts from the parsed field tree. A parse failure is the single error `ParseFailed`, whose message is not modelled.
- `Planner.GetSelectionsByField`: requires names that are non-empty and free of `/` and `.`. GraphQL names always are. `Join` models `path.Join` only for such names and does not handle `..` or trailing slashes.
- `Service.Query`: requires a parsed operation whose fields satisfy the same name condition.
- `Dto.ServiceMessage`: the texts for `ParseFailed` and `PathConflict` are placeholders. The Go code has no message of its own for either: one is the parser's error, the other a panic.
- The `Backend` interface becomes the datatype `Reader`, holding the two reads the service calls. `GetCurrent`, `Get`, `Set`, `SetMany` and `Close` are modelled per store instead.
- `Close` is left out of both stores: it only releases the connection pool.
- `Postgres.Tables.SetMany`: the version counter is an unbounded integer. Go's `int` and the SQL column could overflow after 2^63 writes; that is not modelled.
- Postgres `GetMetadata` (`internal/pkg/backend/postgres.go:165-172`) is left out. It only feeds timestamps, and it scans `created_at` twice.
- All timestamps (`created_at`, `updated_at`, `NOW()`, `time.Now()`) are left out.
- `Postgres.Tables.SetMany`: the upsert inserts only the path, and the model gives the new metadata row `latest_version = 0` and `current_version = 0`. Those are the table's column defaults, which are not part of this model; the tests' first write landing at version 1 agrees with them.
- Database failures are parameters, not outcomes of a database. Reads and `Delete` take `fault: Option<string>`; `SetMany` takes a `WriteFault` naming the step that fails.
- `Postgres.Tables.GetMany`, `Postgres.Tables.GetManyCurrent` and the scan loops of `Postgres.PostgresBackend`: the Go loops never consult `rows.Err()` (`internal/pkg/backend/postgres.go:74-82`, `92-100`), so an error raised while the rows are read, such as the connection dropping after `Query` returned, ends the loop and returns the values read so far, possibly none, with no error. The model does not capture that: its `fault` only makes the `Query` call fail, and a read otherwise returns every selected value.
- A row scan failing halfway through a read is folded into the query failure. The model always reports it wrapped, although the Go code returns a scan error unwrapped.
- Row order: the SELECTs have no `ORDER BY`. The model assumes rows come back in insertion order, so values come back in the order they were written.
- Concurrency: the row locking that serialises concurrent `SetMany` calls is left out. Each call is one step.
- The Postgres tables are a metadata map plus a sequence of rows, rather than a map keyed by (path, version), so that the scan loops and insertion order can be stated.
- Connection set-up, DSN building, the tracer and the `NewPostgresBackend` constructor body are left out. `NewBackend` takes only whether opening the pool failed.
- `GetObjectByPaths` mutates nested Go maps in place through a cursor. The model rebuilds the tree along the path (`Place`) and returns the new tree, so aliasing between nested maps is not captured. Neither is the aliasing of the fetched slice by `append(values, ...)`.
- A `MemoryBackend` whose maps are nil panics on its first write. The model's constructor always initialises both maps, so that case is not modelled.
- HTTP handlers, dependency wiring, configuration loading and the command-line tools are left out.
