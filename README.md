# Ephemeral to-do lists over a volatile cache — a Dafny model

The service keeps **lists** and the **tasks** they hold as records in a flat
memcached store. There are no transactions and no enumeration, and any entry may be
evicted without notice. A list lives under `task-list-key_<list id>`, and a task
under `task-key_<list id>_<task id>`. A list record holds its members as an ordered
sequence of task identifiers. The later version of the service also keeps a
process-wide set of the list identifiers it has created. It uses that set to
build a backup, and deleting a list removes the identifier from it.

The model has two parts, one for each version of the data-access layer:

- `client/app/main.py`, the later version, is modelled by the modules
  `TodoRecords` (records and the pure functions the handlers are specified with) and
  `TodoStore`. `TodoStore.Store` is a class with the cache (`db: map<string, Record>`)
  and the known set (`known: set<string>`) as fields. It has one method per handler
  and an `Evict` method for the cache dropping an entry.
- `parte_1/app/main.py`, the earlier version, is modelled by `Part1Records` and
  `Part1Store`. That version uses the raw names as identifiers. It keeps no
  membership and no known set, and reports a duplicate with 403 instead of 409.

Shared modules: `Keys` (identifier derivation and the key formats, which the two
versions write identically), `TaskFields` (the status enumeration, a submitted
task, a partial update) and `Results` (`Option`, `Result`).

Every handler is one atomic step. It returns `Ok(response)` or `Err(e)`, where `e` is
`NotFound`, `AlreadyExists`, or `Unhandled`. `Unhandled` stands for an exception the
handler does not catch, which the framework answers with status 500.

The class invariant `Valid()` is `WellKeyed(db)`: every record sits under the key that
its own identifiers name. The constructor takes the cache contents. This models a
process that starts against a cache that survived a restart, so the process knows no
lists yet.

Facts about the key scheme:

- A list key and a task key never collide (`Keys.KeysDisjoint`).
- Task keys are not injective. List `a_b` with task `c` and list `a` with task
  `b_c` share `task-key_a_b_c`, and the list names `a b` and `a` produce exactly
  these identifiers (`Keys.TaskKeyCollision`).
- `Scenarios.CrossListDelete` shows the consequence: deleting task `b_c` of list `a`
  destroys the record of task `c` of list `a_b`.
- Separator-free list identifiers make task keys injective
  (`Keys.TaskKeyInjective`). Under that condition an expanded read shows only the
  list's own tasks (`TodoRecords.ExpandKeepsIds`).

The model follows the code in three places where a reader might expect something gentler:

- `make_backup` fails as a whole with NotFound when one known list has been evicted.
  It does not skip that list.
- `add_task` appends the identifier even if it is already a member. This can happen
  when an evicted task is added again, so the list then holds the identifier twice.
- `delete_list` removes the identifier from the known set with `set.remove`. When the
  identifier is not in the set, that call raises after all the deletions have already
  happened.

## Model

| member | source | states |
|---|---|---|
| `Keys.NormalizeId` | client/app/main.py:139 | the identifier has the name's length; each space becomes `_` and every other character, including other whitespace, is kept |
| `Keys.NormalizeIdIdempotent` | client/app/main.py:193 | a derived identifier has no space, and deriving it again changes nothing |
| `Keys.NormalizeIdFixesSpaceFree` | client/app/main.py:20 | a name is its own identifier exactly when it contains no space |
| `Keys.NormalizeIdNotInjective` | client/app/main.py:139 | different names ("a b", "a_b") can derive the same identifier |
| `Keys.NormalizeIdKeepsTab` | client/app/main.py:139 | a tab is not replaced |
| `Keys.NormalizeIdGroceries` | client/app/main.py:20 | "Groceries" is its own identifier |
| `Keys.NormalizeIdConcat` | client/app/main.py:139 | derivation works character by character, so it distributes over concatenation |
| `Keys.NormalizeIdJoin` | client/app/main.py:139 | two space-free words joined by a space derive the words joined by `_` |
| `Keys.NormalizeIdGroceryList` | client/app/main.py:139 | "Grocery List" derives "Grocery_List" |
| `Keys.ListKey` | client/app/main.py:140 | a list key is the list prefix followed by exactly the list identifier, so the identifier can be read back from the key |
| `Keys.TaskKey` | client/app/main.py:155 | a task key is the task prefix, the list identifier, one `_` and the task identifier, in that order |
| `Keys.ListKeyInjective` | client/app/main.py:140 | distinct list identifiers have distinct list keys |
| `Keys.KeysDisjoint` | client/app/main.py:140 | no list key equals any task key |
| `Keys.TaskKeyCollision` | client/app/main.py:155 | two different (list, task) pairs, derived from real names, have the same task key |
| `Keys.TaskKeyInjective` | client/app/main.py:50 | when list identifiers have no `_`, equal task keys imply equal lists and equal tasks |
| `Keys.TaskKeySet` | client/app/main.py:48-50 | the keys a cascade deletes include the task key of every given member and never a list key |
| `TaskFields.Label` | client/app/main.py:87-92 | every status is labelled by one of the five enumeration values |
| `TaskFields.ParseStatus` | client/app/main.py:87-92 | a label is accepted only if it is the label of the status it yields |
| `TaskFields.ParseLabel` | client/app/main.py:87-92 | every status round-trips through its label |
| `TaskFields.ExactlyFiveLabels` | client/app/main.py:87-92 | exactly the five labels are accepted, and distinct statuses have distinct labels |
| `TaskFields.NewTask` | client/app/main.py:101-105 | a task submitted with only a name and a description gets status Assigned and no due date |
| `TodoRecords.StatusCode` | client/app/main.py:141 | NotFound is reported as 404 and AlreadyExists as 409, so the two are distinguishable |
| `TodoRecords.ListKeyHoldsList` | client/app/main.py:152 | in a well-keyed cache a present list key holds a list record with that identifier |
| `TodoRecords.TaskKeyHoldsTask` | client/app/main.py:232 | in a well-keyed cache a present task key holds a task record whose own key is that key |
| `TodoRecords.ListAt` | client/app/main.py:170 | the list read under a list key has the identifier of that key |
| `TodoRecords.TaskAt` | client/app/main.py:218 | the task read under a task key is the record stored there |
| `TodoRecords.Stamp` | client/app/main.py:200 | the stored task equals the submitted one apart from the stamped identifier (derived from the name), owning list and creation date |
| `TodoRecords.Merge` | client/app/main.py:218-223 | an edit keeps name, identifier, owning list and creation date, so the record stays under its own key |
| `TodoRecords.MergeNoUpdate` | client/app/main.py:219 | an update that supplies nothing changes nothing |
| `TodoRecords.MergeFields` | client/app/main.py:95-98 | each supplied field takes the supplied value; each field not supplied keeps its old value |
| `TodoRecords.MergeStatusOnly` | client/app/main.py:222 | setting only the status changes only the status |
| `TodoRecords.MergeIdempotent` | client/app/main.py:222 | repeating an edit has no further effect |
| `TodoRecords.MergeThen` | client/app/main.py:219-224 | two successive edit requests act as one edit with their combined update (`Then`, later supplied fields win) |
| `TodoRecords.Resolve` | client/app/main.py:155-156 | a member resolves to the full record exactly when its task key is present and holds a task, and otherwise to its bare identifier |
| `TodoRecords.Expand` | client/app/main.py:154-156 | expansion keeps the length; entry i is the full record if the task key of member i holds one, otherwise the bare identifier |
| `TodoRecords.Ids` | client/app/main.py:122 | every returned entry stands for one identifier, in order |
| `TodoRecords.ListViewAt` | client/app/main.py:150-157 | a read returns the list with its own identifier and as many entries as stored members |
| `TodoRecords.PlainKeepsIds` | client/app/main.py:157 | an unexpanded read returns exactly the stored members |
| `TodoRecords.ExpandAfterEvict` | client/app/main.py:155 | evicting one key turns back to bare identifiers exactly the members stored under it, and changes no other entry |
| `TodoRecords.ExpandTolerant` | client/app/main.py:155 | a member whose task key is missing is returned bare instead of failing the read |
| `TodoRecords.ExpandKeepsIds` | client/app/main.py:155-156 | with separator-free list identifiers, expansion keeps every identifier and shows only the list's own tasks |
| `TodoRecords.RemoveFirst` | client/app/main.py:251 | a non-member leaves the members unchanged; otherwise there is one member fewer |
| `TodoRecords.RemoveFirstMultiset` | client/app/main.py:251 | exactly one copy of the identifier is removed and every other member stays |
| `TodoRecords.RemoveFirstAt` | client/app/main.py:251 | it is the first occurrence that is removed, and everything else keeps its order |
| `TodoRecords.RemoveFirstAfterAppend` | client/app/main.py:205 | removing an identifier undoes appending it to a list that did not hold it |
| `TodoStore.Store.constructor` | client/app/main.py:43-45 | a process starts against the given cache with an empty known set |
| `TodoStore.Store.Evict` | client/app/main.py:35 | eviction removes one key and changes nothing else, including the known set |
| `TodoStore.Store.DeleteTasks` | client/app/main.py:48-50 | the cache loses exactly the task keys of the given members; keys already gone are not an error |
| `TodoStore.Store.CreateList` | client/app/main.py:137-145 | a present key gives AlreadyExists and changes nothing; otherwise an empty list with the derived identifier is stored under its key, and the identifier joins the known set |
| `TodoStore.Store.GetList` | client/app/main.py:148-157 | a missing list gives NotFound; otherwise the stored list is returned, with members expanded on request; the store is not modified |
| `TodoStore.Store.DeleteList` | client/app/main.py:164-180 | a missing list gives NotFound and changes nothing; otherwise the list key and every member's task key are gone, other keys are unchanged, the identifier leaves the known set, and the response names the stored members (Unhandled if the identifier was not known) |
| `TodoStore.Store.AddTask` | client/app/main.py:187-208 | a missing list gives NotFound (checked first) and a present task key gives AlreadyExists, changing nothing; otherwise the stamped task is written first and then the list read at entry, with the identifier appended |
| `TodoStore.Store.EditTask` | client/app/main.py:212-225 | a missing task gives NotFound; otherwise only that task's key changes, to the merged record |
| `TodoStore.Store.GetTask` | client/app/main.py:229-232 | a missing task gives NotFound; otherwise the stored record, with the store not modified |
| `TodoStore.Store.DeleteTask` | client/app/main.py:239-258 | a missing list (checked first) or task gives NotFound and changes nothing; otherwise the task key is gone, and the list is rewritten with the first occurrence removed only if the identifier was a member |
| `TodoStore.Store.BackupData` | client/app/main.py:262-263 | succeeds exactly when every known list is present, then gives each known list read expanded, in enumeration order; otherwise NotFound |
| `Scenarios.WorkScenario` | client/app/main.py:137-180 | create, add, expanded read (one full member, status Assigned), delete (reports the member), then the read gives NotFound |
| `Scenarios.DuplicateCreate` | client/app/main.py:140-141 | a second create with the same derived identifier fails and the first list is unchanged |
| `Scenarios.AddThenGet` | client/app/main.py:186-232 | after adding to a fresh list, the task reads back as submitted plus stamps, and the list holds its identifier once |
| `Scenarios.DeleteTaskTwice` | client/app/main.py:239-258 | a second delete of the same task gives NotFound and the members stay as after the first |
| `Scenarios.EvictionTolerated` | client/app/main.py:153-157 | an expanded read after a member's eviction succeeds and shows it bare |
| `Scenarios.BackupAfterEviction` | client/app/main.py:263 | evicting a known list makes the whole backup fail with NotFound |
| `Scenarios.CrossListDelete` | client/app/main.py:245 | through the key collision, deleting a task of list "a" destroys the record of a member of list "a_b" |
| `Part1Records.StatusCode` | parte_1/app/main.py:130 | NotFound is reported as 404 and a duplicate as 403 |
| `Part1Records.ListKeyHoldsList` | parte_1/app/main.py:140 | in a well-keyed cache a present list key holds the list with that name |
| `Part1Records.TaskKeyHoldsTask` | parte_1/app/main.py:191 | in a well-keyed cache a present task key holds a task record |
| `Part1Records.ListAt` | parte_1/app/main.py:158 | the list read under a list key has the name of that key |
| `Part1Records.TaskAt` | parte_1/app/main.py:191 | the task read under a task key is the record stored there |
| `Part1Records.Stamp` | parte_1/app/main.py:179 | the stored task equals the submitted one apart from the owning list and creation date, and sits under the key of its raw name |
| `Part1Records.Merge` | parte_1/app/main.py:191-196 | each supplied field among description, status and due date takes the supplied value and each unsupplied one keeps its own; name, owning list and creation date are kept, so the key is unchanged; the empty update changes nothing |
| `Part1Records.MergeThen` | parte_1/app/main.py:192-197 | two successive edit requests act as one edit with their combined update (`Then`, later supplied fields win) |
| `Part1Records.Resolve` | parte_1/app/main.py:143-144 | a member resolves to the full record exactly when its task key is present and holds a task, and otherwise to its bare name |
| `Part1Records.Expand` | parte_1/app/main.py:142-144 | expansion keeps the length; entry i is the full record when present, otherwise the bare name |
| `Part1Records.ListViewAt` | parte_1/app/main.py:138-145 | a read returns the list with its own name and as many entries as stored members |
| `Part1Records.ExpandTolerant` | parte_1/app/main.py:143 | an evicted member is returned bare instead of failing the read |
| `Part1Store.Store.constructor` | parte_1/app/main.py:77 | a process starts against the given cache |
| `Part1Store.Store.Evict` | parte_1/app/main.py:12 | eviction removes one key and nothing else |
| `Part1Store.Store.DeleteTasks` | parte_1/app/main.py:80-82 | the cache loses exactly the task keys of the given members |
| `Part1Store.Store.CreateList` | parte_1/app/main.py:128-133 | the raw name is the key; a present key gives AlreadyExists (403) and changes nothing; otherwise an empty list is stored |
| `Part1Store.Store.GetList` | parte_1/app/main.py:137-145 | a missing list gives NotFound; otherwise the stored list, members expanded on request with evicted ones left bare |
| `Part1Store.Store.DeleteList` | parte_1/app/main.py:152-167 | a missing list gives NotFound; otherwise exactly the list key and the member keys are gone, and the members are returned |
| `Part1Store.Store.AddTask` | parte_1/app/main.py:174-181 | no check that the list exists; a present task key gives AlreadyExists (403), changing nothing; otherwise only the task key is written, owned by the given list |
| `Part1Store.Store.EditTask` | parte_1/app/main.py:185-198 | a missing task gives NotFound; otherwise only that task's key changes, to the merged record, in which each supplied field is overwritten and the others are kept (`Part1Records.Merge`) |
| `Part1Store.Store.GetTaskAsWritten` | parte_1/app/main.py:202-205 | never succeeds: NotFound when the task key is missing, Unhandled when it is present |
| `Part1Store.Store.GetTask` | parte_1/app/main.py:203-204 | the corrected read: NotFound when missing, otherwise the stored record |
| `Part1Store.Store.DeleteTask` | parte_1/app/main.py:212-220 | only the task key is checked and deleted; a missing key gives NotFound; no list record is touched |
| `Part1Scenarios.AddWithoutList` | parte_1/app/main.py:174-205 | a task can be added to a missing list, which stays missing; the read as written fails, the corrected read returns the stored task |
| `Part1Scenarios.DeleteTaskKeepsList` | parte_1/app/main.py:152-220 | deleting a task leaves the list untouched; deleting the list then reports its stored (empty) members |

## Findings

| source | as written | input that shows it | evidently intended | confidence | as-written member | corrected member |
|---|---|---|---|---|---|---|
| parte_1/app/main.py:205 | the bytes read from the cache are unpacked with `**` into the record constructor without being decoded, which raises a TypeError, so reading an existing task always ends in status 500 | add task "T" to list "L", then read task "T" of list "L" | decode the payload first, as the edit handler does at line 191, and return the stored record | high (not executed) | `Part1Store.Store.GetTaskAsWritten` | `Part1Store.Store.GetTask` |

## Left out

- The web framework: the app object, routing, redirects, startup and shutdown hooks, response models, and the message and detail strings. Of the HTTP status codes, only the ones that tell the errors apart are kept (`StatusCode`).
- parte_1/app/main.py:148-149: the response model declares `deleted_tasks` as a string, but the handler returns a list. The framework's response validation would reject it. The model stops at the handler's return value.
- parte_1/cliente.py: a single cache write by a separate script, with no logic.
- The memcached client and the network are replaced by the `db` map. Eviction is the explicit `Evict`.
- The memcached client's own key check is not modelled: every string is a valid key in `db`. The client refuses keys that contain whitespace or control characters, are not ASCII, or are longer than 250 bytes, and the handler then ends in status 500. The model instead lets such keys through: `Part1Store.Store.CreateList` with a name holding a space (the earlier version keys lists by raw name), and every operation of either version on identifiers with a tab, a non-ASCII character or excessive length (see `Keys.NormalizeIdKeepsTab`). `Part1Scenarios.AddWithoutList` and the other scenarios hold only for names the client accepts.
- Serialization (pydantic, `json.dumps`/`json.loads`) is left out; records are stored as datatype values. `Valid()` excludes every entry these handlers would not have written. Examples are a payload in another shape, a well-formed record under a key its own identifiers do not name, and a key no handler reads, such as the one parte_1/cliente.py writes.
- pydantic input validation. One consequence: an update that explicitly sets `description` or `status` to null fails validation, and that case is not modelled.
- Timestamps (`datetime.now().strftime`) are an opaque `now` parameter.
- `make_backup`: creating the directory and writing the file are filesystem I/O and are not modelled. The Python set's iteration order becomes the `order` parameter of `BackupData`, which must list the known set exactly once each.
- Concurrency: concurrent requests racing on check-then-write and on a list's read-modify-write. Each handler is modelled as one sequential atomic step. `AddTask`'s ghost `interim` records the cache between its two writes.
