/** The records of the later version of the service (client/app/main.py), the shape
    of its cache, and the pure functions its handlers are specified with. */
module TodoRecords {
  import opened Results
  import opened Keys
  import opened TaskFields

  /** The two domain errors, and the uncaught exception a handler can end in. */
  datatype Error = NotFound | AlreadyExists | Unhandled

  /** The HTTP status each error is reported with. */
  function StatusCode(e: Error): (code: int)
    ensures code == 404 <==> e == NotFound
    ensures code == 409 <==> e == AlreadyExists
    ensures 400 <= code < 600
  {
    match e
    case NotFound => 404
    case AlreadyExists => 409
    case Unhandled => 500
  }

  /** A task as stored: the submitted fields plus those the server stamps. */
  datatype TaskInDB = TaskInDB(
    name: string,
    description: string,
    status: TaskStatus,
    dueDate: Option<string>,
    taskId: string,
    assignedList: string,
    creationDate: string)

  /** A list as the client submits it. */
  datatype TaskList = TaskList(name: string, description: Option<string>)

  /** A list as stored: its members are task identifiers, in insertion order. */
  datatype TaskListInDB = TaskListInDB(
    name: string,
    description: Option<string>,
    listId: string,
    creationDate: string,
    tasks: seq<string>)

  /** A member of a list as returned: a bare identifier, or the full task record. */
  datatype Entry = Bare(id: string) | Full(task: TaskInDB)

  /** A list as returned by a read, with its members expanded or not. */
  datatype ListView = ListView(
    name: string,
    description: Option<string>,
    listId: string,
    creationDate: string,
    tasks: seq<Entry>)

  /** A cache value. */
  datatype Record = ListRec(list: TaskListInDB) | TaskRec(task: TaskInDB)

  /** The response of a list deletion. */
  datatype DeletedList = DeletedList(listId: string, deletedTasks: seq<string>)

  /** The response of a task deletion. */
  datatype DeletedTask = DeletedTask(taskId: string, listId: string)

  /** The key-value cache: keys to records. */
  type Cache = map<string, Record>

  /** The key a record is written under, named by its own identifiers. */
  function KeyOf(rec: Record): string {
    match rec
    case ListRec(l) => ListKey(l.listId)
    case TaskRec(t) => TaskKey(t.assignedList, t.taskId)
  }

  /** Key discipline: every record in the cache sits under its own key. */
  ghost predicate WellKeyed(db: Cache) {
    forall k | k in db :: KeyOf(db[k]) == k
  }

  /** In a well-keyed cache a list key holds the record of that very list. */
  lemma ListKeyHoldsList(db: Cache, listId: string)
    requires WellKeyed(db) && ListKey(listId) in db
    ensures db[ListKey(listId)].ListRec?
    ensures db[ListKey(listId)].list.listId == listId
  {
    KeysDisjoint();
    var rec := db[ListKey(listId)];
    if rec.ListRec? {
      ListKeyInjective(rec.list.listId, listId);
    }
  }

  /** In a well-keyed cache a task key holds a task record named by the same key. */
  lemma TaskKeyHoldsTask(db: Cache, listId: string, taskId: string)
    requires WellKeyed(db) && TaskKey(listId, taskId) in db
    ensures db[TaskKey(listId, taskId)].TaskRec?
    ensures var t := db[TaskKey(listId, taskId)].task; TaskKey(t.assignedList, t.taskId) == TaskKey(listId, taskId)
  {
    KeysDisjoint();
  }

  /** The stored list with identifier `listId`. */
  function ListAt(db: Cache, listId: string): (l: TaskListInDB)
    requires WellKeyed(db) && ListKey(listId) in db
    ensures db[ListKey(listId)] == ListRec(l) && l.listId == listId
  {
    ListKeyHoldsList(db, listId);
    db[ListKey(listId)].list
  }

  /** The stored task under the key of task `taskId` of list `listId`. */
  function TaskAt(db: Cache, listId: string, taskId: string): (t: TaskInDB)
    requires WellKeyed(db) && TaskKey(listId, taskId) in db
    ensures db[TaskKey(listId, taskId)] == TaskRec(t)
  {
    TaskKeyHoldsTask(db, listId, taskId);
    db[TaskKey(listId, taskId)].task
  }

  /** The stored form of a submitted task: identifier derived from its name, owning
      list and creation date stamped. */
  function Stamp(data: Task, listId: string, now: string): (t: TaskInDB)
    ensures Unstamp(t) == data
    ensures t.taskId == NormalizeId(data.name) && t.assignedList == listId && t.creationDate == now
  {
    TaskInDB(data.name, data.description, data.status, data.dueDate, NormalizeId(data.name), listId, now)
  }

  /** The submitted fields of a stored task. */
  function Unstamp(t: TaskInDB): Task {
    Task(t.name, t.description, t.status, t.dueDate)
  }

  /** A partial update applied to a stored task: supplied fields overwrite, the others stay. */
  function Merge(t: TaskInDB, u: UpdatedTaskData): (r: TaskInDB)
    ensures r.name == t.name && r.taskId == t.taskId
    ensures r.assignedList == t.assignedList && r.creationDate == t.creationDate
    ensures KeyOf(TaskRec(r)) == KeyOf(TaskRec(t))
  {
    t.(description := u.description.GetOr(t.description),
       status := u.status.GetOr(t.status),
       dueDate := u.dueDate.GetOr(t.dueDate))
  }

  /** The empty update changes nothing. */
  lemma MergeNoUpdate(t: TaskInDB)
    ensures Merge(t, NoUpdate) == t
  {
  }

  /** A field the update supplies takes the supplied value; a field it leaves out keeps its value. */
  lemma MergeFields(t: TaskInDB, u: UpdatedTaskData)
    ensures Merge(t, u).description == (if u.description.Some? then u.description.value else t.description)
    ensures Merge(t, u).status == (if u.status.Some? then u.status.value else t.status)
    ensures Merge(t, u).dueDate == (if u.dueDate.Some? then u.dueDate.value else t.dueDate)
  {
  }

  /** Setting only the status changes only the status. */
  lemma MergeStatusOnly(t: TaskInDB, s: TaskStatus)
    ensures Merge(t, UpdatedTaskData(None, Some(s), None)) == t.(status := s)
  {
  }

  /** Applying the same update twice is the same as applying it once. */
  lemma MergeIdempotent(t: TaskInDB, u: UpdatedTaskData)
    ensures Merge(Merge(t, u), u) == Merge(t, u)
  {
  }

  /** Two successive edits have the effect of their combined update. */
  lemma MergeThen(t: TaskInDB, u: UpdatedTaskData, v: UpdatedTaskData)
    ensures Merge(Merge(t, u), v) == Merge(t, Then(u, v))
  {
  }

  /** A member identifier resolved against the cache: the full record when its task
      key holds one, otherwise the bare identifier. */
  function Resolve(db: Cache, listId: string, taskId: string): (e: Entry)
    ensures e.Full? <==> TaskKey(listId, taskId) in db && db[TaskKey(listId, taskId)].TaskRec?
    ensures e.Full? ==> e.task == db[TaskKey(listId, taskId)].task
    ensures e.Bare? ==> e.id == taskId
  {
    var k := TaskKey(listId, taskId);
    if k in db && db[k].TaskRec? then Full(db[k].task) else Bare(taskId)
  }

  /** The members of list `listId`, each resolved against the cache. */
  function Expand(db: Cache, listId: string, tasks: seq<string>): (r: seq<Entry>)
    ensures |r| == |tasks|
    ensures forall i :: 0 <= i < |tasks| ==> r[i] == Resolve(db, listId, tasks[i])
  {
    if tasks == [] then [] else [Resolve(db, listId, tasks[0])] + Expand(db, listId, tasks[1..])
  }

  /** The members as bare identifiers. */
  function Plain(tasks: seq<string>): seq<Entry> {
    seq(|tasks|, i requires 0 <= i < |tasks| => Bare(tasks[i]))
  }

  /** The identifier an entry stands for. */
  function EntryId(e: Entry): string {
    match e
    case Bare(id) => id
    case Full(t) => t.taskId
  }

  /** The identifiers of a sequence of entries. */
  function Ids(entries: seq<Entry>): (ids: seq<string>)
    ensures |ids| == |entries|
    ensures forall i :: 0 <= i < |entries| ==> ids[i] == EntryId(entries[i])
  {
    if entries == [] then [] else [EntryId(entries[0])] + Ids(entries[1..])
  }

  /** A stored list as returned, with the given member entries. */
  function ViewOf(l: TaskListInDB, entries: seq<Entry>): ListView {
    ListView(l.name, l.description, l.listId, l.creationDate, entries)
  }

  /** What reading list `listId` returns, with members expanded or not. */
  function ListViewAt(db: Cache, listId: string, expand: bool): (v: ListView)
    requires WellKeyed(db) && ListKey(listId) in db
    ensures v.listId == listId && |v.tasks| == |ListAt(db, listId).tasks|
  {
    var l := ListAt(db, listId);
    ViewOf(l, if expand then Expand(db, listId, l.tasks) else Plain(l.tasks))
  }

  /** Reading does not lose or reorder members: identifiers of an unexpanded read are the stored ones. */
  lemma PlainKeepsIds(tasks: seq<string>)
    ensures Ids(Plain(tasks)) == tasks
  {
  }

  /** Evicting one key turns exactly the members stored under that key back into
      bare identifiers, and leaves every other entry as it was. */
  lemma ExpandAfterEvict(db: Cache, key: string, listId: string, tasks: seq<string>)
    ensures forall i :: 0 <= i < |tasks| ==>
      Expand(db - {key}, listId, tasks)[i] ==
        (if TaskKey(listId, tasks[i]) == key then Bare(tasks[i]) else Expand(db, listId, tasks)[i])
  {
  }

  /** A member whose task key is missing stays a bare identifier, so expansion never fails. */
  lemma ExpandTolerant(db: Cache, listId: string, tasks: seq<string>, i: nat)
    requires i < |tasks| && TaskKey(listId, tasks[i]) !in db
    ensures Expand(db, listId, tasks)[i] == Bare(tasks[i])
  {
  }

  /** No task record names a list identifier that holds the separator. */
  ghost predicate SeparatorFreeOwners(db: Cache) {
    forall k | k in db && db[k].TaskRec? :: Separator !in db[k].task.assignedList
  }

  /** When list identifiers hold no separator, every expanded entry is the record of
      that list's own member, so expansion keeps the identifiers. Without that
      condition the key collision of `TaskKeyCollision` lets another list's task appear. */
  lemma ExpandKeepsIds(db: Cache, listId: string, tasks: seq<string>)
    requires WellKeyed(db) && SeparatorFreeOwners(db) && Separator !in listId
    ensures Ids(Expand(db, listId, tasks)) == tasks
    ensures forall i :: 0 <= i < |tasks| && Expand(db, listId, tasks)[i].Full? ==>
      Expand(db, listId, tasks)[i].task.assignedList == listId
  {
    var e := Expand(db, listId, tasks);
    forall i | 0 <= i < |tasks|
      ensures EntryId(e[i]) == tasks[i]
      ensures e[i].Full? ==> e[i].task.assignedList == listId
    {
      if e[i].Full? {
        var k := TaskKey(listId, tasks[i]);
        var t := db[k].task;
        assert KeyOf(db[k]) == k;
        TaskKeyInjective(t.assignedList, t.taskId, listId, tasks[i]);
      }
    }
  }

  /** The list's members with the first occurrence of `x` taken out (Python's `list.remove`). */
  function RemoveFirst(s: seq<string>, x: string): (r: seq<string>)
    ensures x !in s ==> r == s
    ensures x in s ==> |r| == |s| - 1
  {
    if s == [] then []
    else if s[0] == x then s[1..]
    else [s[0]] + RemoveFirst(s[1..], x)
  }

  /** Exactly one copy of `x` is removed, and nothing else. */
  lemma {:induction false} RemoveFirstMultiset(s: seq<string>, x: string)
    ensures multiset(RemoveFirst(s, x)) == multiset(s) - multiset{x}
  {
    if s != [] {
      assert s == [s[0]] + s[1..];
      if s[0] != x {
        RemoveFirstMultiset(s[1..], x);
      }
    }
  }

  /** The occurrence removed is the first one: everything before it and after it stays in order. */
  lemma {:induction false} RemoveFirstAt(s: seq<string>, x: string, i: nat)
    requires i < |s| && s[i] == x && x !in s[..i]
    ensures RemoveFirst(s, x) == s[..i] + s[i + 1..]
  {
    if i == 0 {
      assert s[..0] + s[1..] == s[1..];
    } else {
      var t := s[1..];
      assert s[0] in s[..i];
      assert t[..i - 1] == s[1..i] && t[i..] == s[i + 1..] && t[i - 1] == x;
      RemoveFirstAt(t, x, i - 1);
      assert RemoveFirst(s, x) == [s[0]] + RemoveFirst(t, x);
      assert [s[0]] + s[1..i] == s[..i];
    }
  }

  /** Removing the first occurrence undoes appending to a list that did not hold it. */
  lemma {:induction false} RemoveFirstAfterAppend(s: seq<string>, x: string)
    requires x !in s
    ensures RemoveFirst(s + [x], x) == s
  {
    assert (s + [x])[..|s|] == s;
    RemoveFirstAt(s + [x], x, |s|);
  }
}
