/** The records of the earlier version of the service (parte_1/app/main.py). Lists and
    tasks carry no separate identifier: their raw names are used in the keys. */
module Part1Records {
  import opened Results
  import opened Keys
  import opened TaskFields

  /** The two domain errors, and the uncaught exception a handler can end in. */
  datatype Error = NotFound | AlreadyExists | Unhandled

  /** The HTTP status each error is reported with; this version reports a duplicate with 403. */
  function StatusCode(e: Error): (code: int)
    ensures code == 404 <==> e == NotFound
    ensures code == 403 <==> e == AlreadyExists
    ensures 400 <= code < 600
  {
    match e
    case NotFound => 404
    case AlreadyExists => 403
    case Unhandled => 500
  }

  /** A task as stored: the submitted fields plus its owning list and creation date. */
  datatype TaskInDB = TaskInDB(
    name: string,
    description: string,
    status: TaskStatus,
    dueDate: Option<string>,
    assignedList: string,
    creationDate: string)

  /** A list as the client submits it. */
  datatype TaskList = TaskList(name: string, description: Option<string>)

  /** A list as stored. */
  datatype TaskListInDB = TaskListInDB(
    name: string,
    description: Option<string>,
    creationDate: string,
    tasks: seq<string>)

  /** A member of a list as returned: a bare name, or the full task record. */
  datatype Entry = Bare(name: string) | Full(task: TaskInDB)

  /** A list as returned by a read. */
  datatype ListView = ListView(
    name: string,
    description: Option<string>,
    creationDate: string,
    tasks: seq<Entry>)

  /** A cache value. */
  datatype Record = ListRec(list: TaskListInDB) | TaskRec(task: TaskInDB)

  /** The response of a list deletion. */
  datatype DeletedList = DeletedList(listName: string, deletedTasks: seq<string>)

  /** The response of a task deletion. */
  datatype DeletedTask = DeletedTask(taskName: string, listName: string)

  /** The key-value cache: keys to records. */
  type Cache = map<string, Record>

  /** The key a record is written under. */
  function KeyOf(rec: Record): string {
    match rec
    case ListRec(l) => ListKey(l.name)
    case TaskRec(t) => TaskKey(t.assignedList, t.name)
  }

  /** Key discipline: every record in the cache sits under its own key. */
  ghost predicate WellKeyed(db: Cache) {
    forall k | k in db :: KeyOf(db[k]) == k
  }

  lemma ListKeyHoldsList(db: Cache, listName: string)
    requires WellKeyed(db) && ListKey(listName) in db
    ensures db[ListKey(listName)].ListRec?
    ensures db[ListKey(listName)].list.name == listName
  {
    KeysDisjoint();
    var rec := db[ListKey(listName)];
    if rec.ListRec? {
      ListKeyInjective(rec.list.name, listName);
    }
  }

  lemma TaskKeyHoldsTask(db: Cache, listName: string, taskName: string)
    requires WellKeyed(db) && TaskKey(listName, taskName) in db
    ensures db[TaskKey(listName, taskName)].TaskRec?
  {
    KeysDisjoint();
  }

  /** The stored list named `listName`. */
  function ListAt(db: Cache, listName: string): (l: TaskListInDB)
    requires WellKeyed(db) && ListKey(listName) in db
    ensures db[ListKey(listName)] == ListRec(l) && l.name == listName
  {
    ListKeyHoldsList(db, listName);
    db[ListKey(listName)].list
  }

  /** The stored task under the key of task `taskName` of list `listName`. */
  function TaskAt(db: Cache, listName: string, taskName: string): (t: TaskInDB)
    requires WellKeyed(db) && TaskKey(listName, taskName) in db
    ensures db[TaskKey(listName, taskName)] == TaskRec(t)
  {
    TaskKeyHoldsTask(db, listName, taskName);
    db[TaskKey(listName, taskName)].task
  }

  /** The stored form of a submitted task: owning list and creation date stamped. */
  function Stamp(data: Task, listName: string, now: string): (t: TaskInDB)
    ensures Unstamp(t) == data && t.assignedList == listName && t.creationDate == now
    ensures KeyOf(TaskRec(t)) == TaskKey(listName, data.name)
  {
    TaskInDB(data.name, data.description, data.status, data.dueDate, listName, now)
  }

  /** The submitted fields of a stored task. */
  function Unstamp(t: TaskInDB): Task {
    Task(t.name, t.description, t.status, t.dueDate)
  }

  /** A partial update applied to a stored task: supplied fields overwrite, the others stay. */
  function Merge(t: TaskInDB, u: UpdatedTaskData): (r: TaskInDB)
    ensures r.name == t.name && r.assignedList == t.assignedList && r.creationDate == t.creationDate
    ensures KeyOf(TaskRec(r)) == KeyOf(TaskRec(t))
    ensures u == NoUpdate ==> r == t
    ensures r.description == (if u.description.Some? then u.description.value else t.description)
    ensures r.status == (if u.status.Some? then u.status.value else t.status)
    ensures r.dueDate == (if u.dueDate.Some? then u.dueDate.value else t.dueDate)
  {
    t.(description := u.description.GetOr(t.description),
       status := u.status.GetOr(t.status),
       dueDate := u.dueDate.GetOr(t.dueDate))
  }

  /** Two successive edits have the effect of their combined update. */
  lemma MergeThen(t: TaskInDB, u: UpdatedTaskData, v: UpdatedTaskData)
    ensures Merge(Merge(t, u), v) == Merge(t, Then(u, v))
  {
  }

  /** A member name resolved against the cache: the full record when its task key
      holds one, otherwise the bare name. */
  function Resolve(db: Cache, listName: string, taskName: string): (e: Entry)
    ensures e.Full? <==> TaskKey(listName, taskName) in db && db[TaskKey(listName, taskName)].TaskRec?
    ensures e.Full? ==> e.task == db[TaskKey(listName, taskName)].task
    ensures e.Bare? ==> e.name == taskName
  {
    var k := TaskKey(listName, taskName);
    if k in db && db[k].TaskRec? then Full(db[k].task) else Bare(taskName)
  }

  /** The members of list `listName`, each resolved against the cache. */
  function Expand(db: Cache, listName: string, tasks: seq<string>): (r: seq<Entry>)
    ensures |r| == |tasks|
    ensures forall i :: 0 <= i < |tasks| ==> r[i] == Resolve(db, listName, tasks[i])
  {
    if tasks == [] then [] else [Resolve(db, listName, tasks[0])] + Expand(db, listName, tasks[1..])
  }

  /** The members as bare names. */
  function Plain(tasks: seq<string>): seq<Entry> {
    seq(|tasks|, i requires 0 <= i < |tasks| => Bare(tasks[i]))
  }

  /** What reading list `listName` returns, with members expanded or not. */
  function ListViewAt(db: Cache, listName: string, expand: bool): (v: ListView)
    requires WellKeyed(db) && ListKey(listName) in db
    ensures v.name == listName && |v.tasks| == |ListAt(db, listName).tasks|
  {
    var l := ListAt(db, listName);
    ListView(l.name, l.description, l.creationDate, if expand then Expand(db, listName, l.tasks) else Plain(l.tasks))
  }

  /** A member whose task key is missing stays a bare name, so expansion never fails. */
  lemma ExpandTolerant(db: Cache, listName: string, tasks: seq<string>, i: nat)
    requires i < |tasks| && TaskKey(listName, tasks[i]) !in db
    ensures Expand(db, listName, tasks)[i] == Bare(tasks[i])
  {
  }
}
