/** The data-access layer of the earlier version of the service (parte_1/app/main.py):
    raw names as identifiers, no membership maintenance, no set of known lists. */
module Part1Store {
  import opened Results
  import opened Keys
  import opened TaskFields
  import opened Part1Records

  class Store {
    /** The cache contents. */
    var db: Cache

    ghost predicate Valid()
      reads this
    {
      WellKeyed(db)
    }

    constructor (cache: Cache)
      requires WellKeyed(cache)
      ensures Valid() && db == cache
    {
      db := cache;
    }

    /** The cache drops an entry on its own. */
    method Evict(key: string)
      requires Valid()
      modifies this
      ensures Valid() && db == old(db) - {key}
    {
      db := db - {key};
    }

    /** Best-effort deletion of the task keys of the given members. */
    method DeleteTasks(listName: string, tasks: seq<string>)
      requires Valid()
      modifies this
      ensures Valid() && db == old(db) - TaskKeySet(listName, tasks)
    {
      var i := 0;
      while i < |tasks|
        invariant 0 <= i <= |tasks| && Valid()
        invariant db == old(db) - TaskKeySet(listName, tasks[..i])
      {
        assert TaskKeySet(listName, tasks[..i + 1]) == TaskKeySet(listName, tasks[..i]) + {TaskKey(listName, tasks[i])} by {
          assert tasks[..i + 1] == tasks[..i] + [tasks[i]];
        }
        db := db - {TaskKey(listName, tasks[i])};
        i := i + 1;
      }
      assert tasks[..i] == tasks;
    }

    /** Creates a list keyed by its raw name: AlreadyExists, changing nothing, when the
        key is present; otherwise an empty list is stored under it. */
    method CreateList(data: TaskList, now: string) returns (r: Result<TaskListInDB, Error>)
      requires Valid()
      modifies this
      ensures Valid()
      ensures ListKey(data.name) in old(db) ==> r == Err(AlreadyExists) && db == old(db)
      ensures ListKey(data.name) !in old(db) ==>
        && r == Ok(TaskListInDB(data.name, data.description, now, []))
        && db == old(db)[ListKey(data.name) := ListRec(r.value)]
    {
      if ListKey(data.name) in db {
        return Err(AlreadyExists);
      }
      var list := TaskListInDB(data.name, data.description, now, []);
      db := db[ListKey(data.name) := ListRec(list)];
      r := Ok(list);
    }

    /** Reads a list: NotFound when its key is missing; with `getTaskData`, members
        whose task key is present are expanded and the others stay bare names. */
    method GetList(listName: string, getTaskData: bool) returns (r: Result<ListView, Error>)
      requires Valid()
      ensures ListKey(listName) !in db ==> r == Err(NotFound)
      ensures ListKey(listName) in db ==> r == Ok(ListViewAt(db, listName, getTaskData))
    {
      if ListKey(listName) !in db {
        return Err(NotFound);
      }
      var list := ListAt(db, listName);
      var entries := Plain(list.tasks);
      if getTaskData {
        var i := 0;
        while i < |list.tasks|
          invariant 0 <= i <= |list.tasks| && |entries| == |list.tasks|
          invariant forall j :: 0 <= j < i ==> entries[j] == Resolve(db, listName, list.tasks[j])
          invariant forall j :: i <= j < |list.tasks| ==> entries[j] == Bare(list.tasks[j])
        {
          if TaskKey(listName, list.tasks[i]) in db {
            entries := entries[i := Full(TaskAt(db, listName, list.tasks[i]))];
          }
          i := i + 1;
        }
        assert entries == Expand(db, listName, list.tasks);
      }
      r := Ok(ListView(list.name, list.description, list.creationDate, entries));
    }

    /** Deletes a list and, best effort, its members' task keys: NotFound, changing
        nothing, when the list key is missing; otherwise exactly the list key and the
        member keys are gone, and the members are returned. */
    method DeleteList(listName: string) returns (r: Result<DeletedList, Error>)
      requires Valid()
      modifies this
      ensures Valid()
      ensures ListKey(listName) !in old(db) ==> r == Err(NotFound) && db == old(db)
      ensures ListKey(listName) in old(db) ==>
        var members := ListAt(old(db), listName).tasks;
        && r == Ok(DeletedList(listName, members))
        && db == old(db) - TaskKeySet(listName, members) - {ListKey(listName)}
    {
      if ListKey(listName) !in db {
        return Err(NotFound);
      }
      var members := ListAt(db, listName).tasks;
      DeleteTasks(listName, members);
      db := db - {ListKey(listName)};
      r := Ok(DeletedList(listName, members));
    }

    /** Adds a task without checking that the list exists: AlreadyExists, changing
        nothing, when the task key is present; otherwise only the task key is written,
        and the list's members are never changed. */
    method AddTask(listName: string, data: Task, now: string) returns (r: Result<TaskInDB, Error>)
      requires Valid()
      modifies this
      ensures Valid()
      ensures TaskKey(listName, data.name) in old(db) ==> r == Err(AlreadyExists) && db == old(db)
      ensures TaskKey(listName, data.name) !in old(db) ==>
        && r == Ok(Stamp(data, listName, now))
        && db == old(db)[TaskKey(listName, data.name) := TaskRec(r.value)]
    {
      if TaskKey(listName, data.name) in db {
        return Err(AlreadyExists);
      }
      var task := Stamp(data, listName, now);
      db := db[TaskKey(listName, data.name) := TaskRec(task)];
      r := Ok(task);
    }

    /** Applies a partial update: NotFound, changing nothing, when the task key is
        missing; otherwise only that key is rewritten, with the merged record. */
    method EditTask(listName: string, taskId: string, update: UpdatedTaskData) returns (r: Result<TaskInDB, Error>)
      requires Valid()
      modifies this
      ensures Valid()
      ensures TaskKey(listName, taskId) !in old(db) ==> r == Err(NotFound) && db == old(db)
      ensures TaskKey(listName, taskId) in old(db) ==>
        && r == Ok(Merge(TaskAt(old(db), listName, taskId), update))
        && db == old(db)[TaskKey(listName, taskId) := TaskRec(r.value)]
    {
      if TaskKey(listName, taskId) !in db {
        return Err(NotFound);
      }
      var task := Merge(TaskAt(db, listName, taskId), update);
      db := db[TaskKey(listName, taskId) := TaskRec(task)];
      r := Ok(task);
    }

    /** The task read as written: NotFound when the key is missing, and otherwise the
        raw payload is handed to the record constructor undecoded, which raises, so
        the call never succeeds. */
    method GetTaskAsWritten(listName: string, taskId: string) returns (r: Result<TaskInDB, Error>)
      requires Valid()
      ensures r.Err?
      ensures r.error == (if TaskKey(listName, taskId) in db then Unhandled else NotFound)
    {
      if TaskKey(listName, taskId) !in db {
        return Err(NotFound);
      }
      r := Err(Unhandled);
    }

    /** The task read as intended, decoding the payload first: NotFound when the key is
        missing, otherwise the stored record. */
    method GetTask(listName: string, taskId: string) returns (r: Result<TaskInDB, Error>)
      requires Valid()
      ensures TaskKey(listName, taskId) !in db ==> r == Err(NotFound)
      ensures TaskKey(listName, taskId) in db ==> r == Ok(TaskAt(db, listName, taskId))
    {
      if TaskKey(listName, taskId) !in db {
        return Err(NotFound);
      }
      r := Ok(TaskAt(db, listName, taskId));
    }

    /** Deletes a task key only: NotFound, changing nothing, when it is missing;
        otherwise that key alone is gone and no list record is touched. */
    method DeleteTask(listName: string, taskId: string) returns (r: Result<DeletedTask, Error>)
      requires Valid()
      modifies this
      ensures Valid()
      ensures TaskKey(listName, taskId) !in old(db) ==> r == Err(NotFound) && db == old(db)
      ensures TaskKey(listName, taskId) in old(db) ==>
        r == Ok(DeletedTask(taskId, listName)) && db == old(db) - {TaskKey(listName, taskId)}
    {
      if TaskKey(listName, taskId) !in db {
        return Err(NotFound);
      }
      db := db - {TaskKey(listName, taskId)};
      r := Ok(DeletedTask(taskId, listName));
    }
  }
}
