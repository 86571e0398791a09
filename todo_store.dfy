/** The data-access layer of the later version of the service (client/app/main.py):
    the cache, the process-wide set of known list identifiers, and one method per
    request handler. Each handler is one atomic step; the cache may also evict any
    key at any time (`Evict`). */
module TodoStore {
  import opened Results
  import opened Keys
  import opened TaskFields
  import opened TodoRecords

  class Store {
    /** The cache contents. */
    var db: Cache
    /** Identifiers of the lists this process has created and not deleted. */
    var known: set<string>

    ghost predicate Valid()
      reads this
    {
      WellKeyed(db)
    }

    /** A process starting against a cache that may already hold records: it knows no lists. */
    constructor (cache: Cache)
      requires WellKeyed(cache)
      ensures Valid() && db == cache && known == {}
    {
      db := cache;
      known := {};
    }

    /** The cache drops an entry on its own. */
    method Evict(key: string)
      requires Valid()
      modifies this
      ensures Valid()
      ensures db == old(db) - {key} && known == old(known)
    {
      db := db - {key};
    }

    /** Best-effort deletion of the task keys of the given members; a key already
        gone is not an error. */
    method DeleteTasks(listId: string, tasks: seq<string>)
      requires Valid()
      modifies this
      ensures Valid()
      ensures db == old(db) - TaskKeySet(listId, tasks) && known == old(known)
    {
      var i := 0;
      while i < |tasks|
        invariant 0 <= i <= |tasks|
        invariant Valid() && known == old(known)
        invariant db == old(db) - TaskKeySet(listId, tasks[..i])
      {
        assert TaskKeySet(listId, tasks[..i + 1]) == TaskKeySet(listId, tasks[..i]) + {TaskKey(listId, tasks[i])} by {
          assert tasks[..i + 1] == tasks[..i] + [tasks[i]];
        }
        db := db - {TaskKey(listId, tasks[i])};
        i := i + 1;
      }
      assert tasks[..i] == tasks;
    }

    /** Creates a list whose identifier is derived from its name. Fails with
        AlreadyExists, changing nothing, when that identifier's key is present;
        otherwise stores an empty list and records the identifier as known. */
    method CreateList(data: TaskList, now: string) returns (r: Result<TaskListInDB, Error>)
      requires Valid()
      modifies this
      ensures Valid()
      ensures var id := NormalizeId(data.name);
        if ListKey(id) in old(db) then
          r == Err(AlreadyExists) && db == old(db) && known == old(known)
        else
          && r == Ok(TaskListInDB(data.name, data.description, id, now, []))
          && db == old(db)[ListKey(id) := ListRec(r.value)]
          && known == old(known) + {id}
    {
      var listId := NormalizeId(data.name);
      if ListKey(listId) in db {
        return Err(AlreadyExists);
      }
      var list := TaskListInDB(data.name, data.description, listId, now, []);
      db := db[ListKey(listId) := ListRec(list)];
      known := known + {listId};
      r := Ok(list);
    }

    /** Reads a list. Fails with NotFound when its key is missing. With `getTaskData`,
        each member whose task key is present is replaced by its full record and every
        other member stays a bare identifier; a missing member is never an error. */
    method GetList(listId: string, getTaskData: bool) returns (r: Result<ListView, Error>)
      requires Valid()
      ensures ListKey(listId) !in db ==> r == Err(NotFound)
      ensures ListKey(listId) in db ==> r == Ok(ListViewAt(db, listId, getTaskData))
    {
      if ListKey(listId) !in db {
        return Err(NotFound);
      }
      var list := ListAt(db, listId);
      var entries := Plain(list.tasks);
      if getTaskData {
        var i := 0;
        while i < |list.tasks|
          invariant 0 <= i <= |list.tasks| && |entries| == |list.tasks|
          invariant forall j :: 0 <= j < i ==> entries[j] == Resolve(db, listId, list.tasks[j])
          invariant forall j :: i <= j < |list.tasks| ==> entries[j] == Bare(list.tasks[j])
        {
          if TaskKey(listId, list.tasks[i]) in db {
            entries := entries[i := Full(TaskAt(db, listId, list.tasks[i]))];
          }
          i := i + 1;
        }
        assert entries == Expand(db, listId, list.tasks);
      }
      r := Ok(ViewOf(list, entries));
    }

    /** Deletes a list and, best effort, every member's task key. Fails with NotFound,
        changing nothing, when the list key is missing. Otherwise the list key and all
        member keys are gone, every other key is as it was, and the identifier leaves
        the known set; the response names the members targeted. If the identifier was
        not known to this process (after a restart), the final set removal raises, so
        the deletions have happened but the call ends in Unhandled. */
    method DeleteList(listId: string) returns (r: Result<DeletedList, Error>)
      requires Valid()
      modifies this
      ensures Valid()
      ensures ListKey(listId) !in old(db) ==> r == Err(NotFound) && db == old(db) && known == old(known)
      ensures ListKey(listId) in old(db) ==>
        var members := ListAt(old(db), listId).tasks;
        && db == old(db) - TaskKeySet(listId, members) - {ListKey(listId)}
        && known == old(known) - {listId}
        && r == (if listId in old(known) then Ok(DeletedList(listId, members)) else Err(Unhandled))
    {
      if ListKey(listId) !in db {
        return Err(NotFound);
      }
      var members := ListAt(db, listId).tasks;
      DeleteTasks(listId, members);
      db := db - {ListKey(listId)};
      if listId !in known {
        return Err(Unhandled);
      }
      known := known - {listId};
      r := Ok(DeletedList(listId, members));
    }

    /** Adds a task to a list. Fails with NotFound when the list key is missing (checked
        first) and with AlreadyExists when the task key is present, changing nothing in
        both cases. Otherwise it writes the stamped task (`interim` is the cache right
        after that write), then writes back the list read at entry with the identifier
        appended, whether or not it was already a member. */
    method AddTask(listId: string, data: Task, now: string) returns (r: Result<TaskInDB, Error>, ghost interim: Cache)
      requires Valid()
      modifies this
      ensures Valid() && known == old(known)
      ensures ListKey(listId) !in old(db) ==> r == Err(NotFound) && db == old(db)
      ensures ListKey(listId) in old(db) && TaskKey(listId, NormalizeId(data.name)) in old(db) ==>
        r == Err(AlreadyExists) && db == old(db)
      ensures ListKey(listId) in old(db) && TaskKey(listId, NormalizeId(data.name)) !in old(db) ==>
        var taskId := NormalizeId(data.name);
        var list := ListAt(old(db), listId);
        && r == Ok(Stamp(data, listId, now))
        && interim == old(db)[TaskKey(listId, taskId) := TaskRec(r.value)]
        && db == interim[ListKey(listId) := ListRec(list.(tasks := list.tasks + [taskId]))]
    {
      interim := db;
      if ListKey(listId) !in db {
        return Err(NotFound), interim;
      }
      var list := ListAt(db, listId);
      var taskId := NormalizeId(data.name);
      if TaskKey(listId, taskId) in db {
        return Err(AlreadyExists), interim;
      }
      var task := Stamp(data, listId, now);
      db := db[TaskKey(listId, taskId) := TaskRec(task)];
      interim := db;
      db := db[ListKey(listId) := ListRec(list.(tasks := list.tasks + [taskId]))];
      r := Ok(task);
    }

    /** Applies a partial update to a stored task. Fails with NotFound, changing nothing,
        when the task key is missing; otherwise only that key is rewritten, with the
        merged record. */
    method EditTask(listId: string, taskId: string, update: UpdatedTaskData) returns (r: Result<TaskInDB, Error>)
      requires Valid()
      modifies this
      ensures Valid() && known == old(known)
      ensures TaskKey(listId, taskId) !in old(db) ==> r == Err(NotFound) && db == old(db)
      ensures TaskKey(listId, taskId) in old(db) ==>
        && r == Ok(Merge(TaskAt(old(db), listId, taskId), update))
        && db == old(db)[TaskKey(listId, taskId) := TaskRec(r.value)]
    {
      if TaskKey(listId, taskId) !in db {
        return Err(NotFound);
      }
      var task := Merge(TaskAt(db, listId, taskId), update);
      db := db[TaskKey(listId, taskId) := TaskRec(task)];
      r := Ok(task);
    }

    /** Reads a task: NotFound when its key is missing, otherwise the stored record. */
    method GetTask(listId: string, taskId: string) returns (r: Result<TaskInDB, Error>)
      requires Valid()
      ensures TaskKey(listId, taskId) !in db ==> r == Err(NotFound)
      ensures TaskKey(listId, taskId) in db ==> r == Ok(TaskAt(db, listId, taskId))
    {
      if TaskKey(listId, taskId) !in db {
        return Err(NotFound);
      }
      r := Ok(TaskAt(db, listId, taskId));
    }

    /** Deletes a task. Fails with NotFound, changing nothing, when the list key is
        missing (checked first) or the task key is missing. Otherwise the task key is
        gone and, when the identifier is a member, the list read at entry is written
        back with its first occurrence removed; a non-member leaves the list alone. */
    method DeleteTask(listId: string, taskId: string) returns (r: Result<DeletedTask, Error>)
      requires Valid()
      modifies this
      ensures Valid() && known == old(known)
      ensures ListKey(listId) !in old(db) ==> r == Err(NotFound) && db == old(db)
      ensures ListKey(listId) in old(db) && TaskKey(listId, taskId) !in old(db) ==>
        r == Err(NotFound) && db == old(db)
      ensures ListKey(listId) in old(db) && TaskKey(listId, taskId) in old(db) ==>
        var list := ListAt(old(db), listId);
        && r == Ok(DeletedTask(taskId, listId))
        && db == if taskId in list.tasks
                 then (old(db) - {TaskKey(listId, taskId)})[ListKey(listId) := ListRec(list.(tasks := RemoveFirst(list.tasks, taskId)))]
                 else old(db) - {TaskKey(listId, taskId)}
    {
      if ListKey(listId) !in db {
        return Err(NotFound);
      }
      var list := ListAt(db, listId);
      if TaskKey(listId, taskId) !in db {
        return Err(NotFound);
      }
      db := db - {TaskKey(listId, taskId)};
      if taskId in list.tasks {
        KeysDisjoint();
        db := db[ListKey(listId) := ListRec(list.(tasks := RemoveFirst(list.tasks, taskId)))];
      }
      r := Ok(DeletedTask(taskId, listId));
    }

    /** The data of a backup: every known list, read with its members expanded, in the
        order the known set is enumerated. One known list whose key is missing fails
        the whole backup with NotFound. */
    method BackupData(order: seq<string>) returns (r: Result<seq<ListView>, Error>)
      requires Valid()
      requires forall id :: id in order <==> id in known
      requires forall i, j :: 0 <= i < j < |order| ==> order[i] != order[j]
      ensures r.Ok? <==> forall id :: id in known ==> ListKey(id) in db
      ensures r.Err? ==> r.error == NotFound
      ensures r.Ok? ==> |r.value| == |order|
      ensures r.Ok? ==> forall i :: 0 <= i < |order| ==>
        ListKey(order[i]) in db && r.value[i] == ListViewAt(db, order[i], true)
    {
      var views: seq<ListView> := [];
      var i := 0;
      while i < |order|
        invariant 0 <= i <= |order| && |views| == i
        invariant forall j :: 0 <= j < i ==> ListKey(order[j]) in db && views[j] == ListViewAt(db, order[j], true)
      {
        var v := GetList(order[i], true);
        if v.Err? {
          return Err(NotFound);
        }
        views := views + [v.value];
        i := i + 1;
      }
      r := Ok(views);
    }
  }
}
