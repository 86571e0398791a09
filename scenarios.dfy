/** Request sequences against a fresh store, replaying the behaviour the service
    promises: what a caller can conclude from the handlers' contracts alone. */
module Scenarios {
  import opened Results
  import opened Keys
  import opened TaskFields
  import opened TodoRecords
  import TodoStore

  /** Create a list, add one task with the default status, read the list expanded,
      delete the list, read it again (for "Work" and "Report", say). */
  method WorkScenario(listName: string, taskName: string, description: string, now: string)
    returns (expanded: Result<ListView, Error>, deleted: Result<DeletedList, Error>, after: Result<ListView, Error>)
    requires ' ' !in listName && ' ' !in taskName
    ensures expanded.Ok? && |expanded.value.tasks| == 1
    ensures expanded.value.tasks[0].Full? && expanded.value.tasks[0].task.status == Assigned
    ensures deleted == Ok(DeletedList(listName, [taskName]))
    ensures after == Err(NotFound)
  {
    NormalizeIdFixesSpaceFree(listName);
    NormalizeIdFixesSpaceFree(taskName);
    KeysDisjoint();
    var s := new TodoStore.Store(map[]);
    var created := s.CreateList(TaskList(listName, None), now);
    assert s.known == {listName};
    var added, _ := s.AddTask(listName, NewTask(taskName, description), now);
    assert ListAt(s.db, listName).tasks == [taskName];
    expanded := s.GetList(listName, true);
    deleted := s.DeleteList(listName);
    after := s.GetList(listName, false);
  }

  /** Creating a second list whose name derives the same identifier fails with
      AlreadyExists and leaves the first list's data as it was. */
  method DuplicateCreate(first: TaskList, second: TaskList, now: string, later: string)
    returns (r1: Result<TaskListInDB, Error>, r2: Result<TaskListInDB, Error>, read: Result<ListView, Error>)
    requires NormalizeId(first.name) == NormalizeId(second.name)
    ensures r1.Ok? && r2 == Err(AlreadyExists)
    ensures read.Ok? && read.value == ListView(first.name, first.description, NormalizeId(first.name), now, [])
  {
    var s := new TodoStore.Store(map[]);
    r1 := s.CreateList(first, now);
    r2 := s.CreateList(second, later);
    read := s.GetList(NormalizeId(first.name), false);
  }

  /** After a task is added to a fresh list, reading it back gives the submitted task plus
      the server-stamped fields, and the list holds its identifier exactly once. */
  method AddThenGet(list: TaskList, data: Task, now: string)
    returns (got: Result<TaskInDB, Error>, read: Result<ListView, Error>)
    ensures got.Ok? && Unstamp(got.value) == data
    ensures got.value.assignedList == NormalizeId(list.name) && got.value.taskId == NormalizeId(data.name)
    ensures read.Ok? && read.value.tasks == [Bare(NormalizeId(data.name))]
  {
    KeysDisjoint();
    var listId, taskId := NormalizeId(list.name), NormalizeId(data.name);
    var s := new TodoStore.Store(map[]);
    var created := s.CreateList(list, now);
    var added, _ := s.AddTask(listId, data, now);
    got := s.GetTask(listId, taskId);
    read := s.GetList(listId, false);
  }

  /** Deleting the same task twice: the second call fails with NotFound and does not
      change the list's members. */
  method DeleteTaskTwice(list: TaskList, data: Task, now: string)
    returns (first: Result<DeletedTask, Error>, second: Result<DeletedTask, Error>, read: Result<ListView, Error>)
    ensures first.Ok? && second == Err(NotFound)
    ensures read.Ok? && read.value.tasks == []
  {
    KeysDisjoint();
    var listId, taskId := NormalizeId(list.name), NormalizeId(data.name);
    var s := new TodoStore.Store(map[]);
    var created := s.CreateList(list, now);
    var added, _ := s.AddTask(listId, data, now);
    RemoveFirstAfterAppend([], taskId);
    first := s.DeleteTask(listId, taskId);
    second := s.DeleteTask(listId, taskId);
    read := s.GetList(listId, false);
  }

  /** A member whose task record was evicted is returned as its bare identifier by an
      expanded read, which still succeeds. */
  method EvictionTolerated(list: TaskList, data: Task, now: string) returns (read: Result<ListView, Error>)
    ensures read.Ok? && read.value.tasks == [Bare(NormalizeId(data.name))]
  {
    KeysDisjoint();
    var listId, taskId := NormalizeId(list.name), NormalizeId(data.name);
    var s := new TodoStore.Store(map[]);
    var created := s.CreateList(list, now);
    var added, _ := s.AddTask(listId, data, now);
    s.Evict(TaskKey(listId, taskId));
    read := s.GetList(listId, true);
  }

  /** Once the record of a known list is evicted, the whole backup fails with NotFound. */
  method BackupAfterEviction(list: TaskList, now: string) returns (backup: Result<seq<ListView>, Error>)
    ensures backup == Err(NotFound)
  {
    var listId := NormalizeId(list.name);
    var s := new TodoStore.Store(map[]);
    var created := s.CreateList(list, now);
    s.Evict(ListKey(listId));
    backup := s.BackupData([listId]);
  }

  /** Key collision across lists: with lists "a b" and "a", deleting task "b_c" of list
      "a" succeeds by deleting the record of task "c" of list "a_b", which list "a_b"
      still names as a member. */
  method CrossListDelete(now: string)
    returns (deleted: Result<DeletedTask, Error>, got: Result<TaskInDB, Error>, read: Result<ListView, Error>)
    ensures deleted == Ok(DeletedTask("b_c", "a"))
    ensures got == Err(NotFound)
    ensures read.Ok? && read.value.tasks == [Bare("c")]
  {
    TaskKeyCollision();
    KeysDisjoint();
    NormalizeIdFixesSpaceFree("a");
    NormalizeIdFixesSpaceFree("c");
    ListKeyInjective("a_b", "a");
    var s := new TodoStore.Store(map[]);
    var l1 := s.CreateList(TaskList("a b", None), now);
    var added, _ := s.AddTask("a_b", NewTask("c", ""), now);
    var l2 := s.CreateList(TaskList("a", None), now);
    deleted := s.DeleteTask("a", "b_c");
    got := s.GetTask("a_b", "c");
    read := s.GetList("a_b", true);
  }
}
