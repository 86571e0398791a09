/** Request sequences against a fresh store of the earlier version of the service. */
module Part1Scenarios {
  import opened Results
  import opened Keys
  import opened TaskFields
  import opened Part1Records
  import Part1Store

  /** A task can be added to a list that does not exist, and the list stays absent.
      Reading the task back as written fails with Unhandled, while the corrected read
      returns what was stored. */
  method AddWithoutList(listName: string, data: Task, now: string)
    returns (added: Result<TaskInDB, Error>, asWritten: Result<TaskInDB, Error>,
             corrected: Result<TaskInDB, Error>, list: Result<ListView, Error>)
    ensures added == Ok(Stamp(data, listName, now))
    ensures asWritten == Err(Unhandled)
    ensures corrected == added
    ensures list == Err(NotFound)
  {
    KeysDisjoint();
    var s := new Part1Store.Store(map[]);
    added := s.AddTask(listName, data, now);
    asWritten := s.GetTaskAsWritten(listName, data.name);
    corrected := s.GetTask(listName, data.name);
    list := s.GetList(listName, false);
  }

  /** Deleting a task leaves the list record untouched, and deleting the list then
      reports the members it stored. */
  method DeleteTaskKeepsList(list: TaskList, data: Task, now: string)
    returns (deletedTask: Result<DeletedTask, Error>, deletedList: Result<DeletedList, Error>)
    ensures deletedTask == Ok(DeletedTask(data.name, list.name))
    ensures deletedList == Ok(DeletedList(list.name, []))
  {
    KeysDisjoint();
    var s := new Part1Store.Store(map[]);
    var created := s.CreateList(list, now);
    var added := s.AddTask(list.name, data, now);
    deletedTask := s.DeleteTask(list.name, data.name);
    deletedList := s.DeleteList(list.name);
  }
}
