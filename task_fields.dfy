/** The task data shared by both versions of the service: the closed status
    enumeration, a task as a client submits it, and a partial update. */
module TaskFields {
  import opened Results

  /** The five states a task can be in. */
  datatype TaskStatus = Assigned | InProcess | Pending | Closed | Canceled

  /** The status a task gets when the client does not give one. */
  const DefaultStatus: TaskStatus := Assigned

  /** The canonical label of a status, as it appears in requests and records. */
  function Label(s: TaskStatus): (r: string)
    ensures r in ["Assigned", "In Process", "Pending", "Closed", "Canceled"]
  {
    match s
    case Assigned => "Assigned"
    case InProcess => "In Process"
    case Pending => "Pending"
    case Closed => "Closed"
    case Canceled => "Canceled"
  }

  /** The status a label names; labels outside the enumeration are rejected. */
  function ParseStatus(text: string): (r: Option<TaskStatus>)
    ensures r.Some? ==> Label(r.value) == text
  {
    if text == "Assigned" then Some(Assigned)
    else if text == "In Process" then Some(InProcess)
    else if text == "Pending" then Some(Pending)
    else if text == "Closed" then Some(Closed)
    else if text == "Canceled" then Some(Canceled)
    else None
  }

  /** Every status survives the trip through its label. */
  lemma ParseLabel(s: TaskStatus)
    ensures ParseStatus(Label(s)) == Some(s)
  {
  }

  /** Exactly five labels are accepted, and they are pairwise distinct. */
  lemma ExactlyFiveLabels()
    ensures forall text :: ParseStatus(text).Some? <==>
      text in ["Assigned", "In Process", "Pending", "Closed", "Canceled"]
    ensures forall s, t :: Label(s) == Label(t) ==> s == t
  {
    forall s, t | Label(s) == Label(t) ensures s == t {
      ParseLabel(s);
      ParseLabel(t);
    }
  }

  /** A task as the client submits it. */
  datatype Task = Task(name: string, description: string, status: TaskStatus, dueDate: Option<string>)

  /** A task submitted with only a name and a description. */
  function NewTask(name: string, description: string): (t: Task)
    ensures t.name == name && t.description == description
    ensures t.status == Assigned && t.dueDate == None
  {
    Task(name, description, DefaultStatus, None)
  }

  /** A partial update: `None` means the field was not supplied. A due date may be
      supplied as null, hence its second `Option`. */
  datatype UpdatedTaskData = UpdatedTaskData(
    description: Option<string>,
    status: Option<TaskStatus>,
    dueDate: Option<Option<string>>)

  /** The update that supplies nothing. */
  const NoUpdate: UpdatedTaskData := UpdatedTaskData(None, None, None)

  /** The combination of update `u` followed by update `v`, in which `v`'s supplied
      fields win over `u`'s; the `MergeThen` lemmas are stated with it. */
  function Then(u: UpdatedTaskData, v: UpdatedTaskData): UpdatedTaskData {
    UpdatedTaskData(
      if v.description.Some? then v.description else u.description,
      if v.status.Some? then v.status else u.status,
      if v.dueDate.Some? then v.dueDate else u.dueDate)
  }
}
