/** Value types of the task store: identifiers, statuses, metadata, task
    records, snapshots and the store's error kinds. Timestamps are readings of
    an abstract monotone clock (`nat`); durations are whole seconds. */
module TaskTypes {
  import opened Basics

  /** A task identifier: a string compared and hashed by value. */
  datatype TaskId = TaskId(value: string)

  /** `TaskId::new`: wraps the given string unchanged. */
  function NewTaskId(id: string): (t: TaskId)
    ensures t.value == id
  {
    TaskId(id)
  }

  /** Two identifiers are equal exactly when their strings are. */
  lemma NewTaskIdInjective(a: string, b: string)
    ensures NewTaskId(a) == NewTaskId(b) <==> a == b
  {
  }

  /** `Display`: the identifier's text, from which `NewTaskId` rebuilds it. */
  function Display(t: TaskId): (s: string)
    ensures NewTaskId(s) == t
  {
    t.value
  }

  /** `FromStr`: parsing never fails, and displaying the parsed id gives back the input. */
  function FromStr(s: string): (r: Result<TaskId, string>)
    ensures r.Ok? && Display(r.value) == s
  {
    Ok(NewTaskId(s))
  }

  /** Displaying an identifier and parsing the text gives the same identifier. */
  lemma DisplayParseRoundTrip(t: TaskId)
    ensures FromStr(Display(t)) == Ok(t)
  {
  }

  datatype TaskStatus = Pending | Running | Completed | Failed | Cancelled

  /** A 32-bit signed priority. */
  newtype i32 = x: int | -0x8000_0000 <= x < 0x8000_0000

  datatype TaskMetadata = TaskMetadata(
    name: string,
    description: Option<string>,
    owner: string,
    dependencies: seq<TaskId>,
    estimatedSeconds: nat,
    priority: i32,
    tags: seq<string>,
    additionalInfo: map<string, string>)

  /** `TaskMetadata::default`: every text empty, no description, no
      dependencies, zero duration, priority 0, no tags, no extra info. */
  function DefaultMetadata(): (m: TaskMetadata)
    ensures m.name == "" && m.owner == "" && m.description == None
    ensures m.dependencies == [] && m.estimatedSeconds == 0 && m.priority == 0
    ensures m.tags == [] && m.additionalInfo == map[]
  {
    TaskMetadata("", None, "", [], 0, 0, [], map[])
  }

  datatype TaskState = TaskState(
    id: TaskId,
    status: TaskStatus,
    metadata: TaskMetadata,
    createdAt: nat,
    updatedAt: nat)

  /** `TaskState::new`: a pending task with default metadata, created and
      updated at the same instant `now`. */
  function NewTaskState(id: TaskId, now: nat): (t: TaskState)
    ensures t.id == id && t.status == Pending && t.metadata == DefaultMetadata()
    ensures t.createdAt == t.updatedAt == now
  {
    TaskState(id, Pending, DefaultMetadata(), now, now)
  }

  /** `TaskState::default`: the new task whose id is "default". */
  function DefaultTaskState(now: nat): (t: TaskState)
    ensures t == NewTaskState(NewTaskId("default"), now)
    ensures t.id.value == "default" && t.status == Pending && t.metadata == DefaultMetadata()
    ensures t.createdAt == t.updatedAt == now
  {
    NewTaskState(NewTaskId("default"), now)
  }

  /** A copy of the whole task map and the instant it was taken. */
  datatype StateSnapshot = StateSnapshot(tasks: map<TaskId, TaskState>, timestamp: nat)

  /** The store's error kinds. The I/O and serialization variants wrap foreign
      error values, kept here as their messages. */
  datatype StateError =
    | TaskNotFound(id: string)
    | TaskAlreadyExists(id: string)
    | CircularDependency(id: string)
    | InvalidState(message: string)
    | DependenciesNotMet(id: string)
    | IoError(message: string)
    | SerializationError(message: string)
}
