/** Tasks and the append-only task group that holds them
    (`ApiTester.TaskGroup` in src/index.js). */
module TaskGroups {
  import opened Wrappers
  import opened Values

  /** A request body: a literal value (an absent body is the literal
      `Undefined`) or a function of the context, called at dispatch. */
  datatype Body = Literal(value: Json) | Computed(f: Context -> Json)

  /** The `request` part of a task: `verb` is its HTTP method and `url` a
      template rendered against the context. */
  datatype RequestTemplate = RequestTemplate(verb: string, url: string, body: Body)

  /** One `store` entry: context variable `key` receives the response
      field named `selector`, or the whole response when `selector` is ".". */
  datatype StoreEntry = StoreEntry(key: string, selector: string)

  /** A task. `store` lists the store object's entries in enumeration order
      (an absent store is empty). `callback`, when present, either returns
      normally (`None`) or throws the error it yields. */
  datatype Task = Task(
    request: RequestTemplate,
    store: seq<StoreEntry>,
    callback: Option<Json -> Option<Error>>)

  datatype TaskGroup = TaskGroup(tasks: seq<Task>)

  /** The accumulated tasks, in insertion order. */
  function ListTasks(g: TaskGroup): seq<Task> {
    g.tasks
  }

  /** A group starts with no tasks. */
  function NewTaskGroup(): (g: TaskGroup)
    ensures ListTasks(g) == []
  {
    TaskGroup([])
  }

  /** Appends one task at the end; earlier tasks are kept as they were. */
  function AddTask(g: TaskGroup, task: Task): (r: TaskGroup)
    ensures |ListTasks(r)| == |ListTasks(g)| + 1
    ensures ListTasks(g) <= ListTasks(r)
    ensures ListTasks(r)[|ListTasks(g)|] == task
  {
    TaskGroup(g.tasks + [task])
  }

  /** Appends every task of `tasks` in turn, as repeated `AddTask`. */
  function AddTasks(g: TaskGroup, tasks: seq<Task>): (r: TaskGroup)
    ensures ListTasks(r) == ListTasks(g) + tasks
    decreases |tasks|
  {
    if |tasks| == 0 then g
    else
      assert tasks == [tasks[0]] + tasks[1..];
      AddTasks(AddTask(g, tasks[0]), tasks[1..])
  }
}
