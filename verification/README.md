# api-tester in Dafny

A model of the execution pipeline of `ApiTester` (src/index.js), a small
harness that runs named groups of HTTP requests ("tasks") against a base URL.
Values taken from earlier responses are threaded into later request templates
through one shared context. Failures are recorded in a log.

The model is functional. A `Tester` is an immutable record holding the name,
the base URL, the task-group registry, the shared context and the failure log.
Each operation of the class is a pure function from one `Tester` to the next.
Two collaborators are abstracted away:

- **HTTP client (`rp`).** Each dispatch is answered by an externally supplied
  outcome, `Success(json)` or `Failure(error)`. `runAll` takes one outcome per
  task, in order. The requests that were built are returned, so contracts can
  state exactly what was sent.
- **Template renderer (Mustache).** It is an uninterpreted parameter
  `render: (string, Context) -> string`.

Files:

- `wrappers.dfy`: `Option` and `Result`.
- `values.dfy`: the decoded response value `Json`, which includes JavaScript's
  `undefined`. Also the `Context` map, the `Error` kinds and object field
  lookup.
- `task_group.dfy`: `Task` and the append-only `TaskGroup`
  (`ApiTester.TaskGroup`). A task's body is `Literal(json)` or
  `Computed(ctx -> json)`. Its `store` is the ordered list of
  `key -> selector` entries. Its optional callback either returns normally or
  throws.
- `api_tester.dfy`: the registry (`AddTaskGroup`), building the request
  (`Url`, `BuildRequest`), storing values (`AddContextVariable`, the store loop
  `ApplyStore` and its reference `WriteAll`), one task (`RunTask`), and the
  group run (`RunTasks`, `RunAll`).
- `run_properties.dfy`: lemmas about whole runs. They cover dispatch order,
  context threading, failure isolation and the shape of the log.
- `registry_findings.dfy`: how the registry actually looks names up in the
  source (see Findings).

Behaviour of src/index.js worth spelling out:

- **Errors logged after a successful dispatch.** The `.catch` at line 84 also
  catches errors thrown inside the success handler. There are two such cases:
  - A store entry reads a field of a `null` or `undefined` response, which is
    a TypeError. Earlier store writes are kept, and later entries and the
    callback do not run.
  - The callback throws. All store writes are kept.

  Either way, exactly one error is logged and `runTask` still resolves.
- **Where store writes go.** They go to the tester's own context (line 96),
  not to the `context` argument of `runTask`. That argument only shapes the
  rendered URL and the computed body.
- **Duplicate registration.** The source calls `throwError`, which is not
  defined anywhere, so a duplicate name actually raises a ReferenceError. In
  both cases the call throws before the assignment and the registry is
  unchanged. The model returns `Failure(DuplicateName(name))`.
- **What `runAll` returns.** It returns `false` for an unknown name. Otherwise
  it returns `undefined` before the run completes. `RunAll` describes the
  completed run, and `found` is false exactly when the source returns `false`.

## Model

| member | source | states |
|---|---|---|
| TaskGroups.NewTaskGroup | src/index.js:121-123 | a new task group lists no tasks |
| TaskGroups.AddTask | src/index.js:129-131 | the list grows by one, the new task is at the end and every earlier task stays as it was |
| TaskGroups.AddTasks | src/index.js:137-141 | adding a sequence appends it as a whole after the existing tasks, in its own order (the same as adding its tasks one at a time) |
| ApiTester.NewTester | src/index.js:16-22 | a new tester keeps its name and base URL and starts with no groups, an empty context and an empty log |
| ApiTester.AddTaskGroup | src/index.js:29-34 | fails with DuplicateName exactly when the name is registered; otherwise adds exactly that mapping, keeps every other mapping and changes nothing else |
| ApiTester.Url | src/index.js:104-106 | the URL is the base URL followed by the path, with no separator added or removed |
| ApiTester.AddContextVariable | src/index.js:95-97 | throws exactly when a field (not ".") is read from null or undefined; otherwise sets only `key`, to the whole response for ".", to the field when present, or to undefined when missing |
| ApiTester.FirstUnselectableIsFirst | src/index.js:74-78 | the store loop stops at the first entry whose field cannot be read; all earlier entries can be read |
| ApiTester.ApplyStore | src/index.js:73-86 | the store loop fails exactly when some entry cannot be read, and then with the TypeError of the first such entry |
| ApiTester.ApplyStoreSnoc | src/index.js:74-78 | after entries that all succeeded, one more readable entry writes its value over the context they produced |
| ApiTester.ApplyStoreAfterThrow | src/index.js:74-78 | once an entry has thrown, later entries change nothing |
| ApiTester.ApplyStoreWritesPrefix | src/index.js:74-78 | the context after the store loop is exactly the reference write-everything fold over the entries before the first one that throws |
| ApiTester.WriteAllKeys | src/index.js:74-78 | the written context has exactly the old variables plus the variables the entries name |
| ApiTester.WriteAllKeeps | src/index.js:95-97 | a variable that no entry names keeps its old value |
| ApiTester.WriteAllValue | src/index.js:95-97 | a variable holds the value selected by the last entry that writes it |
| ApiTester.RunTask | src/index.js:65-87 | sends the task's method, base URL + render(template, ctx), and the literal body or body(ctx). It changes only the tester's context and log. It logs exactly the task's error, or nothing. A failed dispatch leaves the context alone, and a successful one applies the store to the tester's own context. The request is assembled by ApiTester.BuildRequest (src/index.js:66-72), and ApiTester.ResolveBody makes the `_.isFunction` body choice of src/index.js:71. These two only compute, and this contract states what they produce. |
| ApiTester.RunTaskContextFrame | src/index.js:73-83 | a task never removes a context variable, only adds variables its store names, and leaves every other variable's value alone |
| ApiTester.RunTasks | src/index.js:45-57 | every task of the group is dispatched (one request per task, failures included), and only the context and the log change |
| ApiTester.RunTasksLog | src/index.js:84-86 | after a run the log is the old log followed by the failed tasks' errors, in task order |
| ApiTester.RunTasksKeepsVariables | src/index.js:96-96 | a run never removes a context variable |
| ApiTester.RunAll | src/index.js:40-58 | an unregistered name reports not found, dispatches nothing and changes nothing; a registered one runs the tasks returned by TaskGroups.ListTasks (`listTasks`, src/index.js:147-149), in that order, against the tester's context. ListTasks is the accessor that the TaskGroups contracts above are stated through |
| RunProperties.RunTasksSnoc | src/index.js:45-47 | the last task of a run is dispatched against the context the earlier tasks left |
| RunProperties.RunTasksSplit | src/index.js:45-57 | running a+b runs a, then b from the state a left, with one shared context and log |
| RunProperties.DispatchUsesThreadedContext | src/index.js:45-71 | request i carries task i's method, and its URL and computed body use the context left by tasks 0..i-1 |
| RunProperties.StoredValueVisibleToNextTask | src/index.js:73-78 | a value stored by task i (an entry reached before any throw, and the last one writing its variable) holds the selected value in the context after task i, the context that task i+1 is built from |
| RunProperties.FailedDispatchIsIsolated | src/index.js:84-86 | a failed dispatch appends exactly its error, leaves the context alone, and every later task is still dispatched |
| RunProperties.ErrorsCountFailedTasks | src/index.js:84-86 | the log grows by exactly the number of failed tasks |
| RunProperties.ErrorsFollowTaskOrder | src/index.js:84-86 | the k-th new log entry is the error of the k-th failed task |
| RunProperties.UnstoredVariableUntouched | src/index.js:95-97 | a variable that no task of the run stores keeps its value through the run |
| RunProperties.RunTaskStateIgnoresContextArgument | src/index.js:95-97 | the tester state after a task does not depend on the context argument; writes go to the tester's own context |
| RunProperties.QuietSuccessChangesNothing | src/index.js:73-83 | a successful task with no store entries and no throwing callback leaves the context and the log unchanged |
| RunProperties.ScenarioDispatchedUrl | src/index.js:66-68 | with base "http://api.test" and "/user/{{id}}" rendered to "/user/7", the URL sent is "http://api.test/user/7" |
| RunProperties.ScenarioStoreFieldAndWhole | src/index.js:95-97 | storing {x: "field", y: "."} from {field: 42, other: 1} sets x to 42 and y to the whole response |
| RegistryFindings.AddTaskGroupAsWritten | src/index.js:30-31 | as written, registration fails for registered names AND for names every object inherits |
| RegistryFindings.RunAllAsWritten | src/index.js:41-45 | as written, an unregistered inherited name makes runAll throw a TypeError instead of returning false |
| RegistryFindings.ToStringRefusedAsDuplicate | src/index.js:30-31 | on a fresh tester, "toString" is refused as a duplicate as written but accepted by AddTaskGroup |
| RegistryFindings.ToStringRunThrows | src/index.js:41-46 | on a fresh tester, runAll("toString") throws as written, while RunAll reports the group missing |

## Left out

- The HTTP transport (`rp`): status codes, JSON decoding and network errors. It is a library outside this model. Each dispatch is an externally supplied `Success(json)` / `Failure(error)` outcome.
- Mustache template semantics: the renderer is a foreign library. It is an uninterpreted pure parameter.
- The `async.eachSeries` and Promise scheduling, and `runAll` returning before the run completes. The asynchrony adds nothing beyond ordering, so the run is a sequential fold.
- The `.catch` in `runAll` (src/index.js:51-54). `runTask`'s own promise never rejects, so this handler fires only through the synchronous throws left out further down this list. Such a throw happens when `eachSeries` starts the next task inside `done()` at line 49, and that task's `Mustache.render` (line 66) or body function (line 71) throws. `done(err)` then calls the once-only callback a second time, which throws again. The run stops, later tasks never run, and nothing is logged. The model has no such abrupt end: every task is dispatched.
- Console logging (src/index.js:48, 52, 56), which is diagnostic only.
- Callback side effects. A callback is modelled only as returning normally or throwing an error.
- Synchronous throws from `Mustache.render` (a template that is not a string, for example) or from a body function, raised before the promise chain starts. The renderer and body functions are taken to be total, pure functions of the context.
- The `module.exports` line (src/index.js:152-155). It is glue and refers to a `TaskGroup` binding that does not exist.
- Task-group aliasing: the registry holds the group object by reference, so `addTask` calls made after registration are visible to `runAll`. The model registers a group value, so tasks must be added before registration.
- Falsy values registered as groups (for example `null`). They would pass the duplicate test and make `runAll` return `false`. The `TaskGroup` type excludes them.
- Number precision: JSON numbers are exact reals, not IEEE doubles.
- The ordering of store entries: JavaScript enumerates integer-like keys first. The model takes the entries in the order given.
- ApiTester.AddContextVariable: reading `response[selector]` on arrays, strings, numbers and booleans, and reading inherited properties such as "length", "0" or "toString", yields undefined in the model. In JavaScript these yield the element, the length or the inherited function. Only own fields of objects are modelled.
- ApiTester.AddContextVariable: a store key of "__proto__" replaces the prototype of the context in JavaScript instead of adding a variable. The model adds a variable.

## Findings

| source | as written | input that shows it | evidently intended | confidence | as-written member | corrected member |
|---|---|---|---|---|---|---|
| src/index.js:30-31 | the duplicate test is the truthiness of `this._taskGroups[name]` on a plain `{}`, so names inherited from Object.prototype count as registered | `addTaskGroup("toString", g)` on a fresh tester throws (`RegistryFindings.ToStringRefusedAsDuplicate`) | only names registered before are duplicates | not executed; high | RegistryFindings.AddTaskGroupAsWritten | ApiTester.AddTaskGroup |
| src/index.js:41-45 | the lookup finds an inherited member such as `toString`, which is truthy, and then calls its missing `listTasks` | `runAll("toString")` on a fresh tester throws a TypeError (`RegistryFindings.ToStringRunThrows`) | return `false` for every name that was not registered | not executed; high | RegistryFindings.RunAllAsWritten | ApiTester.RunAll |
