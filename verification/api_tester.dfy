/** The `ApiTester` class of src/index.js as a state record and pure step
    functions. The HTTP client and the template renderer are parameters:
    every dispatch is answered by an externally supplied outcome, and the
    renderer is an uninterpreted function of template and context. */
module ApiTester {
  import opened Wrappers
  import opened Values
  import opened TaskGroups

  /** The template renderer (Mustache), a pure function of template and context. */
  type Renderer = (string, Context) -> string

  /** A request as handed to the HTTP client, which is always asked to decode JSON. */
  datatype Request = Request(verb: string, url: string, body: Json)

  /** The tester's state. `name` is only used for diagnostics; `baseUrl`
      never changes; `context` is the one context shared by every task of
      every run; `logs` is the failure log, which only grows. */
  datatype Tester = Tester(
    name: string,
    baseUrl: string,
    groups: map<string, TaskGroup>,
    context: Context,
    logs: seq<Error>)

  /** The constructor: no task groups, an empty context and an empty log. */
  function NewTester(name: string, baseUrl: string): (t: Tester)
    ensures t.name == name && t.baseUrl == baseUrl
    ensures t.groups == map[] && t.context == map[] && t.logs == []
  {
    Tester(name, baseUrl, map[], map[], [])
  }

  // ---------------------------------------------------------------------
  // Task-group registry
  // ---------------------------------------------------------------------

  /** `addTaskGroup`: a name already registered is refused (the call throws
      and the caller's tester, registry included, stays as it was); a fresh
      name adds exactly one mapping and changes nothing else. */
  function AddTaskGroup(t: Tester, name: string, g: TaskGroup): (r: Result<Tester, Error>)
    ensures r.Failure? <==> name in t.groups
    ensures r.Failure? ==> r.error == DuplicateName(name)
    ensures r.Success? ==> r.value.groups.Keys == t.groups.Keys + {name}
    ensures r.Success? ==> r.value.groups[name] == g
    ensures r.Success? ==> forall n :: n in t.groups ==> r.value.groups[n] == t.groups[n]
    ensures r.Success? ==> r.value.(groups := t.groups) == t
  {
    if name in t.groups then Failure(DuplicateName(name))
    else Success(t.(groups := t.groups[name := g]))
  }

  // ---------------------------------------------------------------------
  // Building a request
  // ---------------------------------------------------------------------

  /** `_url`: the base URL followed by the path, with no slash normalisation. */
  function Url(t: Tester, path: string): (url: string)
    ensures |url| == |t.baseUrl| + |path|
    ensures url[..|t.baseUrl|] == t.baseUrl
    ensures url[|t.baseUrl|..] == path
  {
    t.baseUrl + path
  }

  /** The body sent for a task: the literal, or the function applied to the context. */
  function ResolveBody(body: Body, ctx: Context): Json {
    match body
    case Literal(v) => v
    case Computed(f) => f(ctx)
  }

  function BuildRequest(t: Tester, template: RequestTemplate, ctx: Context, render: Renderer): Request {
    Request(template.verb, Url(t, render(template.url, ctx)), ResolveBody(template.body, ctx))
  }

  // ---------------------------------------------------------------------
  // Storing response values into the context
  // ---------------------------------------------------------------------

  /** The selector that stores the whole response rather than one field. */
  const WholeResponse: string := "."

  /** Whether `response[selector]` can be evaluated without a TypeError. */
  predicate Selectable(response: Json, selector: string) {
    selector == WholeResponse || !IsNullish(response)
  }

  /** The value stored for `selector`: the whole response for ".", else
      the named field, which is `undefined` when the field is missing. */
  function StoredValue(response: Json, selector: string): Json {
    if selector == WholeResponse then response
    else Member(response, selector).GetOr(Undefined)
  }

  /** `_addContextVariable`: writes one variable into the context, or throws
      the TypeError of reading a field of null or undefined. */
  function AddContextVariable(ctx: Context, key: string, selector: string, response: Json): (r: Result<Context, Error>)
    ensures r.Failure? <==> selector != WholeResponse && IsNullish(response)
    ensures r.Failure? ==> r.error == ReadOfNullish(selector)
    ensures r.Success? ==> r.value.Keys == ctx.Keys + {key}
    ensures r.Success? ==> forall k :: k in ctx && k != key ==> r.value[k] == ctx[k]
    ensures r.Success? && selector == WholeResponse ==> r.value[key] == response
    ensures r.Success? && selector != WholeResponse && response.Obj? && selector in response.fields ==>
              r.value[key] == response.fields[selector]
    ensures r.Success? && selector != WholeResponse && !(response.Obj? && selector in response.fields) ==>
              r.value[key] == Undefined
  {
    if !Selectable(response, selector) then Failure(ReadOfNullish(selector))
    else Success(ctx[key := StoredValue(response, selector)])
  }

  /** The number of store entries applied before one throws: the index of
      the first entry whose selector cannot be read from `response`, or all
      of them. */
  function FirstUnselectable(entries: seq<StoreEntry>, response: Json): (n: nat)
    ensures n <= |entries|
    decreases |entries|
  {
    if |entries| == 0 then 0
    else
      var p := FirstUnselectable(entries[..|entries| - 1], response);
      if p < |entries| - 1 || !Selectable(response, entries[|entries| - 1].selector) then p
      else |entries|
  }

  /** `FirstUnselectable` finds the first entry that throws: every entry
      before it can be read, and it cannot. */
  lemma {:induction false} FirstUnselectableIsFirst(entries: seq<StoreEntry>, response: Json)
    ensures var n := FirstUnselectable(entries, response);
              forall i :: 0 <= i < n ==> Selectable(response, entries[i].selector)
    ensures var n := FirstUnselectable(entries, response);
              n < |entries| ==> !Selectable(response, entries[n].selector)
    decreases |entries|
  {
    if |entries| > 0 {
      var m := |entries| - 1;
      FirstUnselectableIsFirst(entries[..m], response);
      assert forall i :: 0 <= i < m ==> entries[..m][i] == entries[i];
    }
  }

  /** The context variables a store sequence names. */
  function KeysOf(entries: seq<StoreEntry>): set<string> {
    set i | 0 <= i < |entries| :: entries[i].key
  }

  lemma KeysOfSnoc(entries: seq<StoreEntry>)
    requires |entries| > 0
    ensures KeysOf(entries) == KeysOf(entries[..|entries| - 1]) + {entries[|entries| - 1].key}
  {
    var p := entries[..|entries| - 1];
    forall k | k in KeysOf(entries)
      ensures k in KeysOf(p) + {entries[|entries| - 1].key}
    {
      var i :| 0 <= i < |entries| && entries[i].key == k;
      if i < |p| {
        assert p[i] == entries[i];
      }
    }
    forall k | k in KeysOf(p)
      ensures k in KeysOf(entries)
    {
      var i :| 0 <= i < |p| && p[i].key == k;
      assert entries[i] == p[i];
    }
  }

  lemma KeysOfPrefix(entries: seq<StoreEntry>, n: nat)
    requires n <= |entries|
    ensures KeysOf(entries[..n]) <= KeysOf(entries)
  {
    forall k | k in KeysOf(entries[..n])
      ensures k in KeysOf(entries)
    {
      var i :| 0 <= i < n && entries[..n][i].key == k;
      assert entries[i] == entries[..n][i];
    }
  }

  /** Entry `i` is the last in `entries` that writes its variable. */
  predicate IsLastWrite(entries: seq<StoreEntry>, i: nat)
    requires i < |entries|
  {
    forall j :: i < j < |entries| ==> entries[j].key != entries[i].key
  }

  datatype StoreResult = StoreResult(context: Context, failure: Option<Error>)

  /** The `store` loop of a successful task: applies the entries in order
      and stops at the first one that throws. Writes made before the throw
      are kept (`ApplyStoreWritesPrefix`). */
  function ApplyStore(ctx: Context, entries: seq<StoreEntry>, response: Json): (r: StoreResult)
    ensures r.failure.None? <==> FirstUnselectable(entries, response) == |entries|
    ensures var n := FirstUnselectable(entries, response);
              n < |entries| ==> r.failure == Some(ReadOfNullish(entries[n].selector))
    decreases |entries|
  {
    if |entries| == 0 then StoreResult(ctx, None)
    else
      var m := |entries| - 1;
      var prev := ApplyStore(ctx, entries[..m], response);
      if prev.failure.Some? then prev
      else
        match AddContextVariable(prev.context, entries[m].key, entries[m].selector, response)
        case Failure(e) => StoreResult(prev.context, Some(e))
        case Success(c) => StoreResult(c, None)
  }

  /** The reference for what the store loop writes: every entry, in order,
      sets its variable to the value it selects, later entries overwriting
      earlier ones. */
  function WriteAll(ctx: Context, entries: seq<StoreEntry>, response: Json): Context
    decreases |entries|
  {
    if |entries| == 0 then ctx
    else
      var m := |entries| - 1;
      WriteAll(ctx, entries[..m], response)[entries[m].key := StoredValue(response, entries[m].selector)]
  }

  /** One more entry that can be read, after entries that were all
      applied, is applied on top of them. */
  lemma ApplyStoreSnoc(ctx: Context, init: seq<StoreEntry>, last: StoreEntry, response: Json)
    requires ApplyStore(ctx, init, response).failure.None?
    requires Selectable(response, last.selector)
    ensures FirstUnselectable(init + [last], response) == |init| + 1
    ensures ApplyStore(ctx, init + [last], response)
            == StoreResult(ApplyStore(ctx, init, response).context[last.key := StoredValue(response, last.selector)], None)
  {
    assert (init + [last])[..|init|] == init;
  }

  /** Once an entry has thrown, a further entry changes nothing. */
  lemma ApplyStoreAfterThrow(ctx: Context, init: seq<StoreEntry>, last: StoreEntry, response: Json)
    requires FirstUnselectable(init + [last], response) <= |init|
    ensures FirstUnselectable(init, response) == FirstUnselectable(init + [last], response)
    ensures ApplyStore(ctx, init + [last], response).context == ApplyStore(ctx, init, response).context
  {
    assert (init + [last])[..|init|] == init;
  }

  /** The store loop writes exactly what `WriteAll` writes for the entries
      before the first one that throws, and nothing for the rest. */
  lemma {:induction false} ApplyStoreWritesPrefix(ctx: Context, entries: seq<StoreEntry>, response: Json)
    ensures ApplyStore(ctx, entries, response).context
            == WriteAll(ctx, entries[..FirstUnselectable(entries, response)], response)
    decreases |entries|
  {
    var n := FirstUnselectable(entries, response);
    if |entries| > 0 {
      var m := |entries| - 1;
      var p := entries[..m];
      assert entries == p + [entries[m]];
      ApplyStoreWritesPrefix(ctx, p, response);
      if n < |entries| {
        ApplyStoreAfterThrow(ctx, p, entries[m], response);
        assert p[..n] == entries[..n];
      } else {
        ApplyStoreSnoc(ctx, p, entries[m], response);
        assert p[..m] == p && entries[..n] == entries;
      }
    }
  }

  /** `WriteAll` adds exactly the variables the entries name. */
  lemma {:induction false} WriteAllKeys(ctx: Context, entries: seq<StoreEntry>, response: Json)
    ensures WriteAll(ctx, entries, response).Keys == ctx.Keys + KeysOf(entries)
    decreases |entries|
  {
    if |entries| > 0 {
      WriteAllKeys(ctx, entries[..|entries| - 1], response);
      KeysOfSnoc(entries);
    }
  }

  /** `WriteAll` leaves every variable the entries do not name alone. */
  lemma {:induction false} WriteAllKeeps(ctx: Context, entries: seq<StoreEntry>, response: Json, k: string)
    requires k in ctx && k !in KeysOf(entries)
    ensures var c := WriteAll(ctx, entries, response); k in c && c[k] == ctx[k]
    decreases |entries|
  {
    if |entries| > 0 {
      KeysOfSnoc(entries);
      WriteAllKeeps(ctx, entries[..|entries| - 1], response, k);
    }
  }

  /** Under `WriteAll` each variable holds the value selected by the last
      entry that writes it. */
  lemma {:induction false} WriteAllValue(ctx: Context, entries: seq<StoreEntry>, response: Json, i: nat)
    requires i < |entries| && IsLastWrite(entries, i)
    ensures var c := WriteAll(ctx, entries, response);
              entries[i].key in c && c[entries[i].key] == StoredValue(response, entries[i].selector)
    decreases |entries|
  {
    var m := |entries| - 1;
    if i < m {
      var p := entries[..m];
      assert p[i] == entries[i];
      assert IsLastWrite(p, i);
      WriteAllValue(ctx, p, response, i);
    }
  }

  // ---------------------------------------------------------------------
  // Running one task
  // ---------------------------------------------------------------------

  /** The error a task adds to the log for a given dispatch outcome, or
      none: the transport's error; else the TypeError of the first store
      entry that reads a field of a null or undefined response; else
      whatever the callback throws. It does not depend on the context. */
  function TaskError(task: Task, outcome: Result<Json, Error>): Option<Error> {
    match outcome
    case Failure(e) => Some(e)
    case Success(response) =>
      var n := FirstUnselectable(task.store, response);
      if n < |task.store| then Some(ReadOfNullish(task.store[n].selector))
      else if task.callback.Some? then task.callback.value(response)
      else None
  }

  datatype Step = Step(tester: Tester, request: Request)

  /** `runTask(task, ctx)`: renders and dispatches the request against
      `ctx`, then on success applies the store to the tester's own context and
      calls the callback. Any failure, of the dispatch or of the success
      handler, is appended to the log once and absorbed. */
  function RunTask(t: Tester, task: Task, ctx: Context, render: Renderer, outcome: Result<Json, Error>): (s: Step)
    ensures s.request.verb == task.request.verb
    ensures s.request.url == t.baseUrl + render(task.request.url, ctx)
    ensures task.request.body.Literal? ==> s.request.body == task.request.body.value
    ensures task.request.body.Computed? ==> s.request.body == task.request.body.f(ctx)
    ensures s.tester.(context := t.context, logs := t.logs) == t
    ensures s.tester.logs == t.logs + TaskError(task, outcome).ToSeq()
    ensures outcome.Failure? ==> s.tester.context == t.context
    ensures outcome.Success? ==> s.tester.context == ApplyStore(t.context, task.store, outcome.value).context
  {
    var request := BuildRequest(t, task.request, ctx, render);
    match outcome
    case Failure(e) =>
      Step(t.(logs := t.logs + [e]), request)
    case Success(response) =>
      var stored := ApplyStore(t.context, task.store, response);
      var t' := t.(context := stored.context);
      if stored.failure.Some? then
        Step(t'.(logs := t.logs + [stored.failure.value]), request)
      else if task.callback.Some? && task.callback.value(response).Some? then
        Step(t'.(logs := t.logs + [task.callback.value(response).value]), request)
      else
        Step(t', request)
  }

  /** A task only ever adds or overwrites the variables its store names:
      no variable is removed, and any other variable keeps its value. */
  lemma RunTaskContextFrame(t: Tester, task: Task, ctx: Context, render: Renderer, outcome: Result<Json, Error>)
    ensures var c := RunTask(t, task, ctx, render, outcome).tester.context;
            t.context.Keys <= c.Keys <= t.context.Keys + KeysOf(task.store)
    ensures var c := RunTask(t, task, ctx, render, outcome).tester.context;
            forall k :: k in t.context && k !in KeysOf(task.store) ==> c[k] == t.context[k]
  {
    if outcome.Success? {
      var response := outcome.value;
      var n := FirstUnselectable(task.store, response);
      ApplyStoreWritesPrefix(t.context, task.store, response);
      WriteAllKeys(t.context, task.store[..n], response);
      KeysOfPrefix(task.store, n);
      forall k | k in t.context && k !in KeysOf(task.store) {
        WriteAllKeeps(t.context, task.store[..n], response, k);
      }
    }
  }

  // ---------------------------------------------------------------------
  // Running a task group
  // ---------------------------------------------------------------------

  /** The errors a run of `tasks` adds to the log, in task order. */
  function Errors(tasks: seq<Task>, outcomes: seq<Result<Json, Error>>): seq<Error>
    requires |outcomes| == |tasks|
    decreases |tasks|
  {
    if |tasks| == 0 then []
    else
      var m := |tasks| - 1;
      Errors(tasks[..m], outcomes[..m]) + TaskError(tasks[m], outcomes[m]).ToSeq()
  }

  datatype Trace = Trace(tester: Tester, requests: seq<Request>)

  /** The `eachSeries` loop of `runAll`: each task in list order, against
      the tester's current context, with the i-th dispatch answered by
      `outcomes[i]`. A failed task does not stop the ones after it. */
  function RunTasks(t: Tester, tasks: seq<Task>, render: Renderer, outcomes: seq<Result<Json, Error>>): (r: Trace)
    requires |outcomes| == |tasks|
    ensures |r.requests| == |tasks|
    ensures r.tester.(context := t.context, logs := t.logs) == t
    decreases |tasks|
  {
    if |tasks| == 0 then Trace(t, [])
    else
      var m := |tasks| - 1;
      var prev := RunTasks(t, tasks[..m], render, outcomes[..m]);
      var step := RunTask(prev.tester, tasks[m], prev.tester.context, render, outcomes[m]);
      Trace(step.tester, prev.requests + [step.request])
  }

  /** The log after a run is the log before it followed by the errors of
      the failed tasks, in task order; nothing is ever removed from it. */
  lemma {:induction false} RunTasksLog(t: Tester, tasks: seq<Task>, render: Renderer, outcomes: seq<Result<Json, Error>>)
    requires |outcomes| == |tasks|
    ensures RunTasks(t, tasks, render, outcomes).tester.logs == t.logs + Errors(tasks, outcomes)
    decreases |tasks|
  {
    if |tasks| > 0 {
      var m := |tasks| - 1;
      RunTasksLog(t, tasks[..m], render, outcomes[..m]);
    }
  }

  /** A run never removes a context variable. */
  lemma {:induction false} RunTasksKeepsVariables(t: Tester, tasks: seq<Task>, render: Renderer, outcomes: seq<Result<Json, Error>>)
    requires |outcomes| == |tasks|
    ensures t.context.Keys <= RunTasks(t, tasks, render, outcomes).tester.context.Keys
    decreases |tasks|
  {
    if |tasks| > 0 {
      var m := |tasks| - 1;
      RunTasksKeepsVariables(t, tasks[..m], render, outcomes[..m]);
      var prev := RunTasks(t, tasks[..m], render, outcomes[..m]);
      RunTaskContextFrame(prev.tester, tasks[m], prev.tester.context, render, outcomes[m]);
    }
  }

  /** What `runAll` leaves behind: `found` is false exactly when it
      returns `false`. */
  datatype RunResult = RunResult(found: bool, tester: Tester, requests: seq<Request>)

  /** `runAll(name)`: an unregistered name returns false with no dispatch
      and no change; a registered group's tasks are run in list order. */
  function RunAll(t: Tester, name: string, render: Renderer, outcomes: seq<Result<Json, Error>>): (r: RunResult)
    requires name in t.groups ==> |outcomes| == |ListTasks(t.groups[name])|
    ensures r.found <==> name in t.groups
    ensures !r.found ==> r.tester == t && r.requests == []
    ensures r.found ==> Trace(r.tester, r.requests) == RunTasks(t, ListTasks(t.groups[name]), render, outcomes)
    ensures r.found ==> |r.requests| == |ListTasks(t.groups[name])|
    ensures r.found ==> r.tester.logs == t.logs + Errors(ListTasks(t.groups[name]), outcomes)
    ensures r.tester.(context := t.context, logs := t.logs) == t
  {
    if name !in t.groups then RunResult(false, t, [])
    else
      var trace := RunTasks(t, ListTasks(t.groups[name]), render, outcomes);
      RunTasksLog(t, ListTasks(t.groups[name]), render, outcomes);
      RunResult(true, trace.tester, trace.requests)
  }
}
