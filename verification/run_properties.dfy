/** Properties of whole runs: order of dispatch, context threading between
    tasks, failure isolation and the shape of the failure log. */
module RunProperties {
  import opened Wrappers
  import opened Values
  import opened TaskGroups
  import opened ApiTester

  /** The tester's context when task `i` of a run starts. */
  function ContextBefore(t: Tester, tasks: seq<Task>, render: Renderer, outcomes: seq<Result<Json, Error>>, i: nat): Context
    requires |outcomes| == |tasks| && i <= |tasks|
  {
    RunTasks(t, tasks[..i], render, outcomes[..i]).tester.context
  }

  /** One step of a run: a task appended at the end runs against the
      context the earlier ones left. */
  lemma RunTasksSnoc(
    t: Tester, tasks: seq<Task>, task: Task,
    outcomes: seq<Result<Json, Error>>, outcome: Result<Json, Error>, render: Renderer)
    requires |outcomes| == |tasks|
    ensures var prev := RunTasks(t, tasks, render, outcomes);
            var step := RunTask(prev.tester, task, prev.tester.context, render, outcome);
            RunTasks(t, tasks + [task], render, outcomes + [outcome])
            == Trace(step.tester, prev.requests + [step.request])
  {
    assert (tasks + [task])[..|tasks|] == tasks;
    assert (outcomes + [outcome])[..|outcomes|] == outcomes;
  }

  /** Running `a + b` is running `a` and then `b` from the state `a` left:
      one shared context and one log are threaded through both. */
  lemma {:induction false} RunTasksSplit(
    t: Tester, a: seq<Task>, oa: seq<Result<Json, Error>>,
    b: seq<Task>, ob: seq<Result<Json, Error>>, render: Renderer)
    requires |oa| == |a| && |ob| == |b|
    ensures RunTasks(t, a + b, render, oa + ob).tester
            == RunTasks(RunTasks(t, a, render, oa).tester, b, render, ob).tester
    ensures RunTasks(t, a + b, render, oa + ob).requests
            == RunTasks(t, a, render, oa).requests + RunTasks(RunTasks(t, a, render, oa).tester, b, render, ob).requests
    decreases |b|
  {
    var first := RunTasks(t, a, render, oa);
    if |b| == 0 {
      assert a + b == a;
      assert oa + ob == oa;
    } else {
      var m := |b| - 1;
      assert a + b == (a + b[..m]) + [b[m]];
      assert oa + ob == (oa + ob[..m]) + [ob[m]];
      assert b == b[..m] + [b[m]];
      assert ob == ob[..m] + [ob[m]];
      RunTasksSplit(t, a, oa, b[..m], ob[..m], render);
      var prev := RunTasks(t, a + b[..m], render, oa + ob[..m]);
      var prev2 := RunTasks(first.tester, b[..m], render, ob[..m]);
      assert prev.tester == prev2.tester;
      var step := RunTask(prev.tester, b[m], prev.tester.context, render, ob[m]);
      RunTasksSnoc(t, a + b[..m], b[m], oa + ob[..m], ob[m], render);
      assert RunTasks(t, a + b, render, oa + ob) == Trace(step.tester, prev.requests + [step.request]);
      RunTasksSnoc(first.tester, b[..m], b[m], ob[..m], ob[m], render);
      assert RunTasks(first.tester, b, render, ob) == Trace(step.tester, prev2.requests + [step.request]);
      assert first.requests + (prev2.requests + [step.request]) == prev.requests + [step.request];
    }
  }

  /** Task `i` is dispatched with its URL rendered, and its body computed,
      against the context left by tasks 0 .. i-1. */
  lemma {:induction false} DispatchUsesThreadedContext(
    t: Tester, tasks: seq<Task>, render: Renderer, outcomes: seq<Result<Json, Error>>, i: nat)
    requires |outcomes| == |tasks| && i < |tasks|
    ensures RunTasks(t, tasks, render, outcomes).requests[i].verb == tasks[i].request.verb
    ensures RunTasks(t, tasks, render, outcomes).requests[i].url
            == t.baseUrl + render(tasks[i].request.url, ContextBefore(t, tasks, render, outcomes, i))
    ensures tasks[i].request.body.Literal? ==>
            RunTasks(t, tasks, render, outcomes).requests[i].body == tasks[i].request.body.value
    ensures tasks[i].request.body.Computed? ==>
            RunTasks(t, tasks, render, outcomes).requests[i].body
            == tasks[i].request.body.f(ContextBefore(t, tasks, render, outcomes, i))
    decreases |tasks|
  {
    var m := |tasks| - 1;
    var prev := RunTasks(t, tasks[..m], render, outcomes[..m]);
    var step := RunTask(prev.tester, tasks[m], prev.tester.context, render, outcomes[m]);
    assert tasks == tasks[..m] + [tasks[m]];
    assert outcomes == outcomes[..m] + [outcomes[m]];
    RunTasksSnoc(t, tasks[..m], tasks[m], outcomes[..m], outcomes[m], render);
    var requests := RunTasks(t, tasks, render, outcomes).requests;
    assert requests == prev.requests + [step.request];
    if i < m {
      DispatchUsesThreadedContext(t, tasks[..m], render, outcomes[..m], i);
      assert tasks[..m][..i] == tasks[..i];
      assert outcomes[..m][..i] == outcomes[..i];
      assert requests[i] == prev.requests[i];
    } else {
      assert requests[i] == step.request;
    }
  }

  /** Context threading: a value stored by task `i` is in the context the
      run holds after task `i`, the one task `i + 1`, if any, is rendered
      against (`DispatchUsesThreadedContext` says
      that request `i + 1` is built from exactly this context). Entry `j`
      must have been reached (no earlier entry threw) and be the last entry
      writing its variable. */
  lemma StoredValueVisibleToNextTask(
    t: Tester, tasks: seq<Task>, render: Renderer, outcomes: seq<Result<Json, Error>>, i: nat, j: nat)
    requires |outcomes| == |tasks| && i < |tasks|
    requires outcomes[i].Success?
    requires j < FirstUnselectable(tasks[i].store, outcomes[i].value)
    requires IsLastWrite(tasks[i].store, j)
    ensures var ctx := ContextBefore(t, tasks, render, outcomes, i + 1);
            var e := tasks[i].store[j];
            && e.key in ctx
            && ctx[e.key] == StoredValue(outcomes[i].value, e.selector)
  {
    var store := tasks[i].store;
    var response := outcomes[i].value;
    var n := FirstUnselectable(store, response);
    var before := tasks[..i + 1];
    assert before[..i] == tasks[..i];
    assert outcomes[..i + 1][..i] == outcomes[..i];
    var prev := RunTasks(t, tasks[..i], render, outcomes[..i]);
    assert store[..n][j] == store[j];
    assert IsLastWrite(store[..n], j);
    ApplyStoreWritesPrefix(prev.tester.context, store, response);
    WriteAllValue(prev.tester.context, store[..n], response, j);
  }

  /** Failure isolation: a task whose dispatch fails appends its error to
      the log, leaves the context as it was, and the run goes on to
      dispatch every later task. */
  lemma FailedDispatchIsIsolated(
    t: Tester, tasks: seq<Task>, render: Renderer, outcomes: seq<Result<Json, Error>>, i: nat)
    requires |outcomes| == |tasks| && i < |tasks|
    requires outcomes[i].Failure?
    ensures var before := RunTasks(t, tasks[..i], render, outcomes[..i]).tester;
            var after := RunTasks(t, tasks[..i + 1], render, outcomes[..i + 1]).tester;
            after == before.(logs := before.logs + [outcomes[i].error])
    ensures |RunTasks(t, tasks, render, outcomes).requests| == |tasks|
  {
    assert tasks[..i + 1][..i] == tasks[..i];
    assert outcomes[..i + 1][..i] == outcomes[..i];
  }

  /** The tasks of a run whose outcome puts an error in the log. */
  function FailedIndices(tasks: seq<Task>, outcomes: seq<Result<Json, Error>>): set<nat>
    requires |outcomes| == |tasks|
  {
    set i: nat | i < |tasks| && TaskError(tasks[i], outcomes[i]).Some?
  }

  /** The log grows by exactly one entry per failed task. */
  lemma {:induction false} ErrorsCountFailedTasks(tasks: seq<Task>, outcomes: seq<Result<Json, Error>>)
    requires |outcomes| == |tasks|
    ensures |Errors(tasks, outcomes)| == |FailedIndices(tasks, outcomes)|
    decreases |tasks|
  {
    if |tasks| > 0 {
      var m := |tasks| - 1;
      ErrorsCountFailedTasks(tasks[..m], outcomes[..m]);
      var before := FailedIndices(tasks[..m], outcomes[..m]);
      var all := FailedIndices(tasks, outcomes);
      if TaskError(tasks[m], outcomes[m]).Some? {
        assert all == before + {m};
      } else {
        assert all == before;
      }
    }
  }

  /** The k-th error added to the log belongs to the k-th failed task:
      errors are logged in the order of the failing tasks. */
  lemma {:induction false} ErrorsFollowTaskOrder(tasks: seq<Task>, outcomes: seq<Result<Json, Error>>, i: nat)
    requires |outcomes| == |tasks| && i < |tasks|
    requires TaskError(tasks[i], outcomes[i]).Some?
    ensures var k := |FailedIndices(tasks[..i], outcomes[..i])|;
            k < |Errors(tasks, outcomes)| && Errors(tasks, outcomes)[k] == TaskError(tasks[i], outcomes[i]).value
    decreases |tasks|
  {
    var m := |tasks| - 1;
    ErrorsCountFailedTasks(tasks[..i], outcomes[..i]);
    if i == m {
      assert tasks[..m] == tasks[..i];
    } else {
      ErrorsFollowTaskOrder(tasks[..m], outcomes[..m], i);
      assert tasks[..m][..i] == tasks[..i];
      assert outcomes[..m][..i] == outcomes[..i];
    }
  }

  /** A variable that no task of the run stores keeps its value. */
  lemma {:induction false} UnstoredVariableUntouched(
    t: Tester, tasks: seq<Task>, render: Renderer, outcomes: seq<Result<Json, Error>>, k: string)
    requires |outcomes| == |tasks|
    requires k in t.context
    requires forall i :: 0 <= i < |tasks| ==> k !in KeysOf(tasks[i].store)
    ensures var c := RunTasks(t, tasks, render, outcomes).tester.context; k in c && c[k] == t.context[k]
    decreases |tasks|
  {
    if |tasks| > 0 {
      var m := |tasks| - 1;
      assert forall i :: 0 <= i < m ==> tasks[..m][i] == tasks[i];
      UnstoredVariableUntouched(t, tasks[..m], render, outcomes[..m], k);
      var prev := RunTasks(t, tasks[..m], render, outcomes[..m]);
      RunTaskContextFrame(prev.tester, tasks[m], prev.tester.context, render, outcomes[m]);
    }
  }

  /** The context argument of `runTask` only shapes the request: the store
      writes go to the tester's own context whatever is passed. */
  lemma RunTaskStateIgnoresContextArgument(
    t: Tester, task: Task, c1: Context, c2: Context, render: Renderer, outcome: Result<Json, Error>)
    ensures RunTask(t, task, c1, render, outcome).tester == RunTask(t, task, c2, render, outcome).tester
  {
  }

  /** A successful task without a store entry or a failing callback leaves
      context and log exactly as they were. */
  lemma QuietSuccessChangesNothing(
    t: Tester, task: Task, ctx: Context, render: Renderer, response: Json)
    requires task.store == []
    requires task.callback.None? || task.callback.value(response).None?
    ensures RunTask(t, task, ctx, render, Success(response)).tester == t
  {
    assert KeysOf(task.store) == {};
  }

  /** Scenario: base "http://api.test", template "/user/{{id}}" rendered to
      "/user/7" gives exactly "http://api.test/user/7". */
  lemma ScenarioDispatchedUrl(task: Task, render: Renderer, outcome: Result<Json, Error>)
    requires task.request.url == "/user/{{id}}"
    requires render("/user/{{id}}", map["id" := Num(7.0)]) == "/user/7"
    ensures var t := NewTester("api", "http://api.test").(context := map["id" := Num(7.0)]);
            RunTask(t, task, t.context, render, outcome).request.url == "http://api.test/user/7"
  {
    assert "http://api.test" + "/user/7" == "http://api.test/user/7";
  }

  /** Scenario: storing field "field" of {field: 42, other: 1} as "x", and
      the whole response as "y". */
  lemma ScenarioStoreFieldAndWhole(t: Tester, request: RequestTemplate, render: Renderer)
    ensures var response := Obj(map["field" := Num(42.0), "other" := Num(1.0)]);
            var task := Task(request, [StoreEntry("x", "field"), StoreEntry("y", ".")], None);
            var c := RunTask(t, task, t.context, render, Success(response)).tester.context;
            "x" in c && c["x"] == Num(42.0) && "y" in c && c["y"] == response
  {
    var response := Obj(map["field" := Num(42.0), "other" := Num(1.0)]);
    var store := [StoreEntry("x", "field"), StoreEntry("y", ".")];
    assert FirstUnselectable(store, response) == 2;
    assert store[..2] == store;
    ApplyStoreWritesPrefix(t.context, store, response);
    WriteAllValue(t.context, store, response, 0);
    WriteAllValue(t.context, store, response, 1);
  }
}
