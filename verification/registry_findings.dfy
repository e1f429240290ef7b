/** The task-group registry of src/index.js is a plain object literal, so
    a lookup `this._taskGroups[name]` also sees the members every object
    inherits from Object.prototype. This module models those lookups as
    written and contrasts them with the registry of `ApiTester`, which
    only knows the names registered in it. */
module RegistryFindings {
  import opened Wrappers
  import opened Values
  import opened TaskGroups
  import opened ApiTester

  /** Names a plain JavaScript object inherits from Object.prototype.
      Reading any of them on `{}` yields a function or an object, never a
      falsy value. */
  const InheritedNames: set<string> := {
    "constructor", "hasOwnProperty", "isPrototypeOf", "propertyIsEnumerable",
    "toLocaleString", "toString", "valueOf", "__proto__",
    "__defineGetter__", "__defineSetter__", "__lookupGetter__", "__lookupSetter__"
  }

  /** Whether `this._taskGroups[name]` is truthy as the source evaluates it. */
  predicate LookupIsTruthyAsWritten(groups: map<string, TaskGroup>, name: string) {
    name in groups || name in InheritedNames
  }

  /** `addTaskGroup` as written: the duplicate test is the truthiness of
      the lookup, so an inherited name counts as already registered. */
  function AddTaskGroupAsWritten(t: Tester, name: string, g: TaskGroup): (r: Result<Tester, Error>)
    ensures r.Failure? <==> name in t.groups || name in InheritedNames
    ensures r.Success? ==> r.value.groups.Keys == t.groups.Keys + {name} && r.value.groups[name] == g
  {
    if LookupIsTruthyAsWritten(t.groups, name) then Failure(DuplicateName(name))
    else Success(t.(groups := t.groups[name := g]))
  }

  /** What `runAll` does as written: returns as `RunAll` does, or throws a
      TypeError because the inherited value it found has no `listTasks`. */
  datatype RunAllAsWrittenResult = Returned(run: RunResult) | ThrewTypeError(name: string)

  function RunAllAsWritten(t: Tester, name: string, render: Renderer, outcomes: seq<Result<Json, Error>>): (r: RunAllAsWrittenResult)
    requires name in t.groups ==> |outcomes| == |ListTasks(t.groups[name])|
    ensures r.ThrewTypeError? <==> name !in t.groups && name in InheritedNames
    ensures r.Returned? ==> r.run == RunAll(t, name, render, outcomes)
  {
    if name in t.groups then Returned(RunAll(t, name, render, outcomes))
    else if LookupIsTruthyAsWritten(t.groups, name) then ThrewTypeError(name)
    else Returned(RunResult(false, t, []))
  }

  /** On a fresh tester, registering a group named "toString" is refused as
      a duplicate as written, although nothing is registered; the
      corrected `AddTaskGroup` accepts it. */
  lemma ToStringRefusedAsDuplicate(g: TaskGroup)
    ensures AddTaskGroupAsWritten(NewTester("api", "http://api.test"), "toString", g).Failure?
    ensures AddTaskGroup(NewTester("api", "http://api.test"), "toString", g).Success?
  {
  }

  /** On a fresh tester, `runAll("toString")` throws as written instead of
      returning false; the corrected `RunAll` reports the group missing. */
  lemma ToStringRunThrows(render: Renderer, outcomes: seq<Result<Json, Error>>)
    ensures RunAllAsWritten(NewTester("api", "http://api.test"), "toString", render, outcomes).ThrewTypeError?
    ensures !RunAll(NewTester("api", "http://api.test"), "toString", render, outcomes).found
  {
  }
}
