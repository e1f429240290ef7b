/** The values a task works on: decoded response bodies, the shared
    context they are stored into, and the errors that can arise. */
module Values {
  import opened Wrappers

  /** A JavaScript value as the HTTP client hands it over after decoding
      the body as JSON. `Undefined` stands for JavaScript's `undefined`,
      which is what an empty body decodes to and what reading a missing
      field yields. */
  datatype Json =
    | Undefined
    | Null
    | Bool(b: bool)
    | Num(n: real)
    | Str(s: string)
    | Arr(items: seq<Json>)
    | Obj(fields: map<string, Json>)

  /** Values whose properties cannot be read: reading one throws a TypeError. */
  predicate IsNullish(v: Json) {
    v.Undefined? || v.Null?
  }

  /** The own field `name` of an object value, if there is one. */
  function Member(v: Json, name: string): Option<Json> {
    if v.Obj? && name in v.fields then Some(v.fields[name]) else None
  }

  /** The tester's shared state: variable name to stored value. */
  type Context = map<string, Json>

  /** Everything that can end up in the failure log, plus the registration error. */
  datatype Error =
    | Transport(reason: string)        // the HTTP client rejected: network, status or decoding
    | ReadOfNullish(selector: string)  // TypeError from reading `selector` of null or undefined
    | Thrown(reason: string)           // a task callback threw
    | DuplicateName(name: string)      // a task group name was registered twice
}
