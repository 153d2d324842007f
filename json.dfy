/** JavaScript values as the panel sees them: JSON payloads of the kernel's
    remote calls, the fields of progress records, and JavaScript's notion of
    truthiness, which every stage of the deployment uses to tell success from
    failure. */
module Json {

  datatype Option<+T> = None | Some(value: T)

  /** A JavaScript value. `HostObject` stands for an object of the host
      application (the document manager handed to the progress view) whose
      contents the model does not look into. Numbers never flow through the
      modelled code and are left out. */
  datatype Value =
    | Undefined
    | Null
    | Bool(b: bool)
    | Str(s: string)
    | Arr(items: seq<Value>)
    | Obj(fields: map<string, Value>)
    | HostObject

  /** JavaScript truthiness: `undefined`, `null`, `false` and `''` are falsy,
      every object and array is truthy. */
  predicate Truthy(v: Value)
  {
    match v
    case Undefined => false
    case Null => false
    case Bool(b) => b
    case Str(s) => s != ""
    case Arr(_) => true
    case Obj(_) => true
    case HostObject => true
  }

  /** Property access `v[key]`: `undefined` unless `v` is an object that has
      the key. */
  function Get(v: Value, key: string): (r: Value)
    ensures r != Undefined ==> v.Obj? && key in v.fields && r == v.fields[key]
    ensures v.Obj? && key in v.fields ==> r == v.fields[key]
  {
    if v.Obj? && key in v.fields then v.fields[key] else Undefined
  }

  /** `v || fallback` for a field the panel declares as a string; a value that
      is not a non-empty string is read as absent. */
  function StringOr(v: Value, fallback: string): (r: string)
    ensures Truthy(v) && v.Str? ==> r == v.s
    ensures !Truthy(v) ==> r == fallback
  {
    if v.Str? && v.s != "" then v.s else fallback
  }

  /** How a failed kernel call is classified by the transport. */
  datatype RpcError = RpcFailure | OtherFailure

  /** The outcome of a kernel call that may raise. */
  datatype RpcResult<+T> = Returned(value: T) | Raised(error: RpcError)

  /** A list of strings as a JavaScript array. */
  function Strings(lines: seq<string>): (r: Value)
    ensures r.Arr? && |r.items| == |lines|
    ensures forall k :: 0 <= k < |lines| ==> r.items[k] == Str(lines[k])
  {
    Arr(seq(|lines|, k requires 0 <= k < |lines| => Str(lines[k])))
  }
}
