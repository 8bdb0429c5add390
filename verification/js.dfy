/** The slice of JavaScript the rules' argument checks depend on: dynamic
    values, truthiness, `typeof`, strict equality, and thrown `TypeError`s
    turned into a result value. */
module Js {
  import opened Dom

  datatype Option<T> = None | Some(value: T)

  /** A thrown `TypeError` carrying its message. */
  datatype Error = TypeError(message: string)

  /** Either the value a call returns, or the error it throws. */
  datatype Result<T> = Ok(value: T) | Throw(error: Error) {
    predicate IsFailure() {
      Throw?
    }

    function PropagateFailure<U>(): Result<U>
      requires Throw?
    {
      Throw(error)
    }

    function Extract(): T
      requires Ok?
    {
      value
    }
  }

  /** The values callers pass in. Numbers are integers (NaN and fractions are
      not modelled); object identity is not modelled; an array is the array of
      DOM nodes the rules pass around; a function is an XPath processor. */
  datatype Value =
    | Undefined
    | Null
    | Boolean(b: bool)
    | Number(n: int)
    | Str(s: string)
    | Array(items: seq<Node>)
    | Object
    | Function(engine: Engine)

  /** JavaScript truthiness: `!v` is `!Truthy(v)`. */
  predicate Truthy(v: Value) {
    match v
    case Undefined => false
    case Null => false
    case Boolean(b) => b
    case Number(n) => n != 0
    case Str(s) => |s| != 0
    case _ => true
  }

  /** The `typeof` operator. */
  function TypeOf(v: Value): string {
    match v
    case Undefined => "undefined"
    case Boolean(_) => "boolean"
    case Number(_) => "number"
    case Str(_) => "string"
    case Function(_) => "function"
    case _ => "object"
  }

  /** `a === b` on primitives; distinct objects are never strictly equal. */
  predicate StrictEquals(a: Value, b: Value) {
    match (a, b)
    case (Undefined, Undefined) => true
    case (Null, Null) => true
    case (Boolean(x), Boolean(y)) => x == y
    case (Number(x), Number(y)) => x == y
    case (Str(x), Str(y)) => x == y
    case _ => false
  }

  /** The guard `if (!v || typeof v !== "string") throw new TypeError(message)`:
      it lets through exactly the non-empty strings. */
  function RequireString(v: Value, message: string): (r: Result<string>)
    ensures r.Ok? <==> v.Str? && |v.s| != 0
    ensures r.Ok? ==> r.value == v.s
    ensures r.Throw? ==> r.error == TypeError(message)
  {
    if !Truthy(v) || TypeOf(v) != "string" then Throw(TypeError(message)) else Ok(v.s)
  }

  /** The guard `if (!v || typeof v !== "function") throw new TypeError(message)`:
      it lets through exactly the functions. */
  function RequireFunction(v: Value, message: string): (r: Result<Engine>)
    ensures r.Ok? <==> v.Function?
    ensures r.Ok? ==> r.value == v.engine
    ensures r.Throw? ==> r.error == TypeError(message)
  {
    if !Truthy(v) || TypeOf(v) != "function" then Throw(TypeError(message)) else Ok(v.engine)
  }

  /** `new DOMParser().parseFromString(v)`: xmldom parses non-empty strings;
      for anything else it builds no document and the result is `undefined`. */
  function ParseFromString(v: Value): (doc: Doc)
    ensures doc.Document? <==> v.Str? && |v.s| != 0
    ensures doc.Document? ==> doc.source == v.s
  {
    if Truthy(v) && TypeOf(v) == "string" then Document(v.s) else NoDocument
  }
}
