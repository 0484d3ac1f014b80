/** JavaScript values as the handlers see them in request bodies, stored
    documents and JSON responses, with JavaScript's truthiness. */
module Json {

  datatype Value =
    | Undefined
    | Null
    | Bool(b: bool)
    | Num(n: int)
    | Str(s: string)
    | Arr(items: seq<Value>)
    | Obj(fields: map<string, Value>)

  /** A plain object: property name to value (an absent name reads as undefined). */
  type Doc = map<string, Value>

  /** `if (v)`: undefined, null, false, 0 and "" are falsy, everything else truthy. */
  predicate Truthy(v: Value) {
    match v
    case Undefined => false
    case Null => false
    case Bool(b) => b
    case Num(n) => n != 0
    case Str(s) => s != ""
    case Arr(_) => true
    case Obj(_) => true
  }

  /** `o[k]`: the property's value, undefined when absent. */
  function Get(o: Doc, k: string): Value {
    if k in o then o[k] else Undefined
  }
}

/** HTTP responses: a status code and a JSON body, or handing the request on. */
module Http {
  import opened Json

  datatype Response = Response(status: int, body: Value)

  /** The `{ message: text }` body most handlers answer with. */
  function Message(text: string): Value {
    Obj(map["message" := Str(text)])
  }
}
