/** MongoDB filter documents as the handlers build them. The conversions
    `Number(raw)` and `new Date(raw)` and the meaning of `$regex` are kept
    symbolic: the model records which conversion is applied to which raw
    query-string value, not its result. */
module FilterDoc {

  /** A value inside an operator object such as `{ $gte: ... }`. */
  datatype Operand =
    | Text(s: string)
    | NumberOf(raw: string)
    | DateOf(raw: string)
    | Flag(b: bool)
    | Sub(ops: map<string, Operand>)

  /** A value standing directly under a key of the filter document. */
  datatype Cond =
    | Raw(s: string)                        // the query-string value itself
    | Is(b: bool)                           // a boolean literal
    | Doc(ops: map<string, Operand>)        // an operator object
    | AnyOf(clauses: seq<map<string, Cond>>)  // the array under `$or`

  type Query = map<string, Cond>

  /** `{ $regex: pattern, $options: 'i' }`. */
  function Regex(pattern: string): Cond {
    Doc(map["$regex" := Text(pattern), "$options" := Text("i")])
  }

  /** `{ $not: { $exists: true } }`. */
  function NotExists(): Cond {
    Doc(map["$not" := Sub(map["$exists" := Flag(true)])])
  }

  /** JavaScript truthiness of a value under a filter key: strings are falsy
      only when empty, booleans are themselves, objects and arrays are truthy. */
  predicate Truthy(c: Cond) {
    match c
    case Raw(s) => s != ""
    case Is(b) => b
    case Doc(_) => true
    case AnyOf(_) => true
  }
}
