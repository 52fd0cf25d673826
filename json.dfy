/** The JavaScript values that flow through the query builder and the
    validators: JSON data plus the few host objects the library treats
    specially (dates, ObjectIds, regular expressions, functions). */
module Json {
  import opened Wrappers
  import opened Assoc
  import opened Strings

  datatype Value =
    | Undefined
    | Null
    | Bool(b: bool)
    | Num(n: int)
    | Str(s: string)
    /** a `Date`, by its millisecond timestamp */
    | Date(time: int)
    /** an `ObjectId` built from `source` */
    | Oid(source: Value)
    /** a `RegExp` with its pattern and flags */
    | Regex(pattern: Value, flags: string)
    /** a function value, by name */
    | Fun(name: string)
    | Arr(items: seq<Value>)
    | Obj(fields: Dict<Value>)

  /** JavaScript truthiness. */
  predicate Truthy(v: Value)
  {
    match v
    case Undefined => false
    case Null => false
    case Bool(b) => b
    case Num(n) => n != 0
    case Str(s) => s != ""
    case _ => true
  }

  /** `v == null`: null or undefined. */
  predicate IsAbsent(v: Value)
  {
    v.Undefined? || v.Null?
  }

  /** A plain object as `lodash.isPlainObject`-like code sees it. */
  predicate IsObject(v: Value)
  {
    v.Obj?
  }

  /** Property read `v[k]` on an object; other values have no modelled
      properties, so the read gives `undefined`. */
  function Member(v: Value, k: string): (r: Value)
    ensures !v.Obj? ==> r == Undefined
  {
    if v.Obj? then
      match Get(v.fields, k)
      case Some(x) => x
      case None => Undefined
    else Undefined
  }

  /** Object with one property. */
  function Single(k: string, v: Value): Value
  {
    Obj([(k, v)])
  }
}
