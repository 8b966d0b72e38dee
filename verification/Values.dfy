/**
 JavaScript value trees: JSON, missing values, and the functions that objects inherit.
 */
module Values {
  datatype Value =
    | Undefined
    | Null
    | Bool(flag: bool)
    | Num(number: int)
    | Str(text: string)
    | Arr(elements: seq<Value>)
    | Obj(fields: map<string, Value>)
    | Function

  predicate Truthy(v: Value) {
    match v
    case Undefined => false
    case Null => false
    case Bool(flag) => flag
    case Num(number) => number != 0
    case Str(text) => text != ""
    case Arr(_) => true
    case Obj(_) => true
    case Function => true
  }

  // `a || b`
  function Or(a: Value, b: Value): Value {
    if Truthy(a) then a else b
  }

  // `v?.key` for a key that is no inherited name.
  function Get(v: Value, key: string): Value {
    if v.Obj? && key in v.fields then v.fields[key] else Undefined
  }
}
