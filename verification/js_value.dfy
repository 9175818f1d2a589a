/**
 * JavaScript values as the services see them, with the truthiness rule
 * that `a || b` and `!x` apply.
 */
module JsValue {

  /**
   * A JavaScript value. Numbers are integers here; `NaN` and fractions are
   * not modelled.
   */
  datatype Value =
    | Undefined
    | Null
    | Bool(b: bool)
    | Num(n: int)
    | Str(s: string)
    | Arr(items: seq<Value>)
    | Obj(props: map<string, Value>)

  /** JavaScript truthiness: `undefined`, `null`, `false`, `0` and `''` are falsy. */
  predicate Truthy(v: Value) {
    match v
    case Undefined => false
    case Null => false
    case Bool(b) => b
    case Num(n) => n != 0
    case Str(s) => s != ""
    case Arr(_) => true
    case Obj(_) => true
  }

  /** Exactly the five falsy values of the model are falsy; every array and object is truthy. */
  lemma FalsyValues(v: Value)
    ensures !Truthy(v) <==> v == Undefined || v == Null || v == Bool(false) || v == Num(0) || v == Str("")
  {
  }

  /** JavaScript's `a || b`: the first operand when it is truthy, else the second. */
  function Or(a: Value, b: Value): (r: Value)
    ensures Truthy(a) ==> r == a
    ensures !Truthy(a) ==> r == b
  {
    if Truthy(a) then a else b
  }

  /** `a || b` is truthy as soon as the fallback is. */
  lemma OrTruthyFallback(a: Value, b: Value)
    requires Truthy(b)
    ensures Truthy(Or(a, b))
  {
  }

  /** Property access `v.key` on a value that is not `null`/`undefined`. */
  function Prop(v: Value, key: string): (r: Value)
    requires v != Undefined && v != Null
    ensures v.Obj? && key in v.props ==> r == v.props[key]
    ensures !(v.Obj? && key in v.props) ==> r == Undefined
  {
    match v
    case Obj(props) => if key in props then props[key] else Undefined
    case _ => Undefined
  }
}
