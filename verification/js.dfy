/** The fragment of JavaScript values the model needs: contexts threaded
    through middleware, values handed to a field's change handler, and the
    language's truthiness rule. Numbers are modelled as integers. */
module Js {
  import opened Results

  datatype Value =
    | Undefined
    | Null
    | Bool(b: bool)
    | Num(n: int)
    | Str(s: string)
    | Obj(props: map<string, Value>)

  /** JavaScript truthiness: `undefined`, `null`, `false`, `0` and `""` are falsy. */
  predicate Truthy(v: Value)
  {
    match v
    case Undefined => false
    case Null => false
    case Bool(b) => b
    case Num(n) => n != 0
    case Str(s) => s != ""
    case Obj(_) => true
  }

  /** A `string | undefined` that is truthy: present and not empty. */
  predicate TruthyString(o: Option<string>)
  {
    o.Some? && Truthy(Str(o.value))
  }

  /** Property access `v.key`: an own property of an object, else `undefined`. */
  function Prop(v: Value, key: string): Value
  {
    if v.Obj? && key in v.props then v.props[key] else Undefined
  }

  /** The empty object literal `{}`. */
  const EmptyObject: Value := Obj(map[])
}
