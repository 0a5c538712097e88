/** JavaScript values as the envelope and the middleware see them: the
    arguments a handler passes, the claims a JSON Web Token carries, and the
    bodies written back with `res.json`. */
module Js {

  datatype Option<+T> = None | Some(value: T)

  /** The outcome of calling a JavaScript function that may throw. */
  datatype Outcome<+T> = Ok(value: T) | Thrown

  /** A JavaScript value. Numbers are integers: fractions and NaN are not modelled. */
  datatype Value =
    | Undefined
    | Null
    | Bool(b: bool)
    | Num(n: int)
    | Str(s: string)
    | Arr(elements: seq<Value>)
    | Obj(props: map<string, Value>)

  /** JavaScript truthiness: `undefined`, `null`, `false`, `0` and `""` are falsy,
      every other value (an empty object or array included) is truthy. */
  predicate Truthy(v: Value)
    ensures !Truthy(v) <==> v in {Undefined, Null, Bool(false), Num(0), Str("")}
  {
    match v
    case Undefined => false
    case Null => false
    case Bool(b) => b
    case Num(n) => n != 0
    case Str(s) => s != ""
    case Arr(_) => true
    case Obj(_) => true
  }

  /** Reading `o.key` from an object: `undefined` when the property is absent. */
  function Get(props: map<string, Value>, key: string): Value
  {
    if key in props then props[key] else Undefined
  }

  /** The top-level members `JSON.stringify` writes for an object: every
      property whose value is not `undefined`. How nested values are
      serialised (undefined array elements written as null, say) is not
      modelled. */
  function JsonMembers(props: map<string, Value>): map<string, Value>
  {
    map k | k in props && props[k] != Undefined :: props[k]
  }

  /** A JavaScript object whose properties are assigned and deleted in place. */
  class JsObject {
    var props: map<string, Value>

    constructor (props: map<string, Value>)
      ensures this.props == props
    {
      this.props := props;
    }

    /** `o.key = v` */
    method Set(key: string, v: Value)
      modifies this
      ensures props == old(props)[key := v]
    {
      props := props[key := v];
    }

    /** `delete o.key`: removes the property, and does nothing when it is absent. */
    method Delete(key: string)
      modifies this
      ensures props == old(props) - {key}
    {
      props := props - {key};
    }
  }
}
