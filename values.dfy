/** JavaScript values as the game passes them around: event payloads and the
    `data` bags of interactables are plain objects whose fields are read with
    `data.field` (undefined when absent) and tested for truthiness. */
module Values {

  datatype Option<T> = None | Some(value: T)

  datatype Value =
    | Undefined
    | Null
    | Bool(b: bool)
    | Num(n: real)
    | Str(s: string)
    | List(items: seq<Value>)
    | Obj(fields: map<string, Value>)

  /** A plain object literal `{ key: value, ... }`. */
  type Payload = map<string, Value>

  /** `obj.key`: the stored value, or undefined when the key is absent. */
  function Get(p: Payload, key: string): (v: Value)
    ensures key !in p ==> v == Undefined
    ensures key in p ==> v == p[key]
  {
    if key in p then p[key] else Undefined
  }

  /** JavaScript truthiness: undefined, null, false, 0 and "" are falsy. */
  predicate Truthy(v: Value) {
    match v
    case Undefined => false
    case Null => false
    case Bool(b) => b
    case Num(n) => n != 0.0
    case Str(s) => s != ""
    case List(_) => true
    case Obj(_) => true
  }

  /** `a || b` on values: the left operand when it is truthy. */
  function Or(a: Value, b: Value): (r: Value)
    ensures Truthy(a) ==> r == a
    ensures !Truthy(a) ==> r == b
  {
    if Truthy(a) then a else b
  }

  /** A Babylon `Vector3`, with exact real coordinates. */
  datatype Vec3 = Vec3(x: real, y: real, z: real)

  /** The square of `Vector3.Distance(a, b)`. Comparing squares against a
      squared radius decides the same as comparing distances. */
  function DistSq(a: Vec3, b: Vec3): (d: real)
    ensures d >= 0.0
  {
    (a.x - b.x) * (a.x - b.x) + (a.y - b.y) * (a.y - b.y) + (a.z - b.z) * (a.z - b.z)
  }

  /** `Vector3.Distance(a, b) <= radius` for a non-negative radius. */
  predicate Within(a: Vec3, b: Vec3, radius: real)
    requires radius >= 0.0
  {
    DistSq(a, b) <= radius * radius
  }
}
