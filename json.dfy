/** JSON values as the frontend receives them from axios, and the JavaScript operations the
    frontend applies to them: truthiness and property reads that may yield `undefined` or throw. */
module Json {
  import Text

  datatype Value =
    | Null
    | Bool(b: bool)
    | Num(n: real)
    | Str(s: string)
    | Arr(items: seq<Value>)
    | Obj(fields: map<string, Value>)

  /** The outcome of a JavaScript property read: a value, `undefined`, or a thrown TypeError
      (reading a property of `null` or `undefined`). */
  datatype Read = Undefined | Got(v: Value) | Thrown

  /** JavaScript truthiness: `null`, `false`, `0` and `""` are falsy, arrays and objects (even empty) are truthy. */
  predicate Truthy(v: Value)
  {
    match v
    case Null => false
    case Bool(b) => b
    case Num(n) => n != 0.0
    case Str(s) => s != ""
    case Arr(_) => true
    case Obj(_) => true
  }

  /** `v.key` for a named (non-index) property; own fields of an object only. */
  function Member(v: Value, key: string): (r: Read)
    ensures r.Thrown? <==> v.Null?
    ensures v.Obj? ==> (r.Got? <==> key in v.fields)
  {
    match v
    case Null => Thrown
    case Obj(f) => if key in f then Got(f[key]) else Undefined
    case _ => Undefined
  }

  /** `v[i]` for an index `i`. */
  function Index(v: Value, i: nat): (r: Read)
    ensures r.Thrown? <==> v.Null?
    ensures v.Arr? ==> (r.Got? <==> i < |v.items|)
  {
    match v
    case Null => Thrown
    case Arr(items) => if i < |items| then Got(items[i]) else Undefined
    case Str(s) => if i < |s| then Got(Str([s[i]])) else Undefined
    case Obj(_) => Member(v, Text.NatString(i))
    case _ => Undefined
  }

  /** `r.key` where `r` is itself the outcome of an earlier read: reading from `undefined` throws. */
  function ReadMember(r: Read, key: string): (r': Read)
    ensures r.Got? ==> r' == Member(r.v, key)
    ensures !r.Got? ==> r'.Thrown?
  {
    match r
    case Got(v) => Member(v, key)
    case _ => Thrown
  }

  /** `a[i].key` on an array: it throws exactly when `i` is past the end or the element is `null`,
      and otherwise reads the element's own field. */
  lemma IndexedMemberRead(a: Value, i: nat, key: string)
    requires a.Arr?
    ensures ReadMember(Index(a, i), key).Thrown? <==> i >= |a.items| || a.items[i].Null?
    ensures i < |a.items| ==> ReadMember(Index(a, i), key) == Member(a.items[i], key)
    ensures i < |a.items| && a.items[i].Obj? ==>
      if key in a.items[i].fields then ReadMember(Index(a, i), key) == Got(a.items[i].fields[key])
      else ReadMember(Index(a, i), key) == Undefined
  {
  }
}
