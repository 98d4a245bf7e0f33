/**
 * Parsed JSON values as the client sees them after `response.json()` / `json.loads`,
 * together with the few Python operations the client applies to them: `dict.get`,
 * `[0]`, `len`, `+` and truthiness. Each operation that Python would reject
 * with an exception yields `Err` carrying that exception's text.
 *
 * JSON numbers with a fraction or exponent (Python floats) are not part of this model.
 */
module Json {
  import opened Common

  datatype Json =
    | JNull
    | JBool(b: bool)
    | JInt(i: int)
    | JStr(s: string)
    | JList(items: seq<Json>)
    | JObj(fields: map<string, Json>)

  /** The Python class name of a parsed value, as it appears in exception texts. */
  function TypeName(v: Json): string
  {
    match v
    case JNull => "NoneType"
    case JBool(_) => "bool"
    case JInt(_) => "int"
    case JStr(_) => "str"
    case JList(_) => "list"
    case JObj(_) => "dict"
  }

  /** Python truthiness: `None`, `False`, `0` and empty containers are false. */
  predicate Truthy(v: Json)
  {
    match v
    case JNull => false
    case JBool(b) => b
    case JInt(i) => i != 0
    case JStr(s) => s != []
    case JList(xs) => xs != []
    case JObj(m) => m != map[]
  }

  /** The empty dict `{}`. */
  const EmptyObj: Json := JObj(map[])

  function NoAttribute(v: Json, attr: string): string
  {
    "'" + TypeName(v) + "' object has no attribute '" + attr + "'"
  }

  /** `v.get(key, default)`: only a dict has `get`. */
  function Get(v: Json, key: string, default: Json): (r: Result<Json>)
    ensures r.Ok? <==> v.JObj?
    ensures r.Ok? && key in v.fields ==> r.value == v.fields[key]
    ensures r.Ok? && key !in v.fields ==> r.value == default
    ensures r.Err? ==> r.error == NoAttribute(v, "get")
  {
    match v
    case JObj(m) => Ok(if key in m then m[key] else default)
    case _ => Err(NoAttribute(v, "get"))
  }

  /** `v[0]`: the first element of a list, the first character of a string. */
  function First(v: Json): (r: Result<Json>)
    ensures r.Ok? <==> (v.JList? && v.items != []) || (v.JStr? && v.s != [])
    ensures r.Ok? && v.JList? ==> r.value == v.items[0]
    ensures r.Ok? && v.JStr? ==> r.value == JStr([v.s[0]])
    // IndexError on an empty list or string, KeyError(0) on a dict, TypeError otherwise
    ensures v == JList([]) ==> r == Err("list index out of range")
    ensures v == JStr([]) ==> r == Err("string index out of range")
    ensures v.JObj? ==> r == Err("0")
    ensures !(v.JList? || v.JStr? || v.JObj?) ==> r == Err("'" + TypeName(v) + "' object is not subscriptable")
  {
    match v
    case JList(xs) => if xs == [] then Err("list index out of range") else Ok(xs[0])
    case JStr(s) => if s == [] then Err("string index out of range") else Ok(JStr([s[0]]))
    // a dict is indexed by key, and a parsed key is never the integer 0: KeyError(0)
    case JObj(_) => Err("0")
    case _ => Err("'" + TypeName(v) + "' object is not subscriptable")
  }

  /** Whether `len(v)` is defined. */
  predicate HasLen(v: Json)
  {
    v.JStr? || v.JList? || v.JObj?
  }

  /** `len(v)` used only for its exception: the text Python raises when it is not defined. */
  function LenError(v: Json): string
  {
    "object of type '" + TypeName(v) + "' has no len()"
  }

  /** A value Python adds as an integer (`bool` is a subclass of `int`). */
  predicate IsIntLike(v: Json)
  {
    v.JInt? || v.JBool?
  }

  function AsInt(v: Json): int
    requires IsIntLike(v)
  {
    if v.JInt? then v.i else if v.b then 1 else 0
  }

  /** `a + b` in Python. */
  function Add(a: Json, b: Json): (r: Result<Json>)
    ensures IsIntLike(a) && IsIntLike(b) ==> r == Ok(JInt(AsInt(a) + AsInt(b)))
    ensures r.Ok? <==>
      (IsIntLike(a) && IsIntLike(b)) || (a.JStr? && b.JStr?) || (a.JList? && b.JList?)
  {
    if IsIntLike(a) && IsIntLike(b) then Ok(JInt(AsInt(a) + AsInt(b)))
    else if a.JStr? then
      if b.JStr? then Ok(JStr(a.s + b.s))
      else Err("can only concatenate str (not \"" + TypeName(b) + "\") to str")
    else if a.JList? then
      if b.JList? then Ok(JList(a.items + b.items))
      else Err("can only concatenate list (not \"" + TypeName(b) + "\") to list")
    else Err("unsupported operand type(s) for +: '" + TypeName(a) + "' and '" + TypeName(b) + "'")
  }
}
