/** JSON-shaped values as Python holds them after `json.load`: the settings
    dictionaries and the status records of the REST and whisper.cpp
    runners. Object key order is not modelled. */
module JsonValue {
  datatype Value =
    | Null
    | Bool(b: bool)
    | Int(i: int)
    | Real(r: real)
    | Str(s: string)
    | Arr(items: seq<Value>)
    | Obj(fields: map<string, Value>)

  /** Python truthiness: None, False, zero, and empty strings, lists and
      dicts are false. */
  predicate Truthy(v: Value) {
    match v
    case Null => false
    case Bool(b) => b
    case Int(i) => i != 0
    case Real(r) => r != 0.0
    case Str(s) => s != ""
    case Arr(items) => items != []
    case Obj(fields) => fields != map[]
  }

  /** `dict.get(key)`: None for a missing key. */
  function Get(fields: map<string, Value>, key: string): Value {
    if key in fields then fields[key] else Null
  }

  predicate EndsWith(s: string, suffix: string) {
    |suffix| <= |s| && s[|s| - |suffix|..] == suffix
  }

  /** `s.split(".")[0]`: everything before the first dot. */
  function BeforeFirstDot(s: string): (r: string)
    ensures |r| <= |s| && r == s[..|r|]
    ensures '.' !in r
    ensures |r| < |s| ==> s[|r|] == '.'
  {
    if s == [] || s[0] == '.' then "" else [s[0]] + BeforeFirstDot(s[1..])
  }

  /** A dictionary or directory without one key (`del m[k]`, `os.remove`):
      every other entry is kept as it was. */
  function RemoveKey<V>(m: map<string, V>, k: string): (r: map<string, V>)
    ensures r.Keys == m.Keys - {k}
    ensures forall n :: n in r ==> r[n] == m[n]
  {
    map n | n in m && n != k :: m[n]
  }
}
