/**
  JSON values as Python's `json` module hands them to the ETL code.

  Objects keep their keys in insertion order, because the ETL code observes
  that order (the first key starting with `value`, the document order of
  matches). Python's `None` and JSON `null` are both `JNull`.
 */
module Json {
  import opened Wrappers
  import opened Text

  datatype Json =
    | JNull
    | JBool(b: bool)
    | JNum(n: real)
    | JStr(s: string)
    | JArr(items: seq<Json>)
    | JObj(fields: seq<(string, Json)>)

  /** Python truthiness: `None`, `False`, zero and empty containers are false. */
  predicate Truthy(v: Json) {
    match v
    case JNull => false
    case JBool(b) => b
    case JNum(n) => n != 0.0
    case JStr(s) => s != ""
    case JArr(items) => items != []
    case JObj(fields) => fields != []
  }

  /** The value stored under `key` in an ordered key/value list (`d.get(key)`). */
  function Lookup(fields: seq<(string, Json)>, key: string): Option<Json> {
    if |fields| == 0 then None
    else if fields[0].0 == key then Some(fields[0].1)
    else Lookup(fields[1..], key)
  }

  /** A key is found exactly when some field carries it, and what is found is that field's value. */
  lemma {:induction false} LookupFinds(fields: seq<(string, Json)>, key: string)
    ensures Lookup(fields, key).None? <==> forall i :: 0 <= i < |fields| ==> fields[i].0 != key
    ensures Lookup(fields, key).Some? ==> exists i :: 0 <= i < |fields| && fields[i] == (key, Lookup(fields, key).value)
    decreases |fields|
  {
    if |fields| > 0 && fields[0].0 != key {
      LookupFinds(fields[1..], key);
      if Lookup(fields, key).Some? {
        var i :| 0 <= i < |fields| - 1 && fields[1..][i] == (key, Lookup(fields, key).value);
        assert fields[i + 1] == (key, Lookup(fields, key).value);
      }
      forall i | 0 < i < |fields|
        ensures fields[i] == fields[1..][i - 1]
      {
      }
    }
  }

  /** `v.get(key)` when `v` is an object; nothing for any other value. */
  function Field(v: Json, key: string): Option<Json> {
    match v
    case JObj(fields) => Lookup(fields, key)
    case _ => None
  }

  /** `v.get(key, default)`. */
  function GetOr(v: Json, key: string, default: Json): Json {
    Field(v, key).GetOr(default)
  }

  /** `v.get(key)`: a missing key reads as `None`. */
  function Get(v: Json, key: string): Json {
    GetOr(v, key, JNull)
  }

  /** The elements of `v` when it is a list; a value of any other kind reads as no elements. */
  function AsList(v: Json): seq<Json> {
    match v
    case JArr(items) => items
    case _ => []
  }

  /** The text of `v` when it is a string; a value of any other kind reads as "". */
  function AsText(v: Json): string {
    match v
    case JStr(s) => s
    case _ => ""
  }

  /** `v or default`: a falsy value gives way to `default`. */
  function OrElse(v: Json, default: Json): Json {
    if Truthy(v) then v else default
  }

  /**
    Python's `sub in v`: a substring test on a string, an element test on a
    list, a key test on an object. No other value holds anything (Python
    raises TypeError on them).
   */
  predicate Includes(v: Json, sub: string) {
    match v
    case JStr(s) => Contains(s, sub)
    case JArr(items) => JStr(sub) in items
    case JObj(fields) => Lookup(fields, sub).Some?
    case _ => false
  }

  const EmptyObject: Json := JObj([])
  const EmptyList: Json := JArr([])
  const EmptyText: Json := JStr("")
}
