/** Shared value types: optional values, results with an error side, and the
    JSON values that `json.loads` produces. */
module Common {
  import opened Text

  datatype Option<T> = None | Some(value: T) {
    /** `dict.get(key, default)` for a key that may be absent. */
    function GetOr(default: T): T {
      match this
      case Some(v) => v
      case None => default
    }
  }

  /** A computation that either succeeds or raises one of the source's errors. */
  datatype Result<T, E> = Ok(value: T) | Err(error: E)

  /** A decoded JSON document, as Python's `json` module represents it. */
  datatype Json =
    | JNull
    | JBool(b: bool)
    | JNumber(n: real)
    | JString(s: string)
    | JArray(items: seq<Json>)
    | JObject(fields: map<string, Json>)

  /** Python's `key in value` for a decoded JSON value: a key of an object, an
      element of a list, a substring of a string. For a number, a boolean or
      `None` Python raises `TypeError`, shown here as `None`. */
  function In(key: string, j: Json): (r: Option<bool>)
    ensures j.JObject? ==> r == Some(key in j.fields)
    ensures j.JArray? ==> r == Some(JString(key) in j.items)
    ensures (j.JNumber? || j.JBool? || j.JNull?) ==> r.None?
  {
    match j
    case JObject(m) => Some(key in m)
    case JArray(items) => Some(JString(key) in items)
    case JString(s) => Some(Contains(s, key))
    case _ => None
  }

  /** A JSON value Python compares as a number: a number or a boolean
      (`True` is 1, `False` is 0). */
  function Num(j: Json): (r: Option<real>)
    ensures r.Some? <==> j.JNumber? || j.JBool?
    ensures j.JNumber? ==> r == Some(j.n)
  {
    match j
    case JNumber(n) => Some(n)
    case JBool(b) => Some(if b then 1.0 else 0.0)
    case _ => None
  }

  /** `value[key]` with a string key: only an object that has the key gives a
      value; anything else raises (`KeyError` or `TypeError`), shown as `None`. */
  function Get(j: Json, key: string): (r: Option<Json>)
    ensures r.Some? <==> j.JObject? && key in j.fields
    ensures r.Some? ==> r.value == j.fields[key]
  {
    match j
    case JObject(m) => if key in m then Some(m[key]) else None
    case _ => None
  }

  /** `value.get(key, default)`: only an object has `get`; for anything else
      Python raises `AttributeError`, shown as `None`. */
  function GetOr(j: Json, key: string, default: Json): (r: Option<Json>)
    ensures r.Some? <==> j.JObject?
    ensures j.JObject? && key in j.fields ==> r == Some(j.fields[key])
    ensures j.JObject? && key !in j.fields ==> r == Some(default)
  {
    match j
    case JObject(m) => Some(if key in m then m[key] else default)
    case _ => None
  }

  /** No value occurs twice. */
  predicate Distinct<T(==)>(s: seq<T>) {
    forall a, b :: 0 <= a < b < |s| ==> s[a] != s[b]
  }

  lemma DistinctAppend<T>(s: seq<T>, x: T)
    requires Distinct(s) && x !in s
    ensures Distinct(s + [x])
  {
  }

  /** `[f(x) for x in s]`. */
  function Map<T, U>(f: T -> U, s: seq<T>): (r: seq<U>)
    ensures |r| == |s|
    ensures forall i :: 0 <= i < |s| ==> r[i] == f(s[i])
  {
    seq(|s|, i requires 0 <= i < |s| => f(s[i]))
  }

  lemma MapCons<T, U>(f: T -> U, s: seq<T>)
    requires |s| > 0
    ensures Map(f, s) == [f(s[0])] + Map(f, s[1..])
  {
    var r := [f(s[0])] + Map(f, s[1..]);
    forall k | 0 <= k < |s| ensures Map(f, s)[k] == r[k] {
      if k > 0 {
        assert s[1..][k - 1] == s[k];
      }
    }
  }
}
