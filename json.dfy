/** Decoded JSON values as Python sees them after `json.loads`, with the parts of
    Python's semantics the controller relies on: `==`, truthiness, `dict.get`, and
    the binding of `f(**mapping)` to a dataclass's fields. */
module Json {
  import opened Wrappers

  /** A JSON object is a `map`: Python's dict equality ignores key order. */
  datatype Json =
    | JNull
    | JBool(b: bool)
    | JInt(i: int)
    | JFloat(r: real)
    | JString(s: string)
    | JArray(items: seq<Json>)
    | JObject(fields: map<string, Json>)

  /** `bool` is a subclass of `int` in Python, so booleans compare as numbers. */
  predicate IsNumber(j: Json) {
    j.JBool? || j.JInt? || j.JFloat?
  }

  function NumberValue(j: Json): real
    requires IsNumber(j)
  {
    match j
    case JBool(b) => if b then 1.0 else 0.0
    case JInt(i) => i as real
    case JFloat(r) => r
  }

  /** Python's `a == b` on decoded JSON: numbers (booleans included) compare by
      value, so `True == 1 == 1.0`; lists element-wise; dicts by key set and
      value; anything else only with its own kind. */
  predicate PyEq(a: Json, b: Json)
    decreases a
  {
    if IsNumber(a) && IsNumber(b) then NumberValue(a) == NumberValue(b)
    else match (a, b)
      case (JNull, JNull) => true
      case (JString(x), JString(y)) => x == y
      case (JArray(xs), JArray(ys)) =>
        |xs| == |ys| && forall i :: 0 <= i < |xs| ==> PyEq(xs[i], ys[i])
      case (JObject(m), JObject(n)) =>
        m.Keys == n.Keys && forall k :: k in m ==> PyEq(m[k], n[k])
      case _ => false
  }

  /** Every value equals itself (there is no NaN among the modelled numbers). */
  lemma {:induction false} PyEqReflexive(a: Json)
    ensures PyEq(a, a)
    decreases a
  {
    match a
    case JArray(xs) =>
      forall i | 0 <= i < |xs| ensures PyEq(xs[i], xs[i]) {
        PyEqReflexive(xs[i]);
      }
    case JObject(m) =>
      forall k | k in m ensures PyEq(m[k], m[k]) {
        PyEqReflexive(m[k]);
      }
    case _ =>
  }

  lemma {:induction false} PyEqSymmetric(a: Json, b: Json)
    ensures PyEq(a, b) <==> PyEq(b, a)
    decreases a
  {
    match (a, b)
    case (JArray(xs), JArray(ys)) =>
      if |xs| == |ys| {
        forall i | 0 <= i < |xs| ensures PyEq(xs[i], ys[i]) <==> PyEq(ys[i], xs[i]) {
          PyEqSymmetric(xs[i], ys[i]);
        }
      }
    case (JObject(m), JObject(n)) =>
      if m.Keys == n.Keys {
        forall k | k in m ensures PyEq(m[k], n[k]) <==> PyEq(n[k], m[k]) {
          PyEqSymmetric(m[k], n[k]);
        }
      }
    case _ =>
  }

  /** Comparing with a string or with None is plain structural equality: the
      tests `topic == "ping"` and `wallet_id == controller.wallet_id` mean what
      they say. */
  lemma PyEqWithStringOrNull(a: Json, s: string)
    ensures PyEq(a, JString(s)) <==> a == JString(s)
    ensures PyEq(a, JNull) <==> a == JNull
  {
  }

  /** `mapping.get(key)`: the value, or None (JSON null) for a missing key. */
  function Get(m: map<string, Json>, key: string): Json {
    if key in m then m[key] else JNull
  }

  /** Python truthiness of a decoded value (`if value:`). */
  predicate Truthy(j: Json) {
    match j
    case JNull => false
    case JBool(b) => b
    case JInt(i) => i != 0
    case JFloat(r) => r != 0.0
    case JString(s) => s != ""
    case JArray(xs) => xs != []
    case JObject(m) => m != map[]
  }

  /** Python truthiness of an `Optional[str]` argument. */
  predicate StrTruthy(s: Option<string>) {
    s.Some? && s.value != ""
  }

  /** `Optional[str]` as the JSON value Python would compare it with. */
  function OptString(s: Option<string>): Json {
    if s.Some? then JString(s.value) else JNull
  }

  /** `C(**m)` succeeds for a dataclass `C` whose fields without defaults are
      `required` and whose fields with defaults are `optional`: every required
      name is given and no unknown name is. */
  predicate BindsKeywords(m: map<string, Json>, required: set<string>, optional: set<string>) {
    required <= m.Keys && m.Keys <= required + optional
  }
}
