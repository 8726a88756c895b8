/** Query-parameter and keyword helpers: `_serialize_param` and `params` of
    acapy_controller/controller.py, which controller/protocols.py repeats as
    `_serialize_param` and `_make_params`, and acapy's `omit_none`.
    `json.dumps` is the parameter `dumps`, an encoder the model does not open. */
module Params {
  import opened Wrappers
  import opened Json
  import opened Errors

  /** Values sent as they are: `str`, `int` and `float`, but not `bool`. */
  predicate IsPlainScalar(v: Json) {
    v.JString? || v.JInt? || v.JFloat?
  }

  /** `_serialize_param`: plain scalars unchanged, anything else JSON-encoded. */
  function SerializeParam(v: Json, dumps: Json -> string): (r: Json)
    ensures IsPlainScalar(r)
    ensures IsPlainScalar(v) ==> r == v
    ensures !IsPlainScalar(v) ==> r == JString(dumps(v))
  {
    if IsPlainScalar(v) then v else JString(dumps(v))
  }

  /** `params(**kwargs)` / `_make_params(**kwargs)`. */
  function MakeParams(kwargs: map<string, Json>, dumps: Json -> string): (r: map<string, Json>)
    ensures forall k :: k in r <==> k in kwargs && kwargs[k] != JNull
    ensures forall k :: k in r ==> IsPlainScalar(r[k])
    ensures forall k :: k in r && IsPlainScalar(kwargs[k]) ==> r[k] == kwargs[k]
  {
    map k | k in kwargs && kwargs[k] != JNull :: SerializeParam(kwargs[k], dumps)
  }

  /** The result keeps exactly the keys whose value is not None, each with its
      serialized value; every value sent is a plain scalar. */
  lemma MakeParamsKeys(kwargs: map<string, Json>, dumps: Json -> string)
    ensures MakeParams(kwargs, dumps).Keys == set k | k in kwargs && kwargs[k] != JNull
    ensures forall k :: k in MakeParams(kwargs, dumps) ==>
              IsPlainScalar(MakeParams(kwargs, dumps)[k]) && MakeParams(kwargs, dumps)[k] == SerializeParam(kwargs[k], dumps)
  {
  }

  /** Serializing parameters twice changes nothing. */
  lemma MakeParamsIdempotent(kwargs: map<string, Json>, dumps: Json -> string)
    ensures MakeParams(MakeParams(kwargs, dumps), dumps) == MakeParams(kwargs, dumps)
  {
    var once := MakeParams(kwargs, dumps);
    var twice := MakeParams(once, dumps);
    assert twice.Keys == once.Keys;
    forall k | k in once ensures twice[k] == once[k] {
      assert IsPlainScalar(once[k]);
    }
  }

  /** The mapping with its None-valued entries left out. */
  function WithoutNone(m: map<string, Json>): map<string, Json> {
    map k | k in m && m[k] != JNull :: m[k]
  }

  /** `omit_none(mapping=None, **kwargs)`: either a mapping or keywords, not
      both and not neither (an empty one counts as not given). */
  function OmitNone(mapping: Option<map<string, Json>>, kwargs: map<string, Json>): (r: Result<map<string, Json>, Error>)
    ensures r.Failure? <==>
              (mapping.Some? && mapping.value != map[] && kwargs != map[])
              || (kwargs == map[] && (mapping.None? || mapping.value == map[]))
    ensures r.Success? && kwargs != map[] ==> r.value == WithoutNone(kwargs)
    ensures r.Success? && kwargs == map[] ==> mapping.Some? && r.value == WithoutNone(mapping.value)
  {
    var mappingGiven := mapping.Some? && mapping.value != map[];
    if mappingGiven && kwargs != map[] then
      Failure(ValueError("Either pass a dict or use kwargs but not both"))
    else
      var chosen := if kwargs != map[] then Some(kwargs) else mapping;
      if chosen.None? || chosen.value == map[] then Failure(ValueError("Expected mapping or kwargs"))
      else Success(WithoutNone(chosen.value))
  }

  /** What `omit_none` returns has no None values and is a sub-mapping of its
      input; applying it again (when anything is left) changes nothing. */
  lemma OmitNoneResult(mapping: Option<map<string, Json>>, kwargs: map<string, Json>)
    requires OmitNone(mapping, kwargs).Success?
    ensures var out := OmitNone(mapping, kwargs).value;
            var src := if kwargs != map[] then kwargs else mapping.value;
            && (forall k :: k in out ==> out[k] != JNull && k in src && src[k] == out[k])
            && (forall k :: k in src && src[k] != JNull ==> k in out)
            && (out != map[] ==> OmitNone(Some(out), map[]) == Success(out))
  {
    var out := OmitNone(mapping, kwargs).value;
    assert WithoutNone(out) == out;
  }

  /** `omit_none(key=None)` is not an error: the keywords were given, and the
      result is empty. */
  lemma OmitNoneAllNone(key: string)
    ensures OmitNone(None, map[key := JNull]) == Success(map[])
  {
    var m := map[key := JNull];
    assert WithoutNone(m).Keys == {};
    assert m != map[] by { assert key in m; }
  }
}
