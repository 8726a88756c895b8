/** The `_serialize` / `_deserialize` dispatch of the two controller
    generations: acapy_controller/controller.py and controller/controller.py.
    Python's runtime type tests are abstracted to the capabilities a value or
    a type has. */
module Serde {
  import opened Wrappers
  import opened Json
  import opened Errors
  import Minimal

  /** A value handed to `_serialize`: `None`, or an object with the mapping
      each of its capabilities would produce (its items as a `Mapping`, its
      `serialize()` as a `Serde`, its `dict(by_alias=True, exclude_unset=True,
      exclude_none=True)` as a pydantic `BaseModel`, its `asdict` as a
      dataclass); `None` where it lacks that capability. */
  datatype PyObject =
    | PyNone
    | PyObj(asMapping: Option<map<string, Json>>, serialized: Option<map<string, Json>>,
            pydanticDict: Option<map<string, Json>>, asDict: Option<map<string, Json>>)

  /** `_serialize` in acapy_controller/controller.py: Serde before Mapping,
      no pydantic branch. */
  function SerializeAcapy(v: PyObject): (r: Result<Option<map<string, Json>>, Error>)
    ensures r == Success(None) <==> v.PyNone?
    ensures r.Failure? <==> v.PyObj? && v.serialized.None? && v.asMapping.None? && v.asDict.None?
    ensures r.Failure? ==> r.error.TypeError?
    ensures v.PyObj? && v.serialized.Some? ==> r == Success(v.serialized)
    ensures v.PyObj? && v.serialized.None? && v.asMapping.Some? ==> r == Success(v.asMapping)
  {
    match v
    case PyNone => Success(None)
    case PyObj(asMapping, serialized, _, asDict) =>
      if serialized.Some? then Success(serialized)
      else if asMapping.Some? then Success(asMapping)
      else if asDict.Some? then Success(asDict)
      else Failure(TypeError("Could not serialize value"))
  }

  /** `_serialize` in controller/controller.py: Mapping before Serde, then
      pydantic, then dataclass. */
  function SerializeLegacy(v: PyObject): (r: Result<Option<map<string, Json>>, Error>)
    ensures r == Success(None) <==> v.PyNone?
    ensures r.Failure? <==> v.PyObj? && v.asMapping.None? && v.serialized.None? && v.pydanticDict.None? && v.asDict.None?
    ensures r.Failure? ==> r.error.TypeError?
    ensures v.PyObj? && v.asMapping.Some? ==> r == Success(v.asMapping)
    ensures v.PyObj? && v.asMapping.None? && v.serialized.Some? ==> r == Success(v.serialized)
  {
    match v
    case PyNone => Success(None)
    case PyObj(asMapping, serialized, pydanticDict, asDict) =>
      if asMapping.Some? then Success(asMapping)
      else if serialized.Some? then Success(serialized)
      else if pydanticDict.Some? then Success(pydanticDict)
      else if asDict.Some? then Success(asDict)
      else Failure(TypeError("Could not serialize value"))
  }

  /** The two generations serialize alike except in exactly two situations:
      an object that is both a Mapping and a Serde with different contents,
      and an object whose only capability besides dataclass is pydantic. */
  lemma SerializeGenerationsAgree(v: PyObject)
    ensures SerializeAcapy(v) != SerializeLegacy(v) <==>
              v.PyObj? &&
              ((v.asMapping.Some? && v.serialized.Some? && v.asMapping != v.serialized) ||
               (v.asMapping.None? && v.serialized.None? && v.pydanticDict.Some? && v.pydanticDict != v.asDict))
  {
  }

  /** A Python type handed to `_deserialize` as `as_type`. */
  datatype TypeTag =
    | NoType                                /* `as_type=None` */
    | ListOf(item: TypeTag)                 /* `list[X]` */
    | OtherGeneric                          /* another parameterised alias, e.g. `dict[str, X]` */
    | MinimalClass(cls: Minimal.RecordClass) /* a `Minimal` subclass: a Serde, a dataclass and a Mapping */
    | DataclassOnly(required: set<string>, optional: set<string>) /* a plain dataclass */
    | MappingClass                          /* a `Mapping` subclass such as `dict` */
    | PydanticModel                         /* a pydantic model that does not implement Serde */
    | OtherClass                            /* any other class */
  {
    predicate Valid()
      decreases this
    {
      match this
      case ListOf(item) => item.Valid()
      case MinimalClass(cls) => cls.Valid()
      case _ => true
    }
  }

  /** What `_deserialize` produced. `Parsed` is whatever pydantic's validation
      makes of the value, which lies outside this model. */
  datatype Decoded =
    | Raw(value: Json)
    | Instance(cls: Minimal.RecordClass, rec: Minimal.Record)
    | DataclassInstance(fields: map<string, Json>)
    | Items(items: seq<Decoded>)
    | Parsed(tag: TypeTag, value: Json)

  /** `_deserialize` in acapy_controller/controller.py. */
  function DeserializeAcapy(value: Json, t: TypeTag): (r: Result<Decoded, Error>)
    requires t.Valid()
    decreases t, 1
    ensures value == JNull ==> r == Success(Raw(JNull))
    ensures (t.NoType? || t.MappingClass?) ==> r == Success(Raw(value))
    ensures value != JNull && (t.OtherGeneric? || t.PydanticModel? || t.OtherClass?) ==> r.Failure? && r.error.TypeError?
    ensures value != JNull && t.MinimalClass? ==>
              (r.Success? <==> value.JObject? && Minimal.Deserialized(t.cls, value.fields).Success?)
    ensures value != JNull && t.MinimalClass? && r.Success? ==>
              r.value == Instance(t.cls, Minimal.Deserialized(t.cls, value.fields).value)
    ensures value != JNull && t.DataclassOnly? ==>
              (r.Success? <==> value.JObject? && BindsKeywords(value.fields, t.required, t.optional))
    ensures value != JNull && t.ListOf? && r.Success? ==> value.JArray? && r.value.Items? && |r.value.items| == |value.items|
  {
    if value == JNull then Success(Raw(JNull))
    else match t
      case NoType => Success(Raw(value))
      case ListOf(item) =>
        if value.JArray? then
          var items :- DeserializeItemsAcapy(value.items, item);
          Success(Items(items))
        else Failure(TypeError("object is not iterable"))
      case OtherGeneric => Failure(TypeError("issubclass() arg 1 must be a class"))
      case MinimalClass(cls) =>
        if value.JObject? then
          var rec :- Minimal.Deserialized(cls, value.fields);
          Success(Instance(cls, rec))
        else Failure(AttributeError("items"))
      case DataclassOnly(required, optional) =>
        if !value.JObject? then Failure(TypeError("argument after ** must be a mapping"))
        else if BindsKeywords(value.fields, required, optional) then Success(DataclassInstance(value.fields))
        else Failure(TypeError("unexpected or missing keyword argument"))
      case MappingClass => Success(Raw(value))
      case PydanticModel => Failure(TypeError("Could not deserialize value into type"))
      case OtherClass => Failure(TypeError("Could not deserialize value into type"))
  }

  /** The list comprehension `[_deserialize(item, args[0]) for item in value]`:
      the first failure propagates. */
  function DeserializeItemsAcapy(items: seq<Json>, t: TypeTag): (r: Result<seq<Decoded>, Error>)
    requires t.Valid()
    decreases t, 2, |items|
    ensures r.Success? ==> |r.value| == |items|
  {
    if items == [] then Success([])
    else
      var first :- DeserializeAcapy(items[0], t);
      var rest :- DeserializeItemsAcapy(items[1..], t);
      Success([first] + rest)
  }

  /** A list deserializes element by element: it succeeds iff every element
      does, and then holds each element's result in order. */
  lemma {:induction false} ItemsElementwise(items: seq<Json>, t: TypeTag)
    requires t.Valid()
    ensures DeserializeItemsAcapy(items, t).Success? <==> forall i :: 0 <= i < |items| ==> DeserializeAcapy(items[i], t).Success?
    ensures DeserializeItemsAcapy(items, t).Success? ==>
              forall i :: 0 <= i < |items| ==> DeserializeItemsAcapy(items, t).value[i] == DeserializeAcapy(items[i], t).value
    decreases |items|
  {
    if items != [] {
      ItemsElementwise(items[1..], t);
      assert forall i :: 1 <= i < |items| ==> items[i] == items[1..][i - 1];
    }
  }

  /** `_deserialize` in controller/controller.py: no `None` test; any
      parameterised type and any pydantic model go to pydantic; Mapping is
      tested before Serde. */
  function DeserializeLegacy(value: Json, t: TypeTag): (r: Result<Decoded, Error>)
    requires t.Valid()
    ensures (t.NoType? || t.MappingClass? || t.MinimalClass?) ==> r == Success(Raw(value))
    ensures (t.ListOf? || t.OtherGeneric? || t.PydanticModel?) ==> r == Success(Parsed(t, value))
    ensures t.OtherClass? ==> r.Failure? && r.error.TypeError?
    ensures t.DataclassOnly? ==> (r.Success? <==> value.JObject? && BindsKeywords(value.fields, t.required, t.optional))
  {
    match t
    case NoType => Success(Raw(value))
    case ListOf(_) => Success(Parsed(t, value))
    case OtherGeneric => Success(Parsed(t, value))
    case MinimalClass(_) => Success(Raw(value))
    case MappingClass => Success(Raw(value))
    case PydanticModel => Success(Parsed(t, value))
    case DataclassOnly(required, optional) =>
      if !value.JObject? then Failure(TypeError("argument after ** must be a mapping"))
      else if BindsKeywords(value.fields, required, optional) then Success(DataclassInstance(value.fields))
      else Failure(TypeError("unexpected or missing keyword argument"))
    case OtherClass => Failure(TypeError("Could not deserialize value into type"))
  }

  /** `Minimal.into(cls)`: `_deserialize(self.serialize(), cls)`. */
  function Into(r: Minimal.Record, t: TypeTag): (d: Result<Decoded, Error>)
    requires t.Valid()
    ensures (t.NoType? || t.MappingClass?) ==> d == Success(Raw(JObject(Minimal.Serialize(r))))
    ensures t.MinimalClass? ==> (d.Success? <==> Minimal.Deserialized(t.cls, Minimal.Serialize(r)).Success?)
    ensures t.MinimalClass? && d.Success? ==> d.value == Instance(t.cls, Minimal.Deserialized(t.cls, Minimal.Serialize(r)).value)
    ensures (t.OtherGeneric? || t.PydanticModel? || t.OtherClass?) ==> d.Failure? && d.error.TypeError?
  {
    DeserializeAcapy(JObject(Minimal.Serialize(r)), t)
  }

  /** Converting a deserialized record into its own class rebuilds the same
      record. */
  lemma IntoOwnClass(cls: Minimal.RecordClass, value: map<string, Json>)
    requires cls.Valid() && Minimal.Deserialized(cls, value).Success?
    ensures Into(Minimal.Deserialized(cls, value).value, MinimalClass(cls)) ==
              Success(Instance(cls, Minimal.Deserialized(cls, value).value))
  {
    Minimal.SerializeAfterDeserialize(cls, value);
    Minimal.DeserializeWithDefaults(cls, value);
  }
}
