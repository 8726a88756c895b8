/** acapy_controller/controller.py's `Minimal`: a dataclass record that keeps
    the keys it does not declare in an `_extra` dict, so that a record read from
    the agent can be written back without losing fields. */
module Minimal {
  import opened Wrappers
  import opened Json
  import opened Errors

  /** `_extra` is a dataclass field of `Minimal` itself, so every subclass has it. */
  const ExtraField := "_extra"

  /** A `Minimal` subclass: its declared fields without a default (`required`)
      and with one (`defaults`). */
  datatype RecordClass = RecordClass(required: set<string>, defaults: map<string, Json>) {
    predicate Valid() {
      required !! defaults.Keys && ExtraField !in required && ExtraField !in defaults
    }

    function Declared(): set<string> {
      required + defaults.Keys
    }

    /** The names `dataclasses.fields(cls)` yields: the declared ones and `_extra`. */
    function FieldNames(): set<string> {
      Declared() + {ExtraField}
    }
  }

  /** An instance: its declared fields' values and its `_extra` dict. */
  datatype Record = Record(fields: map<string, Json>, extra: map<string, Json>)

  /** What `Minimal.deserialize` computes: keys naming a dataclass field go to
      the constructor, all others to `_extra`; the constructor call
      `cls(**filtered, _extra=extra)` then fails on a missing required field, or
      on an input key `_extra` (a second value for that keyword). */
  function Deserialized(cls: RecordClass, value: map<string, Json>): (r: Result<Record, Error>)
    requires cls.Valid()
    ensures r.Success? <==> ExtraField !in value && cls.required <= value.Keys
    ensures r.Success? ==>
              && r.value.fields.Keys == cls.Declared()
              && r.value.extra.Keys == value.Keys - cls.Declared()
              && (forall k :: k in value && k in cls.Declared() ==> r.value.fields[k] == value[k])
              && (forall k :: k in value && k !in cls.Declared() ==> r.value.extra[k] == value[k])
              && (forall k :: k in cls.defaults && k !in value ==> r.value.fields[k] == cls.defaults[k])
  {
    var filtered := map k | k in value && k in cls.FieldNames() :: value[k];
    var extra := map k | k in value && k !in cls.FieldNames() :: value[k];
    if ExtraField in filtered then Failure(TypeError("got multiple values for keyword argument '_extra'"))
    else if !(cls.required <= filtered.Keys) then Failure(TypeError("missing a required field"))
    else Success(Record(cls.defaults + filtered, extra))
  }

  /** `Minimal.deserialize`: the loop over `value.items()` filling `filtered`
      and `extra`, then the constructor call. */
  method Deserialize(cls: RecordClass, value: map<string, Json>) returns (r: Result<Record, Error>)
    requires cls.Valid()
    ensures r == Deserialized(cls, value)
  {
    var names := cls.FieldNames();
    var filtered: map<string, Json> := map[];
    var extra: map<string, Json> := map[];
    var remaining := value.Keys;
    while remaining != {}
      invariant remaining <= value.Keys
      invariant filtered == map k | k in value && k !in remaining && k in names :: value[k]
      invariant extra == map k | k in value && k !in remaining && k !in names :: value[k]
      decreases remaining
    {
      var key :| key in remaining;
      if key in names {
        filtered := filtered[key := value[key]];
      } else {
        extra := extra[key := value[key]];
      }
      remaining := remaining - {key};
    }
    assert filtered == map k | k in value && k in names :: value[k];
    assert extra == map k | k in value && k !in names :: value[k];
    if ExtraField in filtered {
      r := Failure(TypeError("got multiple values for keyword argument '_extra'"));
    } else if !(cls.required <= filtered.Keys) {
      r := Failure(TypeError("missing a required field"));
    } else {
      r := Success(Record(cls.defaults + filtered, extra));
    }
  }

  /** `serialize`: `asdict(self)`, with the nested `_extra` popped and its
      entries merged in at the top level. */
  function Serialize(r: Record): (m: map<string, Json>)
    ensures m.Keys == (r.fields.Keys - {ExtraField}) + r.extra.Keys
    ensures forall k :: k in r.extra ==> m[k] == r.extra[k]
    ensures forall k :: k in r.fields && k != ExtraField && k !in r.extra ==> m[k] == r.fields[k]
  {
    var asDict := r.fields[ExtraField := JObject(r.extra)];
    (asDict - {ExtraField}) + r.extra
  }

  /** Round trip: serializing a deserialized record gives back the input, with
      the default of every declared field the input left out filled in; it is
      the input exactly when the input named all fields that have defaults. */
  lemma SerializeAfterDeserialize(cls: RecordClass, value: map<string, Json>)
    requires cls.Valid() && Deserialized(cls, value).Success?
    ensures Serialize(Deserialized(cls, value).value) == cls.defaults + value
    ensures Serialize(Deserialized(cls, value).value) == value <==> cls.defaults.Keys <= value.Keys
  {
    var rec := Deserialized(cls, value).value;
    var s := Serialize(rec);
    assert s.Keys == cls.defaults.Keys + value.Keys;
    forall k | k in s ensures s[k] == (cls.defaults + value)[k] {
      if k in value && k !in cls.Declared() {
        assert k in rec.extra;
      }
    }
    assert s == cls.defaults + value;
    if cls.defaults.Keys <= value.Keys {
      assert (cls.defaults + value).Keys == value.Keys;
    }
  }

  /** Filling in the defaults before deserializing changes nothing: the
      constructor would have filled them in anyway. */
  lemma DeserializeWithDefaults(cls: RecordClass, value: map<string, Json>)
    requires cls.Valid() && Deserialized(cls, value).Success?
    ensures Deserialized(cls, cls.defaults + value) == Deserialized(cls, value)
  {
    var a := Deserialized(cls, value).value;
    var full := cls.defaults + value;
    var b := Deserialized(cls, full).value;
    assert b.fields.Keys == a.fields.Keys;
    forall k | k in a.fields ensures b.fields[k] == a.fields[k] {
      assert k in full;
    }
    assert full.Keys - cls.Declared() == value.Keys - cls.Declared();
    assert b.fields == a.fields;
    assert b.extra == a.extra;
  }

  lemma SerializeKeys(r: Record)
    ensures Serialize(r).Keys == (r.fields.Keys - {ExtraField}) + r.extra.Keys
  {
  }

  /** The keys `__iter__` yields. */
  function IteratedKeys(r: Record): set<string> {
    Serialize(r).Keys
  }

  /** `__len__` as written: `len(fields(self)) + len(self._extra)`, where
      `fields` includes `_extra` itself. */
  function LenAsWritten(cls: RecordClass, r: Record): (n: nat)
    ensures ExtraField !in cls.Declared() ==> n == Len(cls, r) + 1
  {
    if ExtraField !in cls.Declared() then
      DisjointUnionSize(cls.Declared(), {ExtraField});
      |cls.FieldNames()| + |r.extra|
    else
      |cls.FieldNames()| + |r.extra|
  }

  /** `__len__` as evidently intended: the declared fields plus the extra keys. */
  function Len(cls: RecordClass, r: Record): (n: nat)
    ensures r.fields.Keys == cls.Declared() && ExtraField !in cls.Declared() && cls.Declared() !! r.extra.Keys ==>
              n == |IteratedKeys(r)|
  {
    if r.fields.Keys == cls.Declared() && ExtraField !in cls.Declared() && cls.Declared() !! r.extra.Keys then
      IteratedKeysSize(r, cls.Declared());
      |cls.Declared()| + |r.extra|
    else
      |cls.Declared()| + |r.extra|
  }

  lemma DisjointUnionSize(a: set<string>, b: set<string>)
    requires a !! b
    ensures |a + b| == |a| + |b|
  {
    assert a + b - b == a;
  }

  lemma SubsetSize(a: set<string>, b: set<string>)
    requires a <= b
    ensures |a| <= |b|
  {
    assert b == a + (b - a);
    DisjointUnionSize(a, b - a);
  }

  /** A class declaring two distinct fields gives every instance a length of
      at least two, and of at least three as `__len__` is written. */
  lemma TwoDeclaredFields(cls: RecordClass, r: Record, a: string, b: string)
    requires cls.Valid() && a != b && a in cls.Declared() && b in cls.Declared()
    ensures Len(cls, r) >= 2
    ensures LenAsWritten(cls, r) >= 3
  {
    assert |{a, b}| == 2;
    SubsetSize({a, b}, cls.Declared());
    DisjointUnionSize(cls.Declared(), {ExtraField});
  }

  /** The corrected length counts exactly the keys iteration yields. */
  lemma LenCountsIteratedKeys(cls: RecordClass, value: map<string, Json>)
    requires cls.Valid() && Deserialized(cls, value).Success?
    ensures Len(cls, Deserialized(cls, value).value) == |IteratedKeys(Deserialized(cls, value).value)|
  {
    var rec := Deserialized(cls, value).value;
    IteratedKeysSize(rec, cls.Declared());
  }

  lemma IteratedKeysSize(r: Record, declared: set<string>)
    requires r.fields.Keys == declared && ExtraField !in declared && declared !! r.extra.Keys
    ensures |IteratedKeys(r)| == |declared| + |r.extra|
  {
    SerializeKeys(r);
    assert r.fields.Keys - {ExtraField} == declared;
    DisjointUnionSize(declared, r.extra.Keys);
  }

  /** The length as written is one more than the number of keys iteration
      yields, for every record: `len(list(r)) != len(r)`. */
  lemma LenAsWrittenOvercounts(cls: RecordClass, value: map<string, Json>)
    requires cls.Valid() && Deserialized(cls, value).Success?
    ensures LenAsWritten(cls, Deserialized(cls, value).value) == |IteratedKeys(Deserialized(cls, value).value)| + 1
  {
    LenCountsIteratedKeys(cls, value);
    DisjointUnionSize(cls.Declared(), {ExtraField});
  }

  /** `__getitem__`: reads `_extra` only, raising KeyError otherwise. */
  function GetItem(r: Record, key: string): (v: Result<Json, Error>)
    ensures v.Success? ==> key in IteratedKeys(r) && v.value == Serialize(r)[key]
    ensures v.Failure? <==> key !in r.extra
    ensures v.Failure? ==> v.error == KeyError(key)
  {
    if key in r.extra then Success(r.extra[key]) else Failure(KeyError(key))
  }

  /** Subscripting a deserialized record finds exactly the input keys the class
      does not declare; a declared field's name raises KeyError although
      iteration yields it. */
  lemma GetItemReadsExtraOnly(cls: RecordClass, value: map<string, Json>, key: string)
    requires cls.Valid() && Deserialized(cls, value).Success?
    ensures GetItem(Deserialized(cls, value).value, key).Success? <==> key in value && key !in cls.Declared()
    ensures GetItem(Deserialized(cls, value).value, key).Success? ==>
              GetItem(Deserialized(cls, value).value, key).value == value[key]
    ensures key in cls.Declared() ==>
              key in IteratedKeys(Deserialized(cls, value).value) && GetItem(Deserialized(cls, value).value, key).Failure?
  {
  }
}
