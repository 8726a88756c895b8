/** The predicates the controllers hand to `event_queue.get` and the error a
    timed-out wait becomes. The queue itself is not modelled: what `get`
    returned is a parameter. */
module Correlation {
  import opened Wrappers
  import opened Json
  import opened Errors
  import opened Events
  import Serde

  /** A Python predicate call either yields a truth value or raises. */
  datatype PredResult = Holds(b: bool) | Raises

  /** `event.topic == topic` against a `str` topic. */
  predicate TopicIs(e: Event, topic: string) {
    PyEq(e.topic, JString(topic))
  }

  /** The predicate of `event` / `record`:
      `event.topic == topic and (select(event) if select else True)`. */
  function SelectPredicate(topic: string, select: Option<Event -> bool>, e: Event): (r: bool)
    ensures r <==> e.topic == JString(topic) && (select.None? || select.value(e))
  {
    PyEqWithStringOrNull(e.topic, topic);
    TopicIs(e, topic) && (if select.Some? then select.value(e) else true)
  }

  /** The predicate of `event_with_values` / `record_with_values`:
      `event.topic == topic and all(event.payload.get(k) == v for k, v in values.items())`.
      `.get` on a payload that is not a dict raises. */
  function ValuesPredicate(topic: string, values: map<string, Json>, e: Event): (r: PredResult)
    ensures e.topic != JString(topic) ==> r == Holds(false)
    ensures values == map[] ==> r == Holds(e.topic == JString(topic))
    ensures r == Raises <==> e.topic == JString(topic) && values != map[] && !e.payload.JObject?
    ensures r == Holds(true) <==>
              e.topic == JString(topic)
              && (values == map[] || (e.payload.JObject? && forall k :: k in values ==> PyEq(Get(e.payload.fields, k), values[k])))
  {
    PyEqWithStringOrNull(e.topic, topic);
    if !TopicIs(e, topic) then Holds(false)
    else if values == map[] then Holds(true)
    else if !e.payload.JObject? then Raises
    else Holds(forall k :: k in values ==> PyEq(Get(e.payload.fields, k), values[k]))
  }

  /** A required `None` is met by a payload that lacks the key altogether. */
  lemma MissingKeyMatchesNone(topic: string, values: map<string, Json>, e: Event, key: string)
    requires e.payload.JObject? && key !in e.payload.fields
    requires key in values && values[key] == JNull
    ensures ValuesPredicate(topic, values, e) == ValuesPredicate(topic, values - {key}, e)
  {
    var rest := values - {key};
    if TopicIs(e, topic) {
      assert forall k :: k in values ==> k == key || k in rest;
      assert PyEq(Get(e.payload.fields, key), values[key]);
    }
  }

  /** Asking for fewer values never turns a match into a miss. */
  lemma ValuesPredicateMonotone(topic: string, fewer: map<string, Json>, more: map<string, Json>, e: Event)
    requires fewer.Keys <= more.Keys && forall k :: k in fewer ==> fewer[k] == more[k]
    requires ValuesPredicate(topic, more, e) == Holds(true)
    ensures ValuesPredicate(topic, fewer, e) == Holds(true)
  {
  }

  /** Asking for one value: an event matches iff it is on the topic, its
      payload is a dict, and `payload.get(key) == value`. */
  lemma SingleValueMatch(topic: string, key: string, v: Json)
    ensures forall e :: ValuesPredicate(topic, map[key := v], e) == Holds(true) <==>
              e.topic == JString(topic) && e.payload.JObject? && PyEq(Get(e.payload.fields, key), v)
  {
    var values := map[key := v];
    forall e | true
      ensures ValuesPredicate(topic, values, e) == Holds(true) <==>
                e.topic == JString(topic) && e.payload.JObject? && PyEq(Get(e.payload.fields, key), v)
    {
      assert key in values && values[key] == v && values != map[];
      assert forall k :: k in values ==> k == key;
    }
  }

  /** Python equality in the match: a required `True` is met by a payload
      value `1`. */
  lemma TrueMatchesOne(topic: string, key: string)
    ensures ValuesPredicate(topic, map[key := JBool(true)], Event(JString(topic), JObject(map[key := JInt(1)]), JNull)) == Holds(true)
  {
    var values := map[key := JBool(true)];
    var e := Event(JString(topic), JObject(map[key := JInt(1)]), JNull);
    assert Get(e.payload.fields, key) == JInt(1);
    assert forall k :: k in values ==> k == key;
  }

  /** The `timeout` a `get` call is given: none (the queue's own default), or
      an explicit value, where `None` is passed through as is. */
  datatype Timeout = QueueDefault | Given(seconds: Option<int>)

  /** What a `get` waits for. */
  datatype Matcher = BySelect(topic: string, select: Option<Event -> bool>) | ByValues(topic: string, values: map<string, Json>)

  datatype GetCall = GetCall(matcher: Matcher, timeout: Timeout)

  /** The closure a matcher stands for, applied to one event: a select
      closure never raises, and either closure accepts only events on its
      topic. */
  function Accepts(m: Matcher, e: Event): (r: PredResult)
    ensures m.BySelect? ==> r.Holds?
    ensures r == Holds(true) ==> e.topic == JString(m.topic)
    ensures r == Raises ==> m.ByValues? && m.values != map[] && !e.payload.JObject?
  {
    match m
    case BySelect(topic, select) => Holds(SelectPredicate(topic, select, e))
    case ByValues(topic, values) => ValuesPredicate(topic, values, e)
  }

  /** How a `get` ended. */
  datatype Outcome = Delivered(event: Event) | TimedOut

  /** A wait as a controller performs it: the `get` it issues (none when the
      queue is missing, which raises first) and what its caller receives. */
  datatype Wait = Wait(call: Option<GetCall>, result: Result<Serde.Decoded, Error>)

  const DefaultValuesTimeout := 5

  /** The `get` of acapy_controller's `event` and of controller/controller.py's
      `record`: the queue's default timeout, and a closure that accepts
      exactly the events on `topic` that `select`, when given, accepts. */
  function SelectCall(topic: string, select: Option<Event -> bool>): (c: GetCall)
    ensures c.timeout == QueueDefault
    ensures forall e :: Accepts(c.matcher, e) == Holds(e.topic == JString(topic) && (select.None? || select.value(e)))
  {
    GetCall(BySelect(topic, select), QueueDefault)
  }

  /** acapy_controller's `event_with_values` (and `record_with_values`):
      the closure is `ValuesPredicate`, and `timeout` defaults to 5 seconds. */
  function AcapyValuesCall(topic: string, values: map<string, Json>, timeout: Option<int>): (c: GetCall)
    ensures forall e :: Accepts(c.matcher, e) == ValuesPredicate(topic, values, e)
    ensures timeout.None? ==> c.timeout == Given(Some(DefaultValuesTimeout))
    ensures timeout.Some? ==> c.timeout == Given(timeout)
  {
    GetCall(ByValues(topic, values), Given(Some(timeout.GetOr(DefaultValuesTimeout))))
  }

  /** controller/controller.py's `record_with_values`: the same closure, and
      `timeout` defaults to `None`, which is passed on unchanged. */
  function LegacyValuesCall(topic: string, values: map<string, Json>, timeout: Option<int>): (c: GetCall)
    ensures forall e :: Accepts(c.matcher, e) == ValuesPredicate(topic, values, e)
    ensures c.timeout == Given(timeout)
  {
    GetCall(ByValues(topic, values), Given(timeout))
  }

  /** The two generations' values waits accept the same events; they differ
      only when no timeout is given, where the newer one waits 5 seconds and
      the older one passes `None`. */
  lemma ValuesWaitsAgree(topic: string, values: map<string, Json>, timeout: Option<int>)
    ensures forall e :: Accepts(AcapyValuesCall(topic, values, timeout).matcher, e)
                        == Accepts(LegacyValuesCall(topic, values, timeout).matcher, e)
    ensures AcapyValuesCall(topic, values, timeout).timeout == LegacyValuesCall(topic, values, timeout).timeout
            <==> timeout.Some?
  {
  }

  /** With no values asked, a values wait accepts the same events as a
      select wait without `select`. */
  lemma NoValuesIsTopicOnly(topic: string, timeout: Option<int>)
    ensures forall e :: Accepts(AcapyValuesCall(topic, map[], timeout).matcher, e) == Accepts(SelectCall(topic, None).matcher, e)
  {
  }

  /** acapy_controller's `event`: a timeout becomes a plain `ControllerError`
      naming the agent's label and the topic; a delivered event's payload is
      deserialized into `event_type`. */
  function AcapyEventResult(agentLabel: string, topic: string, outcome: Outcome, eventType: Serde.TypeTag): (r: Result<Serde.Decoded, Error>)
    requires eventType.Valid()
    ensures outcome.TimedOut? ==> r.Failure? && r.error.IsControllerError() && !r.error.IsTimeoutError()
    ensures outcome.Delivered? ==> r == Serde.DeserializeAcapy(outcome.event.payload, eventType)
  {
    match outcome
    case TimedOut => Failure(ControllerError(WaitTimedOut(Some(agentLabel), topic, map[])))
    case Delivered(e) => Serde.DeserializeAcapy(e.payload, eventType)
  }

  /** acapy_controller's `event_with_values`: a timeout becomes a
      `ControllerTimeoutError`, which is both a `ControllerError` and an
      `asyncio.TimeoutError`. */
  function AcapyValuesResult(agentLabel: string, topic: string, values: map<string, Json>, outcome: Outcome, eventType: Serde.TypeTag): (r: Result<Serde.Decoded, Error>)
    requires eventType.Valid()
    ensures outcome.TimedOut? ==> r.Failure? && r.error.IsControllerError() && r.error.IsTimeoutError()
    ensures outcome.TimedOut? ==> r.error == ControllerTimeoutError(agentLabel, topic, values)
    ensures outcome.Delivered? ==> r == Serde.DeserializeAcapy(outcome.event.payload, eventType)
  {
    match outcome
    case TimedOut => Failure(ControllerTimeoutError(agentLabel, topic, values))
    case Delivered(e) => Serde.DeserializeAcapy(e.payload, eventType)
  }

  /** controller/controller.py's `record` and `record_with_values`: a timeout
      becomes a plain `ControllerError` that names no agent. */
  function LegacyRecordResult(topic: string, values: map<string, Json>, outcome: Outcome, recordType: Serde.TypeTag): (r: Result<Serde.Decoded, Error>)
    requires recordType.Valid()
    ensures outcome.TimedOut? ==> r.Failure? && r.error.IsControllerError() && !r.error.IsTimeoutError()
    ensures outcome.TimedOut? ==> r.error == ControllerError(WaitTimedOut(None, topic, values))
    ensures outcome.Delivered? ==> r == Serde.DeserializeLegacy(outcome.event.payload, recordType)
  {
    match outcome
    case TimedOut => Failure(ControllerError(WaitTimedOut(None, topic, values)))
    case Delivered(e) => Serde.DeserializeLegacy(e.payload, recordType)
  }

  /** Only `event_with_values` lets a caller catch a timed-out wait as an
      `asyncio.TimeoutError`; `event` and both legacy waits do not. */
  lemma OnlyValuesWaitIsTimeoutError(agentLabel: string, topic: string, values: map<string, Json>, t: Serde.TypeTag)
    requires t.Valid()
    ensures AcapyValuesResult(agentLabel, topic, values, TimedOut, t).error.IsTimeoutError()
    ensures !AcapyEventResult(agentLabel, topic, TimedOut, t).error.IsTimeoutError()
    ensures !LegacyRecordResult(topic, values, TimedOut, t).error.IsTimeoutError()
  {
  }
}
