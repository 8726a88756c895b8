/** The `Controller` of controller/controller.py: the older generation, which
    owns an HTTP session and guards every request on it. */
module LegacyController {
  import opened Wrappers
  import opened Json
  import opened Errors
  import opened Http
  import Events
  import Serde
  import Correlation
  import AcapyController

  class Controller {
    var baseUrl: string
    var agentLabel: string
    var headers: map<string, string>
    var walletId: Option<string>
    var subwalletToken: Option<string>
    var eventQueue: Events.EventSink?
    /** Whether `_session` holds a client session. */
    var hasSession: bool

    /** The assignments `__init__` makes once the tenant check has passed. */
    constructor (baseUrl: string, agentLabel: Option<string>, walletId: Option<string>,
                 subwalletToken: Option<string>, headers: Option<map<string, string>>,
                 eventQueue: Events.EventSink?, hasSession: bool)
      ensures this.baseUrl == baseUrl
      ensures this.agentLabel == (if StrTruthy(agentLabel) then agentLabel.value else AcapyController.DefaultLabel)
      ensures this.headers == AcapyController.InitialHeaders(headers, subwalletToken)
      ensures this.walletId == walletId && this.subwalletToken == subwalletToken
      ensures this.eventQueue == eventQueue && this.hasSession == hasSession
    {
      this.baseUrl := baseUrl;
      this.agentLabel := if StrTruthy(agentLabel) then agentLabel.value else AcapyController.DefaultLabel;
      this.headers := AcapyController.InitialHeaders(headers, subwalletToken);
      this.walletId := walletId;
      this.subwalletToken := subwalletToken;
      this.eventQueue := eventQueue;
      this.hasSession := hasSession;
    }

    /** `Controller(...)`: the same tenant check and Authorization header as
        the newer generation; a session may be handed in. */
    static method New(baseUrl: string, agentLabel: Option<string>, walletId: Option<string>,
                      subwalletToken: Option<string>, headers: Option<map<string, string>>,
                      eventQueue: Events.EventSink?, hasSession: bool) returns (r: Result<Controller, Error>)
      ensures r.Failure? <==> StrTruthy(walletId) && !StrTruthy(subwalletToken)
      ensures r.Failure? ==> r.error.ValueError?
      ensures r.Success? ==> fresh(r.value) && r.value.headers == AcapyController.InitialHeaders(headers, subwalletToken)
                             && r.value.walletId == walletId && r.value.subwalletToken == subwalletToken
                             && r.value.eventQueue == eventQueue && r.value.hasSession == hasSession
    {
      var check := AcapyController.CheckTenantArgs(walletId, subwalletToken);
      if check.Failure? {
        return Failure(check.error);
      }
      var c := new Controller(baseUrl, agentLabel, walletId, subwalletToken, headers, eventQueue, hasSession);
      return Success(c);
    }

    /** `is_subwallet`: a token was given. */
    predicate IsSubwallet()
      reads this
    {
      subwalletToken.Some?
    }

    /** `event_queue`: raises `ControllerError` before setup. */
    function EventQueue(): (r: Result<Events.EventSink, Error>)
      reads this
      ensures r.Failure? <==> eventQueue == null
      ensures r.Failure? ==> r.error == ControllerError(NotSetUp)
      ensures r.Success? ==> r.value == eventQueue
    {
      if eventQueue == null then Failure(ControllerError(NotSetUp)) else Success(eventQueue)
    }

    /** What `setup` records: a queue and a session (each kept if one was
        given) and the label from the `settings` event. */
    method FinishSetup(queue: Events.EventSink, settingsLabel: string)
      modifies this
      ensures eventQueue == (if old(eventQueue) == null then queue else old(eventQueue))
      ensures hasSession && agentLabel == settingsLabel
      ensures baseUrl == old(baseUrl) && headers == old(headers)
      ensures walletId == old(walletId) && subwalletToken == old(subwalletToken)
      ensures EventQueue().Success? && SessionGuard().Success?
    {
      if eventQueue == null {
        eventQueue := queue;
      }
      hasSession := true;
      agentLabel := settingsLabel;
    }

    /** The guard at the top of `get`, `delete`, `post` and `put`. */
    function SessionGuard(): (r: Result<(), Error>)
      reads this
      ensures r.Failure? <==> !hasSession
      ensures r.Failure? ==> r.error == ControllerError(NoSession)
    {
      if hasSession then Success(()) else Failure(ControllerError(NoSession))
    }

    /** `get`: passes the merged headers. */
    function Get(url: string, params: Option<map<string, Json>>, callHeaders: Option<map<string, string>>): (r: Result<HttpRequest, Error>)
      reads this
      ensures r.Failure? <==> !hasSession
      ensures r.Failure? ==> r.error == ControllerError(NoSession)
      ensures r.Success? ==> r.value.verb == "GET" && r.value.data.None? && r.value.json.None?
                             && r.value.headers == Some(MergeHeaders(callHeaders, headers))
    {
      var _ :- SessionGuard();
      Success(HttpRequest("GET", url, params, Some(MergeHeaders(callHeaders, headers)), None, None))
    }

    /** `delete`: computes the merged headers but does not pass them. */
    function Delete(url: string, params: Option<map<string, Json>>, callHeaders: Option<map<string, string>>): (r: Result<HttpRequest, Error>)
      reads this
      ensures r.Failure? <==> !hasSession
      ensures r.Failure? ==> r.error == ControllerError(NoSession)
      ensures r.Success? ==> r.value.verb == "DELETE" && r.value.headers.None? && r.value.json.None?
    {
      var _ :- SessionGuard();
      Success(HttpRequest("DELETE", url, params, None, None, None))
    }

    /** `post` / `put`: guard, serialize, then the empty-body rule; the merged
        headers are not passed. */
    function Send(verb: string, url: string, data: Option<seq<bv8>>, json: Serde.PyObject,
                  params: Option<map<string, Json>>, callHeaders: Option<map<string, string>>): (r: Result<HttpRequest, Error>)
      reads this
      requires verb == "POST" || verb == "PUT"
      ensures !hasSession ==> r == Failure(ControllerError(NoSession))
      ensures hasSession ==> (r.Success? <==> Serde.SerializeLegacy(json).Success?)
      ensures r.Success? ==> r.value.verb == verb && r.value.headers.None? && r.value.data == data
                             && r.value.json == LegacyBody(data, Serde.SerializeLegacy(json).value)
      ensures r.Success? && !DataTruthy(data) && (Serde.SerializeLegacy(json).value.None? || Serde.SerializeLegacy(json).value.value == map[]) ==>
                r.value.json == Some(map[])
      ensures hasSession && json.PyNone? && !DataTruthy(data) ==> r.Success? && r.value.json == Some(map[])
    {
      var _ :- SessionGuard();
      var json_ :- Serde.SerializeLegacy(json);
      Success(HttpRequest(verb, url, params, None, data, LegacyBody(data, json_)))
    }

    /** `record(topic, select, record_type=...)`: the same closure and
        default timeout as the newer `event`; a timeout is a plain
        `ControllerError` naming no agent. */
    function Record(topic: string, select: Option<Events.Event -> bool>, outcome: Correlation.Outcome,
                    recordType: Serde.TypeTag): (w: Correlation.Wait)
      reads this
      requires recordType.Valid()
      ensures eventQueue == null ==> w.call.None? && w.result == Failure(ControllerError(NotSetUp))
      ensures eventQueue != null ==> w.call.Some? && w.call.value.timeout == Correlation.QueueDefault
      ensures eventQueue != null ==>
                forall e :: Correlation.Accepts(w.call.value.matcher, e)
                            == Correlation.Holds(e.topic == JString(topic) && (select.None? || select.value(e)))
      ensures eventQueue != null && outcome.TimedOut? ==>
                w.result.Failure? && w.result.error.IsControllerError() && !w.result.error.IsTimeoutError()
      ensures eventQueue != null && outcome.Delivered? ==> w.result == Serde.DeserializeLegacy(outcome.event.payload, recordType)
    {
      if eventQueue == null then Correlation.Wait(None, Failure(ControllerError(NotSetUp)))
      else Correlation.Wait(Some(Correlation.SelectCall(topic, select)),
                            Correlation.LegacyRecordResult(topic, map[], outcome, recordType))
    }

    /** `record_with_values(topic, timeout=None, **values)`: the closure is
        `ValuesPredicate` and the timeout is passed on as given, `None`
        included. */
    function RecordWithValues(topic: string, values: map<string, Json>, timeout: Option<int>,
                              outcome: Correlation.Outcome, recordType: Serde.TypeTag): (w: Correlation.Wait)
      reads this
      requires recordType.Valid()
      ensures eventQueue == null ==> w.call.None? && w.result == Failure(ControllerError(NotSetUp))
      ensures eventQueue != null ==>
                && w.call.Some?
                && (forall e :: Correlation.Accepts(w.call.value.matcher, e) == Correlation.ValuesPredicate(topic, values, e))
                && w.call.value.timeout == Correlation.Given(timeout)
      ensures eventQueue != null && outcome.TimedOut? ==>
                w.result.Failure? && w.result.error.IsControllerError() && !w.result.error.IsTimeoutError()
      ensures eventQueue != null && outcome.Delivered? ==> w.result == Serde.DeserializeLegacy(outcome.event.payload, recordType)
    {
      if eventQueue == null then Correlation.Wait(None, Failure(ControllerError(NotSetUp)))
      else Correlation.Wait(Some(Correlation.LegacyValuesCall(topic, values, timeout)),
                            Correlation.LegacyRecordResult(topic, values, outcome, recordType))
    }
  }

  /** Only `get` sends the caller's headers: `delete`, `post` and `put` drop
      them, whatever they were. */
  lemma OnlyGetSendsCallHeaders(c: Controller, url: string, data: Option<seq<bv8>>, json: Serde.PyObject,
                                params: Option<map<string, Json>>, h1: Option<map<string, string>>, h2: Option<map<string, string>>)
    requires c.hasSession
    ensures c.Delete(url, params, h1) == c.Delete(url, params, h2)
    ensures c.Send("POST", url, data, json, params, h1) == c.Send("POST", url, data, json, params, h2)
    ensures h1.Some? && "X-Trace" in h1.value && "X-Trace" !in c.headers ==>
              c.Get(url, params, h1).value.headers.value["X-Trace"] == h1.value["X-Trace"]
  {
  }

  /** The older `record` and `record_with_values` issue the same `get` as
      the newer `event` and `event_with_values`, except that without a
      timeout the older values wait passes `None` where the newer waits 5
      seconds. */
  lemma WaitsAsNewer(a: AcapyController.Controller, l: Controller, topic: string, select: Option<Events.Event -> bool>,
                     values: map<string, Json>, timeout: Option<int>, outcome: Correlation.Outcome, t: Serde.TypeTag)
    requires a.eventQueue != null && l.eventQueue != null && t.Valid()
    ensures forall e :: Correlation.Accepts(l.Record(topic, select, outcome, t).call.value.matcher, e)
                        == Correlation.Accepts(a.Event(topic, select, outcome, t).call.value.matcher, e)
    ensures l.Record(topic, select, outcome, t).call.value.timeout == a.Event(topic, select, outcome, t).call.value.timeout
    ensures forall e :: Correlation.Accepts(l.RecordWithValues(topic, values, timeout, outcome, t).call.value.matcher, e)
                        == Correlation.Accepts(a.EventWithValues(topic, values, timeout, outcome, t).call.value.matcher, e)
    ensures l.RecordWithValues(topic, values, timeout, outcome, t).call.value.timeout
            == a.EventWithValues(topic, values, timeout, outcome, t).call.value.timeout
            <==> timeout.Some?
  {
  }

  /** With a session and a dict or `None` payload, a legacy POST carries the
      same body as the newer generation's. */
  lemma PostBodyAsNewer(c: Controller, url: string, data: Option<seq<bv8>>, json: Serde.PyObject, params: Option<map<string, Json>>)
    requires c.hasSession
    requires json.PyNone? || (json.asMapping.Some? && json.serialized.None?)
    ensures c.Send("POST", url, data, json, params, None).Success?
    ensures c.Send("POST", url, data, json, params, None).value.json ==
              AcapyBody(data, Serde.SerializeAcapy(json).value)
  {
    BodyRulesAgree(data, Serde.SerializeLegacy(json).value);
  }
}
