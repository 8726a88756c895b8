/** The `Controller` of acapy_controller/controller.py: construction, its
    tenant status, the "not set up" guard, the request it builds and the
    waits for events. */
module AcapyController {
  import opened Wrappers
  import opened Json
  import opened Errors
  import opened Http
  import Events
  import Serde
  import Correlation

  const DefaultLabel := "ACA-Py"

  /** `wallet_type` is accepted by `__init__` but never assigned: the attribute
      only exists once `setup` has read it from the agent's configuration. */
  datatype WalletType = Unset | Known(kind: Option<string>)

  /** The construction-time check: a `wallet_id` needs a `subwallet_token`. */
  function CheckTenantArgs(walletId: Option<string>, token: Option<string>): (r: Result<(), Error>)
    ensures r.Failure? <==> StrTruthy(walletId) && !StrTruthy(token)
    ensures r.Failure? ==> r.error.ValueError?
  {
    if StrTruthy(walletId) && !StrTruthy(token) then Failure(ValueError("subwallet_token required when wallet_id is set"))
    else Success(())
  }

  /** `self.headers` after `__init__`: the given headers, with
      `Authorization: Bearer <token>` when the token is truthy. */
  function InitialHeaders(headers: Option<map<string, string>>, token: Option<string>): (r: map<string, string>)
    ensures StrTruthy(token) ==> "Authorization" in r && r["Authorization"] == "Bearer " + token.value
    ensures forall k :: k != "Authorization" ==> (k in r <==> headers.Some? && k in headers.value)
    ensures forall k :: k in r && k != "Authorization" ==> r[k] == headers.value[k]
    ensures !StrTruthy(token) ==> r == headers.GetOr(map[])
  {
    var base := headers.GetOr(map[]);
    if StrTruthy(token) then base["Authorization" := "Bearer " + token.value] else base
  }

  class Controller {
    var baseUrl: string
    var agentLabel: string
    var headers: map<string, string>
    var walletId: Option<string>
    var subwalletToken: Option<string>
    var walletType: WalletType
    var eventQueue: Events.EventSink?

    /** The assignments `__init__` makes once the tenant check has passed. */
    constructor (baseUrl: string, agentLabel: Option<string>, walletId: Option<string>,
                 subwalletToken: Option<string>, headers: Option<map<string, string>>,
                 eventQueue: Events.EventSink?)
      ensures this.baseUrl == baseUrl
      ensures this.agentLabel == (if StrTruthy(agentLabel) then agentLabel.value else DefaultLabel)
      ensures this.headers == InitialHeaders(headers, subwalletToken)
      ensures this.walletId == walletId && this.subwalletToken == subwalletToken
      ensures this.walletType == Unset && this.eventQueue == eventQueue
    {
      this.baseUrl := baseUrl;
      this.agentLabel := if StrTruthy(agentLabel) then agentLabel.value else DefaultLabel;
      this.headers := InitialHeaders(headers, subwalletToken);
      this.walletId := walletId;
      this.subwalletToken := subwalletToken;
      this.walletType := Unset;
      this.eventQueue := eventQueue;
    }

    /** `Controller(...)`: raises ValueError for a `wallet_id` without a
        `subwallet_token`; a controller built with a truthy `wallet_id` is a
        subwallet. */
    static method New(baseUrl: string, agentLabel: Option<string>, walletId: Option<string>,
                      subwalletToken: Option<string>, headers: Option<map<string, string>>,
                      eventQueue: Events.EventSink?) returns (r: Result<Controller, Error>)
      ensures r.Failure? <==> StrTruthy(walletId) && !StrTruthy(subwalletToken)
      ensures r.Failure? ==> r.error.ValueError?
      ensures r.Success? ==> fresh(r.value) && r.value.headers == InitialHeaders(headers, subwalletToken)
                             && r.value.walletId == walletId && r.value.subwalletToken == subwalletToken
                             && r.value.eventQueue == eventQueue && r.value.walletType == Unset
      ensures r.Success? && StrTruthy(walletId) ==> r.value.IsSubwallet() && "Authorization" in r.value.headers
    {
      var check := CheckTenantArgs(walletId, subwalletToken);
      if check.Failure? {
        return Failure(check.error);
      }
      var c := new Controller(baseUrl, agentLabel, walletId, subwalletToken, headers, eventQueue);
      return Success(c);
    }

    /** `is_subwallet`: a token was given, even an empty one. */
    predicate IsSubwallet()
      reads this
    {
      subwalletToken.Some?
    }

    /** The tenant filter the controller's event stream applies. */
    function Scope(): (s: Events.TenantScope)
      reads this
      ensures s.isSubwallet <==> subwalletToken.Some?
      ensures s.walletId == walletId
    {
      Events.TenantScope(IsSubwallet(), walletId)
    }

    /** `event_queue`: raises `ControllerError` before setup. */
    function EventQueue(): (r: Result<Events.EventSink, Error>)
      reads this
      ensures r.Failure? <==> eventQueue == null
      ensures r.Failure? ==> r.error == ControllerError(NotSetUp)
      ensures r.Success? ==> r.value == eventQueue
    {
      if eventQueue == null then Failure(ControllerError(NotSetUp)) else Success(eventQueue)
    }

    /** What `setup` records from the agent: an event queue (kept if one was
        given), the label from the `settings` event and the configured
        wallet type. */
    method FinishSetup(queue: Events.EventSink, settingsLabel: string, configuredWalletType: Option<string>)
      modifies this
      ensures eventQueue == (if old(eventQueue) == null then queue else old(eventQueue))
      ensures agentLabel == settingsLabel && walletType == Known(configuredWalletType)
      ensures baseUrl == old(baseUrl) && headers == old(headers)
      ensures walletId == old(walletId) && subwalletToken == old(subwalletToken)
      ensures EventQueue().Success?
    {
      if eventQueue == null {
        eventQueue := queue;
      }
      agentLabel := settingsLabel;
      walletType := Known(configuredWalletType);
    }

    /** `request(method, url, ...)`: GET and DELETE carry the merged headers
        and no body; POST and PUT serialize `json` and send `{}` when there is
        neither data nor JSON; any other method raises ValueError. */
    function Request(verb: string, url: string, data: Option<seq<bv8>>, json: Serde.PyObject,
                     params: Option<map<string, Json>>, callHeaders: Option<map<string, string>>): (r: Result<HttpRequest, Error>)
      reads this
      ensures verb !in {"GET", "POST", "PUT", "DELETE"} ==> r.Failure? && r.error.ValueError?
      ensures verb in {"GET", "DELETE"} ==>
                r == Success(HttpRequest(verb, url, params, Some(MergeHeaders(callHeaders, headers)), None, None))
      ensures verb in {"POST", "PUT"} ==>
                (r.Success? <==> Serde.SerializeAcapy(json).Success?)
      ensures verb in {"POST", "PUT"} && r.Success? ==>
                r.value.headers.None? && r.value.data == data
                && r.value.json == AcapyBody(data, Serde.SerializeAcapy(json).value)
      ensures verb in {"POST", "PUT"} && json.PyNone? && !DataTruthy(data) ==> r.Success? && r.value.json == Some(map[])
    {
      if verb == "GET" || verb == "DELETE" then
        Success(HttpRequest(verb, url, params, Some(MergeHeaders(callHeaders, headers)), None, None))
      else if verb == "POST" || verb == "PUT" then
        var json_ :- Serde.SerializeAcapy(json);
        Success(HttpRequest(verb, url, params, None, data, AcapyBody(data, json_)))
      else
        Failure(ValueError("Unsupported method"))
    }

    /** `event(topic, select, event_type=...)` (and `record`): needs the
        queue, waits with the queue's default timeout for an event on `topic`
        that `select` accepts, and maps a timeout to a `ControllerError`. */
    function Event(topic: string, select: Option<Events.Event -> bool>, outcome: Correlation.Outcome,
                   eventType: Serde.TypeTag): (w: Correlation.Wait)
      reads this
      requires eventType.Valid()
      ensures eventQueue == null ==> w.call.None? && w.result == Failure(ControllerError(NotSetUp))
      ensures eventQueue != null ==> w.call.Some? && w.call.value.timeout == Correlation.QueueDefault
      ensures eventQueue != null ==>
                forall e :: Correlation.Accepts(w.call.value.matcher, e)
                            == Correlation.Holds(e.topic == JString(topic) && (select.None? || select.value(e)))
      ensures eventQueue != null && outcome.TimedOut? ==>
                w.result == Failure(ControllerError(WaitTimedOut(Some(agentLabel), topic, map[])))
      ensures eventQueue != null && outcome.Delivered? ==>
                w.result == Serde.DeserializeAcapy(outcome.event.payload, eventType)
    {
      if eventQueue == null then Correlation.Wait(None, Failure(ControllerError(NotSetUp)))
      else Correlation.Wait(Some(Correlation.SelectCall(topic, select)),
                            Correlation.AcapyEventResult(agentLabel, topic, outcome, eventType))
    }

    /** `event_with_values(topic, timeout=5, **values)` (and
        `record_with_values`): the closure is `ValuesPredicate`, the timeout
        5 seconds unless given, and a timeout is a `ControllerTimeoutError`. */
    function EventWithValues(topic: string, values: map<string, Json>, timeout: Option<int>,
                             outcome: Correlation.Outcome, eventType: Serde.TypeTag): (w: Correlation.Wait)
      reads this
      requires eventType.Valid()
      ensures eventQueue == null ==> w.call.None? && w.result == Failure(ControllerError(NotSetUp))
      ensures eventQueue != null ==>
                && w.call.Some?
                && (forall e :: Correlation.Accepts(w.call.value.matcher, e) == Correlation.ValuesPredicate(topic, values, e))
                && w.call.value.timeout == Correlation.Given(Some(if timeout.Some? then timeout.value else Correlation.DefaultValuesTimeout))
      ensures eventQueue != null && outcome.TimedOut? ==>
                w.result.Failure? && w.result.error.IsTimeoutError() && w.result.error.IsControllerError()
      ensures eventQueue != null && outcome.Delivered? ==>
                w.result == Serde.DeserializeAcapy(outcome.event.payload, eventType)
    {
      if eventQueue == null then Correlation.Wait(None, Failure(ControllerError(NotSetUp)))
      else Correlation.Wait(Some(Correlation.AcapyValuesCall(topic, values, timeout)),
                            Correlation.AcapyValuesResult(agentLabel, topic, values, outcome, eventType))
    }
  }

  /** A subwallet controller built without a `wallet_id` filters its events
      against `None`: it keeps an untagged event and drops every tagged one
      that is not a settings event. */
  lemma SubwalletWithoutId(c: Controller, m: map<string, Json>, e: Events.Event)
    requires c.subwalletToken.Some? && c.walletId.None?
    requires Events.DecodeTagged(m) == Some(e) && e.topic != Events.HeartbeatTopic && e.topic != Events.SettingsTopic
    ensures Events.Handle(Events.TenantFiltered(c.Scope()), JObject(m)).Put? <==> e.walletId == JNull
  {
    Events.TenantRule(c.Scope(), m, e);
  }
}
