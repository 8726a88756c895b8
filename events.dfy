/** Ingestion of websocket frames into events: `_handle_message` and the `ws`
    loop of acapy_controller/events.py and controller/events.py (tenant
    filtered), and the `ws` loops of driver/controller/events.py and
    controller/controller/events.py (unfiltered). The selective queue behind
    `put` belongs to another library; here it is the sequence of events put. */
module Events {
  import opened Wrappers
  import opened Json

  /** An event as decoded from one frame. The two-field `Event` classes of the
      unfiltered loops have no tenant tag; their events carry `walletId == JNull`. */
  datatype Event = Event(topic: Json, payload: Json, walletId: Json)

  const HeartbeatTopic: Json := JString("ping")
  const SettingsTopic: Json := JString("settings")

  /** `Event(**data)` for the dataclass with `wallet_id: Optional[str] = None`. */
  function DecodeTagged(m: map<string, Json>): (r: Option<Event>)
    ensures r.Some? <==> "topic" in m && "payload" in m && m.Keys <= {"topic", "payload", "wallet_id"}
    ensures r.Some? ==> r.value.topic == m["topic"] && r.value.payload == m["payload"]
    ensures r.Some? && "wallet_id" !in m ==> r.value.walletId == JNull
  {
    if BindsKeywords(m, {"topic", "payload"}, {"wallet_id"})
    then Some(Event(m["topic"], m["payload"], Get(m, "wallet_id")))
    else None
  }

  /** `Event(**data)` for the two-field dataclass (topic, payload). */
  function DecodePlain(m: map<string, Json>): (r: Option<Event>)
    ensures r.Some? <==> m.Keys == {"topic", "payload"}
    ensures r.Some? ==> r.value == Event(m["topic"], m["payload"], JNull)
  {
    if BindsKeywords(m, {"topic", "payload"}, {})
    then Some(Event(m["topic"], m["payload"], JNull))
    else None
  }

  /** The frame a tagged event travels in. */
  function EncodeTagged(e: Event): map<string, Json> {
    map["topic" := e.topic, "payload" := e.payload, "wallet_id" := e.walletId]
  }

  /** The frame the webhook listener sends: `{"topic": ..., "payload": ...}`. */
  function ListenerFrame(topic: string, payload: Json): map<string, Json> {
    map["topic" := JString(topic), "payload" := payload]
  }

  /** Tagged decoding accepts exactly the encoded frames, with or without the
      `wallet_id` key when the tag is None, and gives back the event. */
  lemma DecodeTaggedExactly(m: map<string, Json>, e: Event)
    ensures DecodeTagged(m) == Some(e) <==>
              m == EncodeTagged(e) || (e.walletId == JNull && m == EncodeTagged(e) - {"wallet_id"})
  {
    if DecodeTagged(m) == Some(e) {
      if "wallet_id" in m {
        assert m == EncodeTagged(e);
      } else {
        assert m == EncodeTagged(e) - {"wallet_id"};
      }
    }
  }

  /** Both event shapes decode the listener's frames, to the same untagged event. */
  lemma ListenerFramesDecode(topic: string, payload: Json)
    ensures DecodeTagged(ListenerFrame(topic, payload)) == Some(Event(JString(topic), payload, JNull))
    ensures DecodePlain(ListenerFrame(topic, payload)) == Some(Event(JString(topic), payload, JNull))
  {
  }

  /** Whose events a controller wants: its subwallet status and tenant tag. */
  datatype TenantScope = TenantScope(isSubwallet: bool, walletId: Option<string>)

  /** controller/events.py's `EventQueueConfig`; `agentLabel` is its `label` field (`label` is a Dafny keyword). */
  datatype EventQueueConfig = EventQueueConfig(agentLabel: string, url: string, walletId: Option<string>) {
    /** `is_subwallet`: a tenant tag is configured. */
    predicate IsSubwallet() {
      walletId.Some?
    }

    function Scope(): TenantScope {
      TenantScope(IsSubwallet(), walletId)
    }
  }

  /** The two shapes of ingestion in the source. */
  datatype Flavour = TenantFiltered(scope: TenantScope) | Unfiltered

  datatype DropReason = Heartbeat | Undecodable | OtherTenant

  /** What one decoded text frame leads to. `Raised` is an exception escaping
      the handler: `data.get` on a frame that is not a JSON object. */
  datatype Handling = Put(event: Event) | Dropped(reason: DropReason) | Raised

  /** The decision of `_handle_message` (tenant filtered) and of the loop body of
      the unfiltered `ws` loops, for one decoded frame `data`. */
  function Handle(fl: Flavour, data: Json): (r: Handling)
    ensures r.Put? ==> data.JObject? && !PyEq(Get(data.fields, "topic"), HeartbeatTopic)
    ensures r.Put? && fl.TenantFiltered? ==> DecodeTagged(data.fields) == Some(r.event)
    ensures r.Put? && fl.Unfiltered? ==> DecodePlain(data.fields) == Some(r.event)
  {
    if !data.JObject? then Raised
    else if PyEq(Get(data.fields, "topic"), HeartbeatTopic) then Dropped(Heartbeat)
    else match fl
      case TenantFiltered(scope) =>
        (match DecodeTagged(data.fields)
         case None => Dropped(Undecodable)
         case Some(e) =>
           if PyEq(e.topic, SettingsTopic) then Put(e)
           else if !scope.isSubwallet || PyEq(e.walletId, OptString(scope.walletId)) then Put(e)
           else Dropped(OtherTenant))
      case Unfiltered =>
        (match DecodePlain(data.fields)
         case None => Dropped(Undecodable)
         case Some(e) => Put(e))
  }

  /** A heartbeat frame is dropped before any decoding is tried, so even a
      heartbeat that would not decode is never reported as undecodable. */
  lemma HeartbeatDroppedFirst(fl: Flavour, m: map<string, Json>)
    requires Get(m, "topic") == HeartbeatTopic
    ensures Handle(fl, JObject(m)) == Dropped(Heartbeat)
  {
  }

  /** A frame that does not bind to the event's fields (a missing topic or
      payload, or any other key) is dropped, never raised. */
  lemma UndecodableDropped(fl: Flavour, m: map<string, Json>)
    requires Get(m, "topic") != HeartbeatTopic
    requires fl.TenantFiltered? ==> DecodeTagged(m).None?
    requires fl.Unfiltered? ==> DecodePlain(m).None?
    ensures Handle(fl, JObject(m)) == Dropped(Undecodable)
  {
    PyEqWithStringOrNull(Get(m, "topic"), "ping");
  }

  /** Settings events cross tenant boundaries: put whatever the scope and tag. */
  lemma SettingsAlwaysPut(scope: TenantScope, m: map<string, Json>, e: Event)
    requires DecodeTagged(m) == Some(e) && e.topic == SettingsTopic
    ensures Handle(TenantFiltered(scope), JObject(m)) == Put(e)
  {
  }

  /** Tenant filtering, for a non-heartbeat, non-settings decoded event: the
      base wallet takes everything; a subwallet takes exactly the events whose
      tag equals its own, so untagged events reach it only when its own tag is
      None. */
  lemma TenantRule(scope: TenantScope, m: map<string, Json>, e: Event)
    requires DecodeTagged(m) == Some(e)
    requires e.topic != HeartbeatTopic && e.topic != SettingsTopic
    ensures !scope.isSubwallet ==> Handle(TenantFiltered(scope), JObject(m)) == Put(e)
    ensures scope.isSubwallet ==>
              (Handle(TenantFiltered(scope), JObject(m)) == Put(e) <==> e.walletId == OptString(scope.walletId))
    ensures scope.isSubwallet && !Handle(TenantFiltered(scope), JObject(m)).Put? ==>
              Handle(TenantFiltered(scope), JObject(m)) == Dropped(OtherTenant)
  {
    PyEqWithStringOrNull(e.topic, "ping");
    PyEqWithStringOrNull(e.topic, "settings");
    PyEqWithStringOrNull(e.walletId, scope.walletId.GetOr(""));
  }

  /** controller/events.py derives subwallet status from the tag itself, so a
      configured subwallet drops every untagged non-settings event. */
  lemma ConfigTenantRule(cfg: EventQueueConfig, m: map<string, Json>, e: Event)
    requires DecodeTagged(m) == Some(e)
    requires e.topic != HeartbeatTopic && e.topic != SettingsTopic
    ensures Handle(TenantFiltered(cfg.Scope()), JObject(m)).Put? <==>
              cfg.walletId.None? || e.walletId == JString(cfg.walletId.value)
    ensures cfg.IsSubwallet() && e.walletId == JNull ==> !Handle(TenantFiltered(cfg.Scope()), JObject(m)).Put?
  {
    TenantRule(cfg.Scope(), m, e);
  }

  /** The unfiltered loops have no tenant check: every decodable non-heartbeat
      frame is put, whatever tag field it would have had. */
  lemma UnfilteredPutsEveryEvent(m: map<string, Json>, e: Event)
    requires DecodePlain(m) == Some(e) && e.topic != HeartbeatTopic
    ensures Handle(Unfiltered, JObject(m)) == Put(e)
  {
    PyEqWithStringOrNull(e.topic, "ping");
  }

  /** A websocket message: a text frame holds the result of `msg.json()`
      (None when the text is not JSON, which raises); the other kinds are
      ERROR and every other message the loop skips (binary, ping/pong). A
      close frame is not a message: aiohttp's `async for` ends there, which
      is the end of the sequence. */
  datatype WsMessage = Text(json: Option<Json>) | ErrorMessage | OtherMessage

  /** How a `ws` loop ends: the stream closed, an ERROR message broke the loop,
      or an exception escaped and ended the task. */
  datatype Stop = StreamEnded | ErrorReceived | TaskFailed

  datatype StepResult = Continue(puts: seq<Event>) | Halt(stop: Stop)

  /** One iteration of a `ws` loop. */
  function Step(fl: Flavour, msg: WsMessage): (r: StepResult)
    ensures r != Halt(StreamEnded)
    ensures r == Halt(ErrorReceived) <==> msg.ErrorMessage?
    ensures r == Halt(TaskFailed) <==> msg.Text? && (msg.json.None? || Handle(fl, msg.json.value).Raised?)
    ensures r.Continue? ==> |r.puts| <= 1
    ensures r.Continue? && r.puts != [] ==> msg.Text? && msg.json.Some? && Handle(fl, msg.json.value) == Put(r.puts[0])
  {
    match msg
    case ErrorMessage => Halt(ErrorReceived)
    case OtherMessage => Continue([])
    case Text(None) => Halt(TaskFailed)
    case Text(Some(data)) =>
      match Handle(fl, data)
      case Raised => Halt(TaskFailed)
      case Dropped(_) => Continue([])
      case Put(e) => Continue([e])
  }

  /** What a whole `ws` run puts, in order, and how it ends. */
  datatype Run = Run(puts: seq<Event>, stop: Stop)

  /** A run of the loop, given what each message does. */
  function RunOf(step: WsMessage -> StepResult, msgs: seq<WsMessage>): Run
    decreases |msgs|
  {
    if msgs == [] then Run([], StreamEnded)
    else match step(msgs[0])
      case Halt(s) => Run([], s)
      case Continue(p) =>
        var rest := RunOf(step, msgs[1..]);
        Run(p + rest.puts, rest.stop)
  }

  /** The step of a flavour, as a function value. */
  function StepOf(fl: Flavour): WsMessage -> StepResult {
    msg => Step(fl, msg)
  }

  /** A run puts no more events than it has messages when no step puts
      more than one. */
  lemma {:induction false} RunOfBound(step: WsMessage -> StepResult, msgs: seq<WsMessage>)
    requires forall m :: step(m).Continue? ==> |step(m).puts| <= 1
    ensures |RunOf(step, msgs).puts| <= |msgs|
    decreases |msgs|
  {
    if msgs != [] {
      RunOfBound(step, msgs[1..]);
    }
  }

  /** The run of a flavour's `ws` loop over the messages received: each
      message leads to at most one `put`, and only a message can stop the
      loop early. */
  function Ingested(fl: Flavour, msgs: seq<WsMessage>): (r: Run)
    ensures |r.puts| <= |msgs|
    ensures r.stop != StreamEnded ==> msgs != []
  {
    assert forall m :: StepOf(fl)(m) == Step(fl, m);
    RunOfBound(StepOf(fl), msgs);
    RunOf(StepOf(fl), msgs)
  }

  /** A run from message `i` on: what message `i` does, then the rest. */
  lemma RunOfFrom(step: WsMessage -> StepResult, msgs: seq<WsMessage>, i: nat)
    requires i < |msgs|
    ensures step(msgs[i]).Halt? ==> RunOf(step, msgs[i..]) == Run([], step(msgs[i]).stop)
    ensures step(msgs[i]).Continue? ==>
              RunOf(step, msgs[i..]) == Run(step(msgs[i]).puts + RunOf(step, msgs[i + 1..]).puts,
                                            RunOf(step, msgs[i + 1..]).stop)
  {
    assert msgs[i..][0] == msgs[i] && msgs[i..][1..] == msgs[i + 1..];
  }

  lemma {:induction false} RunOfAppend(step: WsMessage -> StepResult, a: seq<WsMessage>, b: seq<WsMessage>)
    requires forall m :: step(m) != Halt(StreamEnded)
    requires RunOf(step, a).stop == StreamEnded
    ensures RunOf(step, a + b) == Run(RunOf(step, a).puts + RunOf(step, b).puts, RunOf(step, b).stop)
    decreases |a|
  {
    if a == [] {
      assert a + b == b;
    } else {
      assert step(a[0]) != Halt(StreamEnded);
      assert (a + b)[0] == a[0] && (a + b)[1..] == a[1..] + b;
      RunOfAppend(step, a[1..], b);
    }
  }

  /** Streaming: a run over `a + b` puts what the run over `a` puts, then what
      the run over `b` puts, provided nothing in `a` stopped the loop. */
  lemma IngestedAppend(fl: Flavour, a: seq<WsMessage>, b: seq<WsMessage>)
    requires Ingested(fl, a).stop == StreamEnded
    ensures Ingested(fl, a + b) == Run(Ingested(fl, a).puts + Ingested(fl, b).puts, Ingested(fl, b).stop)
  {
    forall m ensures StepOf(fl)(m) != Halt(StreamEnded) {
      assert StepOf(fl)(m) == Step(fl, m);
    }
    RunOfAppend(StepOf(fl), a, b);
  }

  /** An ERROR message ends the loop: nothing after it is ever put. */
  lemma ErrorEndsLoop(fl: Flavour, a: seq<WsMessage>, b: seq<WsMessage>)
    requires Ingested(fl, a).stop == StreamEnded
    ensures Ingested(fl, a + [ErrorMessage] + b) == Run(Ingested(fl, a).puts, ErrorReceived)
  {
    assert a + [ErrorMessage] + b == a + ([ErrorMessage] + b);
    IngestedAppend(fl, a, [ErrorMessage] + b);
  }

  /** A text message holding a heartbeat frame. */
  predicate IsHeartbeat(msg: WsMessage) {
    msg.Text? && msg.json.Some? && msg.json.value.JObject? && Get(msg.json.value.fields, "topic") == HeartbeatTopic
  }

  function WithoutHeartbeats(msgs: seq<WsMessage>): (r: seq<WsMessage>)
    ensures forall i :: 0 <= i < |r| ==> !IsHeartbeat(r[i])
  {
    if msgs == [] then []
    else if IsHeartbeat(msgs[0]) then WithoutHeartbeats(msgs[1..])
    else [msgs[0]] + WithoutHeartbeats(msgs[1..])
  }

  /** Heartbeats are transparent: a stream with its heartbeat frames removed
      is put, and ends, exactly as the stream itself. */
  lemma {:induction false} HeartbeatTransparency(fl: Flavour, msgs: seq<WsMessage>)
    ensures Ingested(fl, WithoutHeartbeats(msgs)) == Ingested(fl, msgs)
    decreases |msgs|
  {
    if msgs != [] {
      HeartbeatTransparency(fl, msgs[1..]);
      if IsHeartbeat(msgs[0]) {
        HeartbeatDroppedFirst(fl, msgs[0].json.value.fields);
      } else {
        var w := [msgs[0]] + WithoutHeartbeats(msgs[1..]);
        assert w[0] == msgs[0] && w[1..] == WithoutHeartbeats(msgs[1..]);
      }
    }
  }

  /** Tenant isolation: a subwallet's queue only ever receives settings events
      and events carrying its own tag. */
  lemma {:induction false} TenantIsolation(scope: TenantScope, msgs: seq<WsMessage>)
    requires scope.isSubwallet
    ensures forall e :: e in Ingested(TenantFiltered(scope), msgs).puts ==>
              e.topic == SettingsTopic || e.walletId == OptString(scope.walletId)
    decreases |msgs|
  {
    if msgs != [] {
      TenantIsolation(scope, msgs[1..]);
      var msg := msgs[0];
      if msg.Text? && msg.json.Some? {
        var data := msg.json.value;
        var h := Handle(TenantFiltered(scope), data);
        if h.Put? {
          PyEqWithStringOrNull(h.event.topic, "settings");
          PyEqWithStringOrNull(h.event.walletId, scope.walletId.GetOr(""));
        }
      }
    }
  }

  /** The event an unfiltered loop decodes from a message, if any. */
  function PlainEventOf(msg: WsMessage): Option<Event> {
    if msg.Text? && msg.json.Some? && msg.json.value.JObject? then DecodePlain(msg.json.value.fields) else None
  }

  /** A text message holding a frame the unfiltered loops decode and keep. */
  predicate IsPlainEvent(msg: WsMessage) {
    PlainEventOf(msg).Some? && PlainEventOf(msg).value.topic != HeartbeatTopic
  }

  /** In the unfiltered loops, a stream of decodable non-heartbeat frames is put
      whole, one event per frame, in arrival order. */
  lemma {:induction false} UnfilteredPutsAllInOrder(msgs: seq<WsMessage>)
    requires forall i :: 0 <= i < |msgs| ==> IsPlainEvent(msgs[i])
    ensures Ingested(Unfiltered, msgs).stop == StreamEnded
    ensures |Ingested(Unfiltered, msgs).puts| == |msgs|
    ensures forall i :: 0 <= i < |msgs| ==>
              Some(Ingested(Unfiltered, msgs).puts[i]) == PlainEventOf(msgs[i])
    decreases |msgs|
  {
    if msgs != [] {
      UnfilteredPutsAllInOrder(msgs[1..]);
      var m := msgs[0].json.value.fields;
      UnfilteredPutsEveryEvent(m, DecodePlain(m).value);
      var r := Ingested(Unfiltered, msgs);
      assert r.puts == [DecodePlain(m).value] + Ingested(Unfiltered, msgs[1..]).puts;
      forall i | 1 <= i < |msgs|
        ensures Some(r.puts[i]) == PlainEventOf(msgs[i])
      {
        assert msgs[1..][i - 1] == msgs[i];
      }
    }
  }

  /** The queue as the ingestion side sees it: the events put, in order. */
  class EventSink {
    var puts: seq<Event>

    constructor ()
      ensures puts == []
    {
      puts := [];
    }

    method Put(e: Event)
      modifies this
      ensures puts == old(puts) + [e]
    {
      puts := puts + [e];
    }
  }

  /** `_handle_message`: the decision, then at most one `put`. Returns whether
      an exception escaped. */
  method HandleMessage(fl: Flavour, queue: EventSink, data: Json) returns (raised: bool)
    modifies queue
    ensures raised <==> Handle(fl, data).Raised?
    ensures queue.puts == old(queue.puts) + (if Handle(fl, data).Put? then [Handle(fl, data).event] else [])
  {
    var h := Handle(fl, data);
    if h.Put? {
      queue.Put(h.event);
    }
    raised := h.Raised?;
  }

  /** A run from message `i` on: what message `i` does, then the rest. */
  lemma IngestedFrom(fl: Flavour, msgs: seq<WsMessage>, i: nat)
    requires i < |msgs|
    ensures Step(fl, msgs[i]).Halt? ==> Ingested(fl, msgs[i..]) == Run([], Step(fl, msgs[i]).stop)
    ensures Step(fl, msgs[i]).Continue? ==>
              Ingested(fl, msgs[i..]) == Run(Step(fl, msgs[i]).puts + Ingested(fl, msgs[i + 1..]).puts,
                                             Ingested(fl, msgs[i + 1..]).stop)
  {
    RunOfFrom(StepOf(fl), msgs, i);
    assert StepOf(fl)(msgs[i]) == Step(fl, msgs[i]);
  }

  /** The body of the `async for` loop, for one message: a text frame is
      decoded and handled, an ERROR message breaks the loop, anything else is
      skipped. Returns how the loop stops, if it does. */
  method Receive(fl: Flavour, queue: EventSink, msg: WsMessage) returns (halt: Option<Stop>)
    modifies queue
    ensures halt.Some? <==> Step(fl, msg).Halt?
    ensures halt.Some? ==> halt.value == Step(fl, msg).stop
    ensures queue.puts == old(queue.puts) + (if Step(fl, msg).Continue? then Step(fl, msg).puts else [])
  {
    if msg.Text? {
      if msg.json.None? {
        return Some(TaskFailed);
      }
      var raised := HandleMessage(fl, queue, msg.json.value);
      if raised {
        return Some(TaskFailed);
      }
    }
    if msg.ErrorMessage? {
      return Some(ErrorReceived);
    }
    halt := None;
  }

  /** The `ws` loop: messages one at a time in arrival order, each `put`
      finished before the next message is read. */
  method Ws(fl: Flavour, queue: EventSink, msgs: seq<WsMessage>) returns (stop: Stop)
    modifies queue
    ensures queue.puts == old(queue.puts) + Ingested(fl, msgs).puts
    ensures stop == Ingested(fl, msgs).stop
  {
    var i := 0;
    while i < |msgs|
      invariant 0 <= i <= |msgs|
      invariant old(queue.puts) + Ingested(fl, msgs).puts == queue.puts + Ingested(fl, msgs[i..]).puts
      invariant Ingested(fl, msgs).stop == Ingested(fl, msgs[i..]).stop
    {
      IngestedFrom(fl, msgs, i);
      var halt := Receive(fl, queue, msgs[i]);
      if halt.Some? {
        return halt.value;
      }
      i := i + 1;
    }
    stop := StreamEnded;
  }
}
