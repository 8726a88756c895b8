# acapy-minimal-example: the controller's event and data-shaping core, in Dafny

This project models the deterministic core of the ACA-Py minimal-example
controllers. It covers both generations: the `acapy_controller` package and
the older `controller` package with its `driver` copy.

- **Event ingestion** (`events.dfy`). A websocket frame becomes an `Event`,
  or is dropped as a heartbeat (`"ping"`), as undecodable, or as another
  tenant's event. A frame that is not a JSON object raises instead. The
  tenant-filtered loops (`_handle_message`) and the unfiltered loops of the
  older packages are the two flavours of one decision. The queue, as the
  ingestion side sees it, is an `EventSink` class whose `puts` sequence
  `put` appends to. The `Ws` method is the receive loop, proved against the
  function `Ingested`.
- **Correlation** (`correlation.dfy`). These are the predicates handed to
  `event_queue.get` by `event`, `event_with_values`, `record` and
  `record_with_values`. The model also covers the timeout each of those
  calls passes, and which error class a timed-out wait becomes.
- **Serialization helpers**. `params.dfy` holds `_serialize_param`,
  `params`/`_make_params` and `omit_none`. `minimal.dfy` holds `Minimal`:
  `deserialize` as a loop proved against a function, plus `serialize`,
  `__len__` and `__getitem__`. `serde.dfy` holds the `_serialize` and
  `_deserialize` dispatch of both generations, over a type-tag datatype that
  stands for Python's runtime types.
- **Controllers**. `acapy_controller.dfy` and `legacy_controller.dfy` each
  model `Controller` as a class: construction and its tenant check, the
  "not set up" and "no session" guards, what `setup` records, and the
  request each HTTP method builds. `http.dfy` holds the header merging,
  `_header_filter` and the two empty-body rules.
- **Protocols** (`protocols.dfy`). This covers:
  - automatic credential selection, as nested loops proved against a
    last-match specification;
  - the wallet-type, record-type and URL decisions of `anoncreds_revoke` and
    `anoncreds_publish_revocation`;
  - the guards and defaults of `indy_anoncred_credential_artifacts`;
  - `InvitationMessage.id`.
- **Onboarding** (`onboarding.dfy`). Both versions of `get_onboarder`, with
  `str.replace` modelled in full.
- **`strip_unique`** (`strip_unique.dfy`). The test helper as its two loops,
  proved against a function.

Several inputs become parameters:
- the outcome of a queue `get` (an event delivered, or a timeout);
- the sequence of websocket messages;
- `json.dumps`;
- the schema id an agent returns;
- the random `token_hex` names;
- the label and wallet type an agent reports during `setup`.

## Model

| member | source | states |
|---|---|---|
| Events.DecodeTaggedExactly | acapy_controller/events.py:19-25 | `Event(**data)` for the tagged event accepts exactly the frames `{topic, payload, wallet_id}`, or `{topic, payload}` when the tag is None, and returns that event |
| Events.DecodeTagged | acapy_controller/events.py:19-25 | `Event(**data)` succeeds iff `topic` and `payload` are given and nothing but `wallet_id` besides; the event carries the given topic and payload, and `wallet_id` None when it is absent |
| Events.DecodePlain | controller/controller/events.py:16-20 | the two-field `Event(**data)` succeeds iff the keys are exactly `topic` and `payload`, and gives that event with no tag |
| Events.ListenerFramesDecode | webhook_listener/listener/__main__.py:21-31 | the `{"topic", "payload"}` frames the listener sends, including its initial settings frame, decode in both event shapes to an untagged event |
| Events.Handle | acapy_controller/events.py:42-65 | a frame is put only if it is a JSON object whose topic is not "ping", and the event put is exactly what `Event(**data)` decodes for that flavour |
| Events.HeartbeatDroppedFirst | acapy_controller/events.py:45-47 | a frame whose topic is "ping" is dropped as a heartbeat before any decoding is tried, whatever else it holds |
| Events.UndecodableDropped | acapy_controller/events.py:49-56 | a non-ping frame that `Event(**data)` rejects is dropped and raises nothing |
| Events.SettingsAlwaysPut | acapy_controller/events.py:58-61 | a decoded "settings" event is put whatever the subwallet status and tag |
| Events.TenantRule | acapy_controller/events.py:63-65 | other events: the base wallet puts every one; a subwallet puts one iff its `wallet_id` equals the controller's, and otherwise drops it as another tenant's |
| Events.ConfigTenantRule | controller/events.py:32-74 | with `is_subwallet` meaning "a `wallet_id` is configured", a non-settings event is put iff no id is configured or the tags are equal, so untagged events never reach a configured subwallet |
| Events.UnfilteredPutsEveryEvent | driver/controller/events.py:46-59 | the older loops do no tenant filtering: every decodable non-ping frame is put |
| Events.Step | acapy_controller/events.py:74-79 | one message: the stream never ends inside a step; an ERROR message breaks; a text frame that is not JSON, or whose handling raises, ends the task; otherwise at most one event is put, and only the event `Handle` puts for that frame |
| Events.Ingested | acapy_controller/events.py:68-80 | the receive loop puts at most one event per message, and a run that stops other than at the end of the stream has read at least one message |
| Events.RunOfBound | acapy_controller/events.py:58-65 | when each message puts at most one event, a run puts at most as many events as it reads messages |
| Events.IngestedAppend | acapy_controller/events.py:74-80 | messages are handled one at a time in arrival order: a run over `a + b` puts `a`'s events, then `b`'s |
| Events.ErrorEndsLoop | driver/controller/events.py:60-62 | an ERROR message ends the loop, and nothing after it is put |
| Events.WithoutHeartbeats | controller/controller/events.py:55-56 | the stream with its heartbeat frames removed contains no heartbeat |
| Events.HeartbeatTransparency | controller/controller/events.py:42-59 | removing heartbeat frames changes neither what a run puts nor how it ends |
| Events.TenantIsolation | acapy_controller/events.py:58-65 | a subwallet's queue only ever receives settings events and events carrying its own tag |
| Events.UnfilteredPutsAllInOrder | controller/controller/events.py:42-59 | in the unfiltered loops, a stream of decodable non-ping frames is put whole, one event per frame, in arrival order, and the loop runs to the end |
| Events.EventSink.constructor | acapy_controller/events.py:31 | a new queue holds no events |
| Events.EventSink.Put | acapy_controller/events.py:60-65 | `put` appends the event and changes nothing else |
| Events.HandleMessage | controller/events.py:51-74 | `_handle_message` puts exactly the event `Handle` accepts, at most one, and reports an escaping exception exactly when `Handle` raises |
| Events.Receive | acapy_controller/events.py:74-79 | one pass of the `async for` body puts exactly what `Step` puts for that message, and breaks exactly when `Step` halts, with the same reason |
| Events.Ws | acapy_controller/events.py:68-80 | the receive loop appends to the queue exactly what `Ingested` puts, in order, and stops as `Ingested` does (stream end, ERROR, or a failed task) |
| Correlation.SelectPredicate | acapy_controller/controller.py:663-665 | the `event`/`record` predicate holds iff the topic equals the requested one and the optional `select` accepts the event |
| Correlation.Accepts | acapy_controller/controller.py:662-665 | the closure handed to `get`: a select closure never raises; an accepted event is on the matcher's topic; a values closure raises only when values are asked and the payload is no dict |
| Correlation.ValuesPredicate | acapy_controller/controller.py:700-703 | the `event_with_values` predicate: false on another topic; topic-only when no values are asked; raises iff the topic matches, values are asked and the payload is no dict; otherwise true iff every asked key's `payload.get` equals the value under Python `==` |
| Correlation.SingleValueMatch | acapy_controller/controller.py:700-703 | with one value asked, the closure holds iff the topic matches, the payload is a dict and its `get` of that key equals the value under Python `==` |
| Correlation.MissingKeyMatchesNone | acapy_controller/controller.py:702 | a payload lacking a key meets a required `None` for it |
| Correlation.ValuesPredicateMonotone | acapy_controller/controller.py:701-702 | asking for fewer values never turns a match into a miss |
| Correlation.TrueMatchesOne | acapy_controller/controller.py:702 | the comparison is Python `==`: a required `True` is met by a payload value `1` |
| Correlation.SelectCall | acapy_controller/controller.py:662-665 | the `get` of `event` (and of the older `record`) uses the queue's own default timeout, and its closure accepts an event iff its topic equals `topic` and `select`, when given, accepts it |
| Correlation.AcapyValuesCall | acapy_controller/controller.py:690-704 | the `get` of `event_with_values` has `ValuesPredicate` as its closure, and passes the given timeout, 5 seconds by default |
| Correlation.ValuesWaitsAgree | controller/controller.py:554-570 | the older `record_with_values` accepts the same events as the newer `event_with_values`; their timeouts differ exactly when none is given (`None` against 5 seconds) |
| Correlation.NoValuesIsTopicOnly | acapy_controller/controller.py:662-665 | with no values asked, a values wait accepts exactly what a select wait without `select` accepts: every event on the topic |
| Correlation.LegacyValuesCall | controller/controller.py:554-570 | the `get` of the older `record_with_values` has `ValuesPredicate` as its closure, and passes the timeout as given, `None` by default |
| Correlation.AcapyEventResult | acapy_controller/controller.py:662-670 | a timed-out `event` is a plain `ControllerError`, not a timeout error; a delivered event's payload goes through `_deserialize` |
| Correlation.AcapyValuesResult | acapy_controller/controller.py:699-710 | a timed-out `event_with_values` is a `ControllerTimeoutError`, which is both a `ControllerError` and a timeout error |
| Correlation.LegacyRecordResult | controller/controller.py:554-576 | the older `record`/`record_with_values` map a timeout to a plain `ControllerError` and deserialize with the older dispatch |
| Correlation.OnlyValuesWaitIsTimeoutError | acapy_controller/controller.py:189-194 | of the three waits, only `event_with_values` raises an error a caller can catch as a timeout |
| Params.SerializeParam | acapy_controller/controller.py:159-164 | `str`, `int` and `float` pass unchanged; `bool` and every other value is JSON-encoded; the result is always a plain scalar |
| Params.MakeParams | controller/protocols.py:40-47 | the result keeps exactly the keys whose value is not None; every value is a plain scalar, and a value that already was one is kept unchanged |
| Params.MakeParamsKeys | controller/protocols.py:40-47 | `params`/`_make_params` keep exactly the keys whose value is not None, each with its serialized value |
| Params.MakeParamsIdempotent | controller/protocols.py:32-47 | applying `_make_params` to its own output changes nothing |
| Params.OmitNone | acapy_controller/controller.py:175-186 | ValueError iff both a non-empty mapping and keywords are given, or neither (empty counts as not given); otherwise the chosen input without its None values |
| Params.OmitNoneResult | acapy_controller/controller.py:175-186 | the result is the sub-mapping of the input with no None values and every non-None entry; a non-empty result passes through `omit_none` unchanged |
| Params.OmitNoneAllNone | acapy_controller/controller.py:180-186 | keywords that are all None are still keywords: the result is `{}`, not an error |
| Minimal.Deserialized | acapy_controller/controller.py:116-132 | `deserialize` succeeds iff no key is `_extra` and every required field is given; declared keys go to the fields (defaults filling the rest), every other key to `_extra`, with the values copied |
| Minimal.Deserialize | acapy_controller/controller.py:122-131 | the loop over `value.items()` that fills `filtered` and `extra` computes exactly `Deserialized` |
| Minimal.Serialize | acapy_controller/controller.py:134-139 | `serialize` yields the declared fields without `_extra`, plus the extra keys; an extra key overrides a field of the same name, and every other field keeps its value |
| Minimal.GetItem | acapy_controller/controller.py:141-143 | subscripting raises KeyError iff the key is not in `_extra`; a found key is one `__iter__` yields, with the value `serialize` gives it |
| Minimal.LenAsWritten | acapy_controller/controller.py:149-151 | `__len__` as written is one more than the corrected count whenever the class does not declare a field named `_extra` |
| Minimal.Len | acapy_controller/controller.py:145-151 | for a well-formed record (fields exactly the declared ones, no extra key shadowing a field) the corrected count equals the number of keys `__iter__` yields |
| Minimal.SerializeAfterDeserialize | acapy_controller/controller.py:134-139 | `serialize` after `deserialize` gives back the input merged over the class's defaults, which equals the input iff every defaulted field was given |
| Minimal.DeserializeWithDefaults | acapy_controller/controller.py:116-132 | deserializing the input with the class defaults filled in gives the same record as the input alone, since the constructor fills them in anyway |
| Minimal.LenCountsIteratedKeys | acapy_controller/controller.py:145-151 | the corrected `__len__` equals the number of keys `__iter__` yields |
| Minimal.LenAsWrittenOvercounts | acapy_controller/controller.py:149-151 | `__len__` as written is one more than the number of keys `__iter__` yields |
| Minimal.GetItemReadsExtraOnly | acapy_controller/controller.py:141-143 | subscripting finds exactly the input keys the class does not declare, with their input values; a declared field name raises KeyError |
| Serde.SerializeAcapy | acapy_controller/controller.py:63-73 | None gives None; Serde is tried before Mapping, then dataclass; anything else is a TypeError |
| Serde.SerializeLegacy | controller/controller.py:56-68 | None gives None; Mapping is tried before Serde, then pydantic, then dataclass; anything else is a TypeError |
| Serde.SerializeGenerationsAgree | controller/controller.py:56-68 | the two generations serialize differently exactly for an object that is both a Mapping and a Serde with different contents, or a pydantic model (neither Mapping nor Serde) whose `dict()` differs from its `asdict` |
| Serde.DeserializeAcapy | acapy_controller/controller.py:88-103 | None passes through; no type or a Mapping type returns the value; a list type deserializes element-wise; Minimal classes (the only Serde classes modelled) and dataclasses build the instance; any other modelled type, a pydantic model without Serde included, is a TypeError |
| Serde.DeserializeItemsAcapy | acapy_controller/controller.py:94-96 | the list comprehension yields one result per element |
| Serde.ItemsElementwise | acapy_controller/controller.py:94-96 | a list deserializes iff every element does, and then element by element |
| Serde.DeserializeLegacy | controller/controller.py:86-102 | no type or a Mapping type (Minimal included) returns the value unchanged; generic and pydantic types are parsed; a dataclass binds its keywords; any other type is a TypeError |
| Serde.IntoOwnClass | acapy_controller/controller.py:153-156 | `into` its own class rebuilds the record with the same fields and `_extra` |
| Serde.Into | acapy_controller/controller.py:153-156 | `into` serializes the record and deserializes the result: no type or a Mapping type gives the flat dict; a Minimal class succeeds iff its `deserialize` of the flat dict does and gives that instance; generic types, pydantic models that do not implement Serde, and other classes are a TypeError; Minimal is the only Serde class modelled |
| Http.MergeHeaders | acapy_controller/controller.py:336-337 | the merged headers hold both key sets, and the controller's own headers win |
| Http.Lower | controller/controller.py:194 | lower-casing keeps the length and maps each character |
| Http.HeaderFilter | controller/controller.py:190-203 | `_header_filter` keeps a header, unchanged, iff its lower-cased name is none of the six excluded names: no kept header has an excluded name, and every other one is kept |
| Http.HeaderFilterCaseInsensitive | controller/controller.py:194-202 | two spellings of a name that differ only in case are kept or dropped together |
| Http.HeaderFilterIdempotent | controller/controller.py:190-203 | filtering twice is filtering once |
| Http.AcapyBody | acapy_controller/controller.py:346-349 | without data and with `json_` None the body is `{}`; with data, or with any serialized body (`{}` included), the body is `json_` unchanged |
| Http.LegacyBody | controller/controller.py:402-404 | without data, a falsy body (None or `{}`) becomes `{}`; with data, or with a non-empty body, the body is `json_` unchanged |
| Http.BodyRulesAgree | controller/controller.py:402-404 | on dict bodies the `is None` test and the falsiness test give the same body |
| AcapyController.CheckTenantArgs | acapy_controller/controller.py:216-217 | ValueError iff a truthy `wallet_id` comes without a truthy `subwallet_token` |
| AcapyController.InitialHeaders | acapy_controller/controller.py:214-221 | the given headers, plus `Authorization: Bearer <token>` exactly when the token is truthy |
| AcapyController.Controller.constructor | acapy_controller/controller.py:200-224 | the label defaults to "ACA-Py", the headers are `InitialHeaders`, and the wallet type is not yet set |
| AcapyController.Controller.New | acapy_controller/controller.py:200-224 | construction fails with ValueError iff the tenant check fails; a controller built with a truthy `wallet_id` is a subwallet and sends an Authorization header |
| AcapyController.Controller.Scope | acapy_controller/controller.py:226-229 | the controller is a subwallet iff a token was given (even an empty one), and filters on its `wallet_id` |
| AcapyController.Controller.EventQueue | acapy_controller/controller.py:231-236 | `event_queue` raises `ControllerError` exactly when no queue is set |
| AcapyController.Controller.FinishSetup | acapy_controller/controller.py:251-264 | `setup` keeps a given queue or installs its own, takes the label from the settings event, records the wallet type, and leaves the rest unchanged; afterwards `event_queue` succeeds |
| AcapyController.Controller.Request | acapy_controller/controller.py:323-359 | GET/DELETE send the merged headers and no body; POST/PUT serialize `json` and send `{}` for no data and no JSON; any other method is a ValueError |
| AcapyController.Controller.Event | acapy_controller/controller.py:654-670 | before setup it raises `ControllerError` and waits for nothing; otherwise it issues a `get` with the queue's default timeout whose closure accepts exactly the events on `topic` that `select` (when given) accepts, maps a timeout to a plain `ControllerError` naming label and topic, and deserializes a delivered payload |
| AcapyController.Controller.EventWithValues | acapy_controller/controller.py:690-710 | before setup it raises `ControllerError`; otherwise its `get` has `ValuesPredicate` as closure and the given timeout (5 seconds by default), a timeout is a `ControllerTimeoutError`, and a delivered payload is deserialized |
| AcapyController.SubwalletWithoutId | acapy_controller/controller.py:226-229 | a controller with a token and no `wallet_id` keeps untagged events and drops every tagged non-settings one |
| LegacyController.Controller.constructor | controller/controller.py:112-137 | the same defaults and headers as the newer controller; the session is whatever was handed in |
| LegacyController.Controller.New | controller/controller.py:112-137 | the same ValueError condition and Authorization header as the newer controller |
| LegacyController.Controller.EventQueue | controller/controller.py:144-149 | `event_queue` raises `ControllerError` exactly when no queue is set |
| LegacyController.Controller.FinishSetup | controller/controller.py:164-177 | `setup` keeps or installs a queue and a session and takes the label from the settings event; afterwards both guards pass |
| LegacyController.Controller.SessionGuard | controller/controller.py:280-283 | the request guard raises `ControllerError` exactly when there is no session |
| LegacyController.Controller.Get | controller/controller.py:271-289 | `get` fails iff there is no session, and otherwise sends the merged headers |
| LegacyController.Controller.Delete | controller/controller.py:323-341 | `delete` fails iff there is no session, and otherwise sends no headers of its own |
| LegacyController.Controller.Send | controller/controller.py:384-410 | `post`/`put` fail with `ControllerError` without a session and with TypeError for an unserializable body; otherwise they send no merged headers and a body that is `{}` when there is no data and the serialized body is None or `{}` |
| LegacyController.Controller.Record | controller/controller.py:507-524 | `record` raises before setup; otherwise its `get` has the queue's default timeout and accepts exactly the events on `topic` that `select` (when given) accepts, a timeout is a plain `ControllerError`, and a delivered payload is deserialized with the older dispatch |
| LegacyController.Controller.RecordWithValues | controller/controller.py:554-576 | `record_with_values` raises before setup; otherwise its `get` has `ValuesPredicate` as closure and the timeout as given (`None` included), with the same error mapping as `record` |
| LegacyController.OnlyGetSendsCallHeaders | controller/controller.py:285-341 | `delete` and `post` send the same request whatever headers the caller passes, while `get` forwards them |
| LegacyController.WaitsAsNewer | controller/controller.py:507-576 | once set up, the older `record` and `record_with_values` issue the same `get` closures as the newer `event` and `event_with_values`; only the values wait without a timeout differs (`None` against 5 seconds) |
| LegacyController.PostBodyAsNewer | controller/controller.py:400-404 | for a dict or `None` payload, the older POST body equals the newer one |
| Protocols.Entry | acapy_controller/protocols.py:970-980 | attribute entries are `{cred_id, revealed: True}`; predicate entries are `{cred_id}` only |
| Protocols.LastMatch | acapy_controller/protocols.py:968-980 | no credential is chosen iff none lists the referent; a chosen id belongs to a credential that lists it |
| Protocols.Selection | acapy_controller/protocols.py:966-980 | only referents the request asks for are selected |
| Protocols.LastMatchSpec | acapy_controller/protocols.py:968-980 | a referent gets a credential iff some credential lists it, and the chosen one is the last such credential |
| Protocols.SelectionMeaning | acapy_controller/protocols.py:966-980 | a referent is selected iff the request asks for it and some credential lists it, with the last such credential's id |
| Protocols.LaterCredentialWins | acapy_controller/protocols.py:968-980 | appending a credential that lists a referent makes it the choice |
| Protocols.SelectFor | acapy_controller/protocols.py:966-980 | each pair of nested loops builds exactly `Selection` |
| Protocols.AutoSelect | acapy_controller/protocols.py:958-988 | the presentation spec holds the attribute and predicate selections and an empty `self_attested_attributes` |
| Protocols.AnoncredsWallet | acapy_controller/protocols.py:1320-1325 | a wallet type never read is an AttributeError; a `None` one is a `ControllerError`; otherwise anoncreds iff it is "askar-anoncreds" |
| Protocols.RevInfoOf | acapy_controller/protocols.py:1333-1372 | V1.0 records give their own fields; V2.0 records prefer `indy` over `anoncreds` and raise ValueError with neither; any other record is a TypeError |
| Protocols.Revoke | acapy_controller/protocols.py:1307-1372 | wallet errors first; `notify` without a connection returns the message and posts nothing; otherwise it succeeds iff the record gives revocation fields, and posts to `[/anoncreds]/revocation/revoke` (prefixed iff anoncreds) a body of exactly the six keys, with the record's fields, the connection, `publish`, `notify` and `notify_version` |
| Protocols.PublishRevocation | acapy_controller/protocols.py:1375-1430 | wallet errors first; then it posts to `[/anoncreds]/revocation/publish-revocations` iff the record gives revocation fields, a body of exactly the record's two fields, `publish` and `notify` |
| Protocols.RevokeThenPublishAgree | acapy_controller/protocols.py:1307-1430 | revoke and publish on one record use the same prefix and the same `rev_reg_id`/`cred_rev_id` |
| Protocols.PresentFormatRecordIsTruthy | acapy_controller/protocols.py:680-684 | every `V20CredExRecordIndy` record, whatever its contents, has length at least 2 (at least 3 as `__len__` is written), so `if cred_ex.indy:` only tests presence |
| Protocols.RegistrySize | acapy_controller/protocols.py:507-509 | a falsy registry size becomes 10, and any other is kept |
| Protocols.AnoncredsPlan | acapy_controller/protocols.py:469-534 | the askar-anoncreds branch posts to `/anoncreds/schema` and `/anoncreds/credential-definition`, and with an endorser waits once after the schema and four times after the credential definition |
| Protocols.AskarPlan | acapy_controller/protocols.py:536-560 | the askar branch posts to `/schemas` and `/credential-definitions`, with the version and registry size given, and never waits |
| Protocols.CredentialArtifacts | acapy_controller/protocols.py:449-560 | it fails iff the wallet check fails or an anoncreds wallet has no `issuer_id`, and otherwise follows the branch the wallet type selects |
| Protocols.ArtifactDefaults | acapy_controller/protocols.py:483-552 | the registry size posted is the given one, or 10 when it is missing or zero; the schema version defaults to "1.0" |
| Protocols.EndorseWait | acapy_controller/protocols.py:492-494 | the endorsement wait accepts exactly the events on "endorse_transaction" whose payload is a dict with `state` equal to "transaction_acked", and passes the given timeout, 5 seconds by default |
| Protocols.EndorsementWaits | acapy_controller/protocols.py:491-532 | with an endorser connection, an askar-anoncreds run waits for "endorse_transaction" once after the schema (5 seconds) and four times after the credential definition (120, 60, 60, 60 seconds); otherwise it never waits |
| Protocols.InvitationIdIsAtId | acapy_controller/protocols.py:129-136 | every invitation key lands in `_extra`, so `id` is the input's "@id", or a KeyError without one |
| Protocols.InvitationId | acapy_controller/protocols.py:133-136 | `id` raises KeyError iff "@id" is not in `_extra`; otherwise it is the "@id" that `serialize` yields |
| Onboarding.ReplaceAllTrailing | acapy_controller/onboarding.py:32-34 | replacing a trailing "/genesis" replaces that occurrence and leaves the earlier text as `str.replace` would |
| Onboarding.ReplaceAll | acapy_controller/onboarding.py:32-34 | `str.replace` with a pattern replaced by itself leaves the string unchanged, and with a same-length replacement keeps its length |
| Onboarding.GetOnboarder | acapy_controller/onboarding.py:29-46 | a VON onboarder iff the URL ends in "/genesis"; a self-serve onboarder registers at the Indicio nym URL on "testnet" or "demonet"; None iff the URL neither ends in "/genesis" nor is one of the three Indicio genesis URLs |
| Onboarding.LegacyGetOnboarder | controller/onboarding.py:16-28 | the same decision with only the two testnet URLs in the table, both on "testnet" |
| Onboarding.VonRegistrationUrl | acapy_controller/onboarding.py:29-34 | `base + "/genesis"` gives a VON onboarder at `base` (with its own replacements) `+ "/register"` |
| Onboarding.PlainBaseRegisterUrls | controller/onboarding.py:16-19 | for a base address with no "g", the older version registers at `base + "register"`, the newer at `base + "/register"`, and the two differ |
| Onboarding.UnknownUrlHasNone | acapy_controller/onboarding.py:36-46 | a URL that neither ends in "/genesis" nor is in the table gives None, in both versions |
| Onboarding.IndicioUrlsAreNotVon | acapy_controller/onboarding.py:14-34 | none of the Indicio genesis URLs ends in "/genesis", so the table decides them |
| Onboarding.IndicioNetworks | acapy_controller/onboarding.py:36-46 | both testnet files map to the self-serve "testnet" onboarder in both versions; demonet maps to "demonet" in the newer version only |
| Onboarding.LegacyRegisterUrlMissesSlash | controller/onboarding.py:16-19 | the older version turns `http://localhost:9000/genesis` into `http://localhost:9000register` |
| StripUnique.Stripped | tests/test_credential_attachments.py:262-266 | a dict keeps exactly its keys outside the blocklist, with their values |
| StripUnique.StrippedAll | tests/test_credential_attachments.py:258-268 | the list keeps its length and order, dict by dict |
| StripUnique.Strip | tests/test_credential_attachments.py:258-268 | the two loops compute exactly `StrippedAll` |
| StripUnique.StripMeaning | tests/test_credential_attachments.py:259-266 | no output dict has `lastmod_time`, `@id`, `id` or `ref`; every other key keeps its value |
| StripUnique.StripIdempotent | tests/test_credential_attachments.py:258-268 | stripping twice is stripping once |

## Left out

- The selective queue (matching, backlog, fairness, `flush`, timeout races) belongs to the `async_selective_queue` library, which is not part of this model. A `get` is its predicate, its timeout, and an outcome given as a parameter.
- The `EventQueue` context managers, the websocket task's lifecycle, aiohttp sessions, `_handle_response`, logging and the onboarders' `onboard` posts are I/O, concurrency or output. They are left out.
- Events.Ws: a text frame that is not JSON, or not a JSON object, ends the task (`msg.json()` and `data.get` are outside the `try`). The model stops the loop with `TaskFailed` and does not model the exception itself.
- Correlation.SelectPredicate: a `select` callback that raises is not modelled; `select` is a total function.
- What the queue delivers is a parameter of the waits (`Correlation.Outcome`). The model states which closure and timeout each wait hands to `get`, not that the library delivers an event the closure accepts, nor what happens when the closure raises inside the library.
- AcapyController.Controller.FinishSetup: `if not self._event_queue` tests truthiness; the model keeps any queue that was given, and does not model a given queue the library might make falsy. LegacyController.Controller.FinishSetup is modelled the same way.
- LegacyController.Controller.FinishSetup: the queue `setup` installs itself is created from the controller (controller/controller.py:168), but the older `ws` reads `config.url` (controller/events.py:79), which that controller does not have, so that websocket task ends with AttributeError. The model does not model the task; it records only that a queue is installed.
- Serde.DeserializeAcapy: a list type given a non-list value is modelled as a TypeError. Custom `deserialize` overrides (such as `IndyCredPrecis`) and nested `Minimal` fields are not modelled; a Minimal class deserializes its top level only.
- Serde.DeserializeAcapy / Serde.Into: Serde classes other than Minimal are not modelled, in particular the pydantic models of acapy_controller/model_base.py, which implement `serialize` and `deserialize` (through `model_validate`) and which `_deserialize` builds through its Serde branch (acapy_controller/controller.py:97-98). acapy_controller/model_base.py is not part of this model.
- Serde.DeserializeLegacy: pydantic's `parse_obj_as` and `parse_obj` are opaque here; their result is recorded as `Parsed(type, value)`, and their own validation errors are not modelled.
- Serde.SerializeAcapy: `asdict` and pydantic's `dict()` are inputs of the `PyObject` value, not computed.
- Http.Lower: only ASCII letters are lower-cased; Python's full Unicode case mapping is not modelled.
- AcapyController.Controller.Request: aiohttp's refusal of `data` and `json` together, and the response handling and deserialization, are not modelled.
- Protocols.AutoSelect: a request given as a dict (`IndyProofRequest.deserialize`) is not modelled; the selection takes the request's referent sets directly.
- Protocols.CredentialArtifacts: the schema id an agent returns and the random `token_hex` names are parameters, and the HTTP responses are not modelled.
- The protocol orchestration flows (connections, issuance, presentation, mediation) are straight-line HTTP call sequences with sleeps. They are left out.
- JSON numbers are `int` or `real`; NaN and floating-point rounding are not modelled. Dict order is not modelled: objects are maps.
- `wallet_type` is never assigned in `__init__` of acapy_controller/controller.py: reading it before `setup` raises AttributeError, which `WalletType.Unset` records.

## Findings

| source | as written | input that shows it | evidently intended | confidence | as-written member | corrected member |
|---|---|---|---|---|---|---|
| acapy_controller/controller.py:149-151 | `__len__` counts `len(fields(self))`, which includes the `_extra` field itself | a `V20CredExRecordIndy` built from `{}`: iteration yields 2 keys, `len` is 3 | the number of keys `__iter__` yields (declared fields plus extra keys) | not executed | Minimal.LenAsWrittenOvercounts | Minimal.LenCountsIteratedKeys |
| controller/onboarding.py:19 | `replace("/genesis", "register")` drops the slash | `http://localhost:9000/genesis` gives `http://localhost:9000register` | `http://localhost:9000/register`, as acapy_controller/onboarding.py:34 does | not executed | Onboarding.LegacyRegisterUrlMissesSlash | Onboarding.VonRegistrationUrl |
