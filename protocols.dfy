/** The decision logic of acapy_controller/protocols.py: automatic credential
    selection for a presentation request, the request `anoncreds_revoke` and
    `anoncreds_publish_revocation` post, the defaults and guards of
    `indy_anoncred_credential_artifacts`, and `InvitationMessage.id`. */
module Protocols {
  import opened Wrappers
  import opened Json
  import opened Errors
  import Minimal
  import Params
  import Correlation
  import AcapyController

  /* ---------- automatic credential selection ---------- */

  /** An `IndyCredPrecis`: the referent of its `cred_info` and its
      `presentation_referents`. */
  datatype CredPrecis = CredPrecis(credId: string, referents: seq<string>)

  /** Attribute entries reveal the value; predicate entries carry only the
      credential. */
  datatype EntryKind = AttributeEntry | PredicateEntry

  function Entry(kind: EntryKind, credId: string): (j: Json)
    ensures j.JObject? && "cred_id" in j.fields && j.fields["cred_id"] == JString(credId)
    ensures kind == AttributeEntry ==> j.fields.Keys == {"cred_id", "revealed"} && j.fields["revealed"] == JBool(true)
    ensures kind == PredicateEntry ==> j.fields.Keys == {"cred_id"}
  {
    match kind
    case AttributeEntry => JObject(map["cred_id" := JString(credId), "revealed" := JBool(true)])
    case PredicateEntry => JObject(map["cred_id" := JString(credId)])
  }

  /** The credential the selection ends up with for a referent: the last one
      in the list that names it. */
  function LastMatch(creds: seq<CredPrecis>, ref: string): (r: Option<string>)
    decreases |creds|
    ensures r.None? <==> forall i :: 0 <= i < |creds| ==> ref !in creds[i].referents
    ensures r.Some? ==> exists i :: 0 <= i < |creds| && ref in creds[i].referents && creds[i].credId == r.value
  {
    if creds == [] then None
    else if ref in creds[|creds| - 1].referents then Some(creds[|creds| - 1].credId)
    else LastMatch(creds[..|creds| - 1], ref)
  }

  /** A referent gets a credential iff some credential lists it, and then it
      gets one that lists it with no later credential listing it. */
  lemma {:induction false} LastMatchSpec(creds: seq<CredPrecis>, ref: string)
    decreases |creds|
    ensures LastMatch(creds, ref).Some? <==> exists i :: 0 <= i < |creds| && ref in creds[i].referents
    ensures LastMatch(creds, ref).Some? ==>
              exists i :: 0 <= i < |creds| && ref in creds[i].referents && creds[i].credId == LastMatch(creds, ref).value
                          && forall j :: i < j < |creds| ==> ref !in creds[j].referents
  {
    if creds != [] && ref !in creds[|creds| - 1].referents {
      var front := creds[..|creds| - 1];
      LastMatchSpec(front, ref);
      assert forall i :: 0 <= i < |front| ==> front[i] == creds[i];
      if LastMatch(front, ref).Some? {
        var i :| 0 <= i < |front| && ref in front[i].referents && front[i].credId == LastMatch(front, ref).value
                 && forall j :: i < j < |front| ==> ref !in front[j].referents;
        assert forall j :: i < j < |creds| ==> ref !in creds[j].referents;
      }
    }
  }

  /** The `requested_attributes` or `requested_predicates` the selection builds. */
  function Selection(refs: set<string>, creds: seq<CredPrecis>, kind: EntryKind): (sel: map<string, Json>)
    ensures sel.Keys <= refs
  {
    map r | r in refs && LastMatch(creds, r).Some? :: Entry(kind, LastMatch(creds, r).value)
  }

  /** A referent is in the selection iff the request asks for it and some
      credential lists it; its entry names the last such credential. */
  lemma SelectionMeaning(refs: set<string>, creds: seq<CredPrecis>, kind: EntryKind, ref: string)
    ensures ref in Selection(refs, creds, kind) <==>
              ref in refs && exists i :: 0 <= i < |creds| && ref in creds[i].referents
    ensures ref in Selection(refs, creds, kind) ==>
              exists i :: 0 <= i < |creds| && ref in creds[i].referents
                          && Selection(refs, creds, kind)[ref] == Entry(kind, creds[i].credId)
                          && forall j :: i < j < |creds| ==> ref !in creds[j].referents
  {
    LastMatchSpec(creds, ref);
  }

  /** Appending a credential that lists a referent makes it the choice. */
  lemma {:induction false} LaterCredentialWins(creds: seq<CredPrecis>, c: CredPrecis, ref: string)
    requires ref in c.referents
    ensures LastMatch(creds + [c], ref) == Some(c.credId)
  {
    assert (creds + [c])[|creds + [c]| - 1] == c;
  }

  /** The `IndyPresSpec` the selection returns. */
  datatype PresSpec = PresSpec(requestedAttributes: map<string, Json>, requestedPredicates: map<string, Json>,
                               selfAttestedAttributes: map<string, Json>)

  /** The entry the inner loop has settled on after the credentials `cs`. */
  function Partial(ref: string, cs: seq<CredPrecis>, kind: EntryKind): map<string, Json> {
    if LastMatch(cs, ref).Some? then map[ref := Entry(kind, LastMatch(cs, ref).value)] else map[]
  }

  lemma LastMatchStep(creds: seq<CredPrecis>, i: nat, ref: string)
    requires i < |creds|
    ensures LastMatch(creds[..i + 1], ref) ==
              if ref in creds[i].referents then Some(creds[i].credId) else LastMatch(creds[..i], ref)
  {
    assert creds[..i + 1][..i] == creds[..i];
    assert creds[..i + 1][i] == creds[i];
  }

  /** Overwriting the key of a map that holds at most that key. */
  lemma OverrideOnly(s: map<string, Json>, p: map<string, Json>, k: string, e: Json)
    requires p.Keys <= {k}
    ensures (s + p)[k := e] == s + map[k := e]
  {
  }

  lemma InnerStep(settled: map<string, Json>, creds: seq<CredPrecis>, kind: EntryKind, ref: string, i: nat,
                  selected: map<string, Json>)
    requires i < |creds|
    requires selected == settled + Partial(ref, creds[..i], kind)
    ensures (if ref in creds[i].referents then selected[ref := Entry(kind, creds[i].credId)] else selected)
            == settled + Partial(ref, creds[..i + 1], kind)
  {
    LastMatchStep(creds, i, ref);
    if ref in creds[i].referents {
      OverrideOnly(settled, Partial(ref, creds[..i], kind), ref, Entry(kind, creds[i].credId));
    }
  }

  lemma SelectionAdd(done: set<string>, creds: seq<CredPrecis>, kind: EntryKind, ref: string)
    ensures Selection(done, creds, kind) + Partial(ref, creds, kind) == Selection(done + {ref}, creds, kind)
  {
  }

  lemma EmptyPartial(settled: map<string, Json>, ref: string, creds: seq<CredPrecis>, kind: EntryKind)
    ensures settled + Partial(ref, creds[..0], kind) == settled
  {
    assert creds[..0] == [];
  }

  lemma OuterStep(refs: set<string>, remaining: set<string>, creds: seq<CredPrecis>, kind: EntryKind, ref: string,
                  selected: map<string, Json>)
    requires ref in remaining && remaining <= refs
    requires selected == Selection(refs - remaining, creds, kind) + Partial(ref, creds[..|creds|], kind)
    ensures selected == Selection(refs - (remaining - {ref}), creds, kind)
  {
    assert creds[..|creds|] == creds;
    SelectionAdd(refs - remaining, creds, kind, ref);
    assert refs - (remaining - {ref}) == (refs - remaining) + {ref};
  }

  /** One of the two nested loops: for every referent, every credential that
      lists it overwrites the entry, so the last one stays. */
  method SelectFor(refs: set<string>, creds: seq<CredPrecis>, kind: EntryKind) returns (selected: map<string, Json>)
    ensures selected == Selection(refs, creds, kind)
  {
    selected := map[];
    var remaining := refs;
    while remaining != {}
      invariant remaining <= refs
      invariant selected == Selection(refs - remaining, creds, kind)
      decreases remaining
    {
      var ref :| ref in remaining;
      ghost var done := refs - remaining;
      EmptyPartial(Selection(done, creds, kind), ref, creds, kind);
      var i := 0;
      while i < |creds|
        invariant 0 <= i <= |creds|
        invariant selected == Selection(done, creds, kind) + Partial(ref, creds[..i], kind)
      {
        InnerStep(Selection(done, creds, kind), creds, kind, ref, i, selected);
        if ref in creds[i].referents {
          selected := selected[ref := Entry(kind, creds[i].credId)];
        }
        i := i + 1;
      }
      OuterStep(refs, remaining, creds, kind, ref, selected);
      remaining := remaining - {ref};
    }
  }

  /** `anoncreds_auto_select_credentials_for_presentation_request`, for a
      request whose referents are given. */
  method AutoSelect(attributeRefs: set<string>, predicateRefs: set<string>, creds: seq<CredPrecis>) returns (spec: PresSpec)
    ensures spec.requestedAttributes == Selection(attributeRefs, creds, AttributeEntry)
    ensures spec.requestedPredicates == Selection(predicateRefs, creds, PredicateEntry)
    ensures spec.selfAttestedAttributes == map[]
  {
    var attributes := SelectFor(attributeRefs, creds, AttributeEntry);
    var predicates := SelectFor(predicateRefs, creds, PredicateEntry);
    spec := PresSpec(attributes, predicates, map[]);
  }

  /* ---------- revocation ---------- */

  /** The revocation fields of a V1.0 exchange record or of a V2.0 format
      record. */
  datatype RevInfo = RevInfo(revRegId: Option<string>, credRevId: Option<string>)

  /** What `cred_ex` is: a `V10CredentialExchange`, a `V20CredExRecordDetail`
      (its `indy` and `anoncreds` parts), or anything else. */
  datatype CredEx = V10(rev: RevInfo) | V20Detail(indy: Option<RevInfo>, anoncreds: Option<RevInfo>) | OtherRecord

  /** A `post` call: its URL and JSON body. */
  datatype PostCall = PostCall(url: string, body: map<string, Json>)

  datatype RevokeOutcome = Message(text: string) | Posted(call: PostCall)

  const AnoncredsWalletType := "askar-anoncreds"
  const NotifyWithoutConnection :=
    "If you are going to set notify to True,then holder_connection_id cannot be empty."

  /** The wallet-type test at the top of the three functions: reading the
      attribute before setup raises AttributeError, a `None` wallet type a
      `ControllerError`; otherwise whether the wallet is askar-anoncreds. */
  function AnoncredsWallet(wt: AcapyController.WalletType): (r: Result<bool, Error>)
    ensures r.Failure? <==> wt.Unset? || wt.kind.None?
    ensures wt.Known? && wt.kind.None? ==> r == Failure(ControllerError(WalletTypeMissing))
    ensures r.Success? ==> (r.value <==> wt.kind == Some(AnoncredsWalletType))
  {
    match wt
    case Unset => Failure(AttributeError("wallet_type"))
    case Known(None) => Failure(ControllerError(WalletTypeMissing))
    case Known(Some(kind)) => Success(kind == AnoncredsWalletType)
  }

  function Prefix(anoncreds: bool): string {
    if anoncreds then "/anoncreds" else ""
  }

  predicate HasAnoncredsPrefix(url: string) {
    |url| >= 10 && url[..10] == "/anoncreds"
  }

  /** A revocation URL carries the `/anoncreds` prefix iff the wallet is
      askar-anoncreds. */
  lemma PrefixedUrl(anoncreds: bool, path: string)
    requires |path| >= 10 && path[1] != 'a'
    ensures HasAnoncredsPrefix(Prefix(anoncreds) + path) <==> anoncreds
  {
    var url := Prefix(anoncreds) + path;
    if anoncreds {
      assert url[..10] == "/anoncreds";
    } else {
      assert url[1] == path[1] != "/anoncreds"[1];
    }
  }

  /** The revocation fields a record contributes: V2.0 prefers `indy`
      (a present `Minimal` record is truthy) over `anoncreds`. */
  function RevInfoOf(credEx: CredEx): (r: Result<RevInfo, Error>)
    ensures credEx.V10? ==> r == Success(credEx.rev)
    ensures credEx.V20Detail? && credEx.indy.Some? ==> r == Success(credEx.indy.value)
    ensures credEx.V20Detail? && credEx.indy.None? && credEx.anoncreds.Some? ==> r == Success(credEx.anoncreds.value)
    ensures credEx.V20Detail? && credEx.indy.None? && credEx.anoncreds.None? ==> r.Failure? && r.error.ValueError?
    ensures credEx.OtherRecord? ==> r.Failure? && r.error.TypeError?
  {
    match credEx
    case V10(rev) => Success(rev)
    case V20Detail(indy, anoncreds) =>
      if indy.Some? then Success(indy.value)
      else if anoncreds.Some? then Success(anoncreds.value)
      else Failure(ValueError("Missing indy or anoncreds on detail"))
    case OtherRecord => Failure(TypeError("Expected cred_ex to be V10CredentialExchange or V20CredExRecordDetail"))
  }

  /** `anoncreds_revoke`. */
  function Revoke(wt: AcapyController.WalletType, credEx: CredEx, holderConnectionId: Option<string>,
                  publish: bool, notify: bool, notifyVersion: string): (r: Result<RevokeOutcome, Error>)
    ensures AnoncredsWallet(wt).Failure? ==> r == Failure(AnoncredsWallet(wt).error)
    ensures AnoncredsWallet(wt).Success? && notify && holderConnectionId.None? ==>
              r == Success(Message(NotifyWithoutConnection))
    ensures AnoncredsWallet(wt).Success? && !(notify && holderConnectionId.None?) ==>
              (r.Success? <==> RevInfoOf(credEx).Success?)
    ensures r.Success? && r.value.Posted? ==>
              var info := RevInfoOf(credEx).value;
              && r.value.call.url == Prefix(AnoncredsWallet(wt).value) + "/revocation/revoke"
              && r.value.call.body.Keys == {"connection_id", "rev_reg_id", "cred_rev_id", "publish", "notify", "notify_version"}
              && r.value.call.body["rev_reg_id"] == OptString(info.revRegId)
              && r.value.call.body["cred_rev_id"] == OptString(info.credRevId)
              && r.value.call.body["connection_id"] == OptString(holderConnectionId)
              && r.value.call.body["publish"] == JBool(publish) && r.value.call.body["notify"] == JBool(notify)
              && r.value.call.body["notify_version"] == JString(notifyVersion)
  {
    var anoncreds :- AnoncredsWallet(wt);
    if notify && holderConnectionId.None? then Success(Message(NotifyWithoutConnection))
    else
      var info :- RevInfoOf(credEx);
      Success(Posted(PostCall(
        Prefix(anoncreds) + "/revocation/revoke",
        map["connection_id" := OptString(holderConnectionId),
            "rev_reg_id" := OptString(info.revRegId),
            "cred_rev_id" := OptString(info.credRevId),
            "publish" := JBool(publish),
            "notify" := JBool(notify),
            "notify_version" := JString(notifyVersion)])))
  }

  /** `anoncreds_publish_revocation`: no notify check and no connection. */
  function PublishRevocation(wt: AcapyController.WalletType, credEx: CredEx, publish: bool, notify: bool): (r: Result<PostCall, Error>)
    ensures AnoncredsWallet(wt).Failure? ==> r == Failure(AnoncredsWallet(wt).error)
    ensures AnoncredsWallet(wt).Success? ==> (r.Success? <==> RevInfoOf(credEx).Success?)
    ensures r.Success? ==>
              var info := RevInfoOf(credEx).value;
              && r.value.url == Prefix(AnoncredsWallet(wt).value) + "/revocation/publish-revocations"
              && r.value.body.Keys == {"rev_reg_id", "cred_rev_id", "publish", "notify"}
              && r.value.body["rev_reg_id"] == OptString(info.revRegId)
              && r.value.body["cred_rev_id"] == OptString(info.credRevId)
              && r.value.body["publish"] == JBool(publish) && r.value.body["notify"] == JBool(notify)
  {
    var anoncreds :- AnoncredsWallet(wt);
    var info :- RevInfoOf(credEx);
    Success(PostCall(
      Prefix(anoncreds) + "/revocation/publish-revocations",
      map["rev_reg_id" := OptString(info.revRegId),
          "cred_rev_id" := OptString(info.credRevId),
          "publish" := JBool(publish),
          "notify" := JBool(notify)]))
  }

  /** Revoking and then publishing the same record address the same
      revocation entry, under the same URL prefix; the prefix is
      `/anoncreds` iff the wallet is askar-anoncreds. */
  lemma RevokeThenPublishAgree(wt: AcapyController.WalletType, credEx: CredEx, conn: string, publish: bool, notify: bool, v: string)
    requires Revoke(wt, credEx, Some(conn), publish, notify, v).Success?
    ensures PublishRevocation(wt, credEx, publish, notify).Success?
    ensures var rc := Revoke(wt, credEx, Some(conn), publish, notify, v).value.call;
            var pc := PublishRevocation(wt, credEx, publish, notify).value;
            && rc.body["rev_reg_id"] == pc.body["rev_reg_id"]
            && rc.body["cred_rev_id"] == pc.body["cred_rev_id"]
            && (HasAnoncredsPrefix(rc.url) <==> wt == AcapyController.Known(Some(AnoncredsWalletType)))
            && (HasAnoncredsPrefix(pc.url) <==> wt == AcapyController.Known(Some(AnoncredsWalletType)))
  {
    RevocationUrls(AnoncredsWallet(wt).value,
                   Revoke(wt, credEx, Some(conn), publish, notify, v).value.call.url,
                   PublishRevocation(wt, credEx, publish, notify).value.url);
  }

  lemma RevocationUrls(anon: bool, revokeUrl: string, publishUrl: string)
    requires revokeUrl == Prefix(anon) + "/revocation/revoke"
    requires publishUrl == Prefix(anon) + "/revocation/publish-revocations"
    ensures HasAnoncredsPrefix(revokeUrl) <==> anon
    ensures HasAnoncredsPrefix(publishUrl) <==> anon
  {
    PrefixedUrl(anon, "/revocation/revoke");
    PrefixedUrl(anon, "/revocation/publish-revocations");
  }

  /** `if cred_ex.indy:` is a test for presence: every `V20CredExRecordIndy`
      (two declared fields) has a non-zero length, both as `__len__` is
      written and as corrected. */
  const V20CredExRecordIndy := Minimal.RecordClass({}, map["rev_reg_id" := JNull, "cred_rev_id" := JNull])

  lemma PresentFormatRecordIsTruthy(rec: Minimal.Record)
    ensures Minimal.Len(V20CredExRecordIndy, rec) >= 2
    ensures Minimal.LenAsWritten(V20CredExRecordIndy, rec) >= 3
  {
    assert "rev_reg_id"[0] != "cred_rev_id"[0];
    Minimal.TwoDeclaredFields(V20CredExRecordIndy, rec, "rev_reg_id", "cred_rev_id");
  }

  /* ---------- credential artifacts ---------- */

  const DefaultRevocationRegistrySize := 10
  const DefaultSchemaVersion := "1.0"
  const EndorseTopic := "endorse_transaction"

  /** The endorsement wait `event_with_values("endorse_transaction",
      state="transaction_acked", timeout=...)`. */
  function EndorseWait(timeout: Option<int>): (c: Correlation.GetCall)
    ensures forall e :: Correlation.Accepts(c.matcher, e) == Correlation.Holds(true) <==>
              e.topic == JString(EndorseTopic) && e.payload.JObject?
              && PyEq(Get(e.payload.fields, "state"), JString("transaction_acked"))
    ensures timeout.None? ==> c.timeout == Correlation.Given(Some(Correlation.DefaultValuesTimeout))
    ensures timeout.Some? ==> c.timeout == Correlation.Given(timeout)
  {
    Correlation.SingleValueMatch(EndorseTopic, "state", JString("transaction_acked"));
    Correlation.AcapyValuesCall(EndorseTopic, map["state" := JString("transaction_acked")], timeout)
  }

  /** What `indy_anoncred_credential_artifacts` does once the guards pass:
      the schema post, the waits after it, the credential definition post and
      the waits after that. */
  datatype ArtifactPlan = ArtifactPlan(schemaPost: PostCall, schemaWaits: seq<Correlation.GetCall>,
                                       credDefPost: PostCall, credDefWaits: seq<Correlation.GetCall>)

  /** `revocation_registry_size if revocation_registry_size else 10`. */
  function RegistrySize(size: Option<int>): (n: int)
    ensures size.Some? && size.value != 0 ==> n == size.value
    ensures size.None? || size.value == 0 ==> n == DefaultRevocationRegistrySize
  {
    if size.Some? && size.value != 0 then size.value else DefaultRevocationRegistrySize
  }

  function OrElse(s: Option<string>, default: string): string {
    if StrTruthy(s) then s.value else default
  }

  function AttrNames(attributes: seq<string>): Json {
    JArray(seq(|attributes|, i requires 0 <= i < |attributes| => JString(attributes[i])))
  }

  /** The askar-anoncreds schema post: `omit_none` options around the
      endorser connection. */
  function AnoncredsSchemaPost(attributes: seq<string>, name: string, version: string,
                               issuerId: string, endorserConnectionId: Option<string>): (c: PostCall)
    ensures c.url == "/anoncreds/schema"
    ensures "schema" in c.body && c.body["schema"].JObject?
    ensures "version" in c.body["schema"].fields && c.body["schema"].fields["version"] == JString(version)
  {
    var kwargs := map["endorser_connection_id" := OptString(endorserConnectionId)];
    assert "endorser_connection_id" in kwargs;
    var options := Params.OmitNone(None, kwargs).value;
    var schema := map["attrNames" := AttrNames(attributes), "issuerId" := JString(issuerId),
                      "name" := JString(name), "version" := JString(version)];
    PostCall("/anoncreds/schema", map["schema" := JObject(schema), "options" := JObject(options)])
  }

  /** The askar-anoncreds credential definition post: `omit_none` options
      holding the endorser connection, the registry size and the revocation
      flag. */
  function AnoncredsCredDefPost(issuerId: string, schemaId: string, tag: string, supportRevocation: bool,
                                revocationRegistrySize: Option<int>, endorserConnectionId: Option<string>): (c: PostCall)
    ensures c.url == "/anoncreds/credential-definition"
    ensures "options" in c.body && c.body["options"].JObject?
    ensures "revocation_registry_size" in c.body["options"].fields
    ensures c.body["options"].fields["revocation_registry_size"] == JInt(RegistrySize(revocationRegistrySize))
  {
    var kwargs := map[
      "endorser_connection_id" := OptString(endorserConnectionId),
      "revocation_registry_size" := JInt(RegistrySize(revocationRegistrySize)),
      "support_revocation" := JBool(supportRevocation)];
    assert "revocation_registry_size" in kwargs;
    var options := Params.OmitNone(None, kwargs).value;
    var credDef := map["issuerId" := JString(issuerId), "schemaId" := JString(schemaId), "tag" := JString(tag)];
    PostCall("/anoncreds/credential-definition",
             map["credential_definition" := JObject(credDef), "options" := JObject(options)])
  }

  /** The askar-anoncreds branch: `/anoncreds/...` endpoints, `omit_none`
      options, and the endorsement waits when an endorser connection is set. */
  function AnoncredsPlan(attributes: seq<string>, name: string, version: string, tag: string,
                         supportRevocation: bool, revocationRegistrySize: Option<int>,
                         issuerId: string, endorserConnectionId: Option<string>, schemaId: string): (p: ArtifactPlan)
    ensures p.schemaPost == AnoncredsSchemaPost(attributes, name, version, issuerId, endorserConnectionId)
    ensures p.credDefPost == AnoncredsCredDefPost(issuerId, schemaId, tag, supportRevocation,
                                                  revocationRegistrySize, endorserConnectionId)
    ensures StrTruthy(endorserConnectionId) ==>
              p.schemaWaits == [EndorseWait(None)]
              && p.credDefWaits == [EndorseWait(Some(120)), EndorseWait(Some(60)), EndorseWait(Some(60)), EndorseWait(Some(60))]
    ensures !StrTruthy(endorserConnectionId) ==> p.schemaWaits == [] && p.credDefWaits == []
  {
    var endorsed := StrTruthy(endorserConnectionId);
    ArtifactPlan(
      AnoncredsSchemaPost(attributes, name, version, issuerId, endorserConnectionId),
      if endorsed then [EndorseWait(None)] else [],
      AnoncredsCredDefPost(issuerId, schemaId, tag, supportRevocation, revocationRegistrySize, endorserConnectionId),
      if endorsed then [EndorseWait(Some(120)), EndorseWait(Some(60)), EndorseWait(Some(60)), EndorseWait(Some(60))] else [])
  }

  /** The askar branch: the ledger endpoints and no waits. */
  function AskarPlan(attributes: seq<string>, name: string, version: string, tag: string,
                     supportRevocation: bool, revocationRegistrySize: Option<int>, schemaId: string): (p: ArtifactPlan)
    ensures p.schemaPost.url == "/schemas" && p.credDefPost.url == "/credential-definitions"
    ensures "schema_version" in p.schemaPost.body && p.schemaPost.body["schema_version"] == JString(version)
    ensures "revocation_registry_size" in p.credDefPost.body
            && p.credDefPost.body["revocation_registry_size"] == JInt(RegistrySize(revocationRegistrySize))
    ensures p.schemaWaits == [] && p.credDefWaits == []
  {
    ArtifactPlan(
      PostCall("/schemas", map[
        "schema_name" := JString(name), "schema_version" := JString(version), "attributes" := AttrNames(attributes)]),
      [],
      PostCall("/credential-definitions", map[
        "revocation_registry_size" := JInt(RegistrySize(revocationRegistrySize)),
        "schema_id" := JString(schemaId),
        "support_revocation" := JBool(supportRevocation),
        "tag" := JString(tag)]),
      [])
  }

  /** `indy_anoncred_credential_artifacts`. The schema id comes from the
      schema post's response, and the two `token_hex(8)` values are
      parameters. An askar-anoncreds wallet needs an `issuer_id`; the
      registry size defaults to 10 when missing or zero and the schema version
      to "1.0". */
  function CredentialArtifacts(wt: AcapyController.WalletType, attributes: seq<string>,
                               schemaName: Option<string>, schemaVersion: Option<string>, credDefTag: Option<string>,
                               supportRevocation: bool, revocationRegistrySize: Option<int>,
                               issuerId: Option<string>, endorserConnectionId: Option<string>,
                               schemaId: string, nameHex: string, tagHex: string): (r: Result<ArtifactPlan, Error>)
    ensures r.Failure? <==> AnoncredsWallet(wt).Failure? || (AnoncredsWallet(wt).value && issuerId.None?)
    ensures AnoncredsWallet(wt).Success? && AnoncredsWallet(wt).value && issuerId.None? ==>
              r == Failure(ControllerError(IssuerIdRequired))
    ensures r.Success? && AnoncredsWallet(wt).value ==>
              r == Success(AnoncredsPlan(attributes, OrElse(schemaName, "minimal-" + nameHex), OrElse(schemaVersion, DefaultSchemaVersion),
                                 OrElse(credDefTag, tagHex), supportRevocation, revocationRegistrySize,
                                 issuerId.value, endorserConnectionId, schemaId))
    ensures r.Success? && !AnoncredsWallet(wt).value ==>
              r == Success(AskarPlan(attributes, OrElse(schemaName, "minimal-" + nameHex), OrElse(schemaVersion, DefaultSchemaVersion),
                                     OrElse(credDefTag, tagHex), supportRevocation, revocationRegistrySize, schemaId))
  {
    var anoncreds :- AnoncredsWallet(wt);
    var name := OrElse(schemaName, "minimal-" + nameHex);
    var version := OrElse(schemaVersion, DefaultSchemaVersion);
    var tag := OrElse(credDefTag, tagHex);
    if anoncreds then
      if issuerId.None? then Failure(ControllerError(IssuerIdRequired))
      else Success(AnoncredsPlan(attributes, name, version, tag, supportRevocation, revocationRegistrySize,
                                 issuerId.value, endorserConnectionId, schemaId))
    else
      Success(AskarPlan(attributes, name, version, tag, supportRevocation, revocationRegistrySize, schemaId))
  }

  /** The registry size posted is the given one, or 10 when it is missing or
      zero, for either wallet kind; the schema version defaults to "1.0". */
  lemma ArtifactDefaults(wt: AcapyController.WalletType, attributes: seq<string>,
                         schemaName: Option<string>, schemaVersion: Option<string>, credDefTag: Option<string>,
                         supportRevocation: bool, size: Option<int>,
                         issuerId: Option<string>, endorser: Option<string>,
                         schemaId: string, nameHex: string, tagHex: string)
    requires CredentialArtifacts(wt, attributes, schemaName, schemaVersion, credDefTag, supportRevocation, size,
                                 issuerId, endorser, schemaId, nameHex, tagHex).Success?
    ensures var p := CredentialArtifacts(wt, attributes, schemaName, schemaVersion, credDefTag, supportRevocation, size,
                                         issuerId, endorser, schemaId, nameHex, tagHex).value;
            var expectedSize := JInt(if size.Some? && size.value != 0 then size.value else 10);
            var expectedVersion := JString(if StrTruthy(schemaVersion) then schemaVersion.value else "1.0");
            if AnoncredsWallet(wt).value then
              && p.credDefPost.body["options"].fields["revocation_registry_size"] == expectedSize
              && p.schemaPost.body["schema"].fields["version"] == expectedVersion
            else
              && p.credDefPost.body["revocation_registry_size"] == expectedSize
              && p.schemaPost.body["schema_version"] == expectedVersion
  {
  }

  /** With an endorser connection, an askar-anoncreds run waits once for the
      schema's endorsement (5 seconds) and four times for the credential
      definition's (120, 60, 60, 60 seconds); without one, or with an askar
      wallet, it never waits. */
  lemma EndorsementWaits(wt: AcapyController.WalletType, attributes: seq<string>,
                         schemaName: Option<string>, schemaVersion: Option<string>, credDefTag: Option<string>,
                         supportRevocation: bool, size: Option<int>,
                         issuerId: Option<string>, endorser: Option<string>,
                         schemaId: string, nameHex: string, tagHex: string)
    requires CredentialArtifacts(wt, attributes, schemaName, schemaVersion, credDefTag, supportRevocation, size,
                                 issuerId, endorser, schemaId, nameHex, tagHex).Success?
    ensures var p := CredentialArtifacts(wt, attributes, schemaName, schemaVersion, credDefTag, supportRevocation, size,
                                         issuerId, endorser, schemaId, nameHex, tagHex).value;
            if AnoncredsWallet(wt).value && StrTruthy(endorser) then
              && |p.schemaWaits| == 1 && p.schemaWaits[0].timeout == Correlation.Given(Some(5))
              && |p.credDefWaits| == 4
              && p.credDefWaits[0].timeout == Correlation.Given(Some(120))
              && forall i :: 1 <= i < 4 ==> p.credDefWaits[i].timeout == Correlation.Given(Some(60))
            else p.schemaWaits == [] && p.credDefWaits == []
  {
  }

  /* ---------- invitation id ---------- */

  /** `InvitationMessage` declares no field of its own. */
  const InvitationMessage := Minimal.RecordClass({}, map[])

  /** `InvitationMessage.id`: `self._extra["@id"]`. */
  function InvitationId(rec: Minimal.Record): (r: Result<Json, Error>)
    ensures r.Success? ==> "@id" in Minimal.IteratedKeys(rec) && r.value == Minimal.Serialize(rec)["@id"]
    ensures r.Failure? <==> "@id" !in rec.extra
    ensures r.Failure? ==> r.error == KeyError("@id")
  {
    Minimal.GetItem(rec, "@id")
  }

  /** Every key of an invitation lands in `_extra`, so the id is the input's
      `@id`, and a missing one raises KeyError. */
  lemma InvitationIdIsAtId(value: map<string, Json>)
    requires Minimal.ExtraField !in value
    ensures Minimal.Deserialized(InvitationMessage, value).Success?
    ensures "@id" in value ==> InvitationId(Minimal.Deserialized(InvitationMessage, value).value) == Success(value["@id"])
    ensures "@id" !in value ==> InvitationId(Minimal.Deserialized(InvitationMessage, value).value) == Failure(KeyError("@id"))
  {
    Minimal.GetItemReadsExtraOnly(InvitationMessage, value, "@id");
  }
}
