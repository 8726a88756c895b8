/** The shape of the HTTP requests the controllers send: header merging, the
    logged-header filter and the empty-body rule of POST and PUT. The
    transport itself is not modelled; a request is the value handed to it. */
module Http {
  import opened Wrappers
  import opened Json

  datatype HttpRequest = HttpRequest(
    verb: string,
    url: string,
    params: Option<map<string, Json>>,
    headers: Option<map<string, string>>,  /* per-call headers, None when the call passes none */
    data: Option<seq<bv8>>,
    json: Option<map<string, Json>>)

  /** Raw bytes are truthy when present and non-empty. */
  predicate DataTruthy(data: Option<seq<bv8>>) {
    data.Some? && data.value != []
  }

  /** `headers = dict(headers or {}); headers.update(self.headers)`. */
  function MergeHeaders(call: Option<map<string, string>>, own: map<string, string>): (r: map<string, string>)
    ensures r.Keys == own.Keys + (if call.Some? then call.value.Keys else {})
    ensures forall k :: k in own ==> r[k] == own[k]
    ensures forall k :: k in r && k !in own ==> call.Some? && r[k] == call.value[k]
  {
    call.GetOr(map[]) + own
  }

  /** ASCII `str.lower`. */
  function Lower(s: string): (r: string)
    ensures |r| == |s|
    ensures forall i :: 0 <= i < |s| ==> r[i] == LowerChar(s[i])
  {
    if s == [] then [] else [LowerChar(s[0])] + Lower(s[1..])
  }

  function LowerChar(c: char): char {
    if 'A' <= c <= 'Z' then (c as int + 32) as char else c
  }

  const ExcludedHeaders: set<string> :=
    {"host", "accept", "accept-encoding", "user-agent", "content-length", "content-type"}

  /** `_header_filter`: the headers whose lower-cased name is none of the six
      excluded ones, with their values. */
  function HeaderFilter(headers: map<string, string>): (r: map<string, string>)
    ensures forall k :: k in r ==> k in headers && r[k] == headers[k]
    ensures forall k :: k in headers && Lower(k) !in ExcludedHeaders ==> k in r
    ensures forall k :: k in r ==> Lower(k) !in ExcludedHeaders
  {
    map k | k in headers && Lower(k) !in ExcludedHeaders :: headers[k]
  }

  /** A header is kept iff its name, in any letter case, is not excluded; two
      names that differ only in case are kept or dropped together. */
  lemma HeaderFilterCaseInsensitive(headers: map<string, string>, a: string, b: string)
    requires a in headers && b in headers && Lower(a) == Lower(b)
    ensures a in HeaderFilter(headers) <==> Lower(a) !in ExcludedHeaders
    ensures a in HeaderFilter(headers) <==> b in HeaderFilter(headers)
  {
  }

  /** Filtering twice is filtering once. */
  lemma HeaderFilterIdempotent(headers: map<string, string>)
    ensures HeaderFilter(HeaderFilter(headers)) == HeaderFilter(headers)
  {
  }

  /** The POST/PUT body in acapy_controller's `request`:
      `if not data and json_ is None: json_ = {}`. */
  function AcapyBody(data: Option<seq<bv8>>, json_: Option<map<string, Json>>): (r: Option<map<string, Json>>)
    ensures !DataTruthy(data) && json_.None? ==> r == Some(map[])
    ensures DataTruthy(data) || json_.Some? ==> r == json_
  {
    if !DataTruthy(data) && json_.None? then Some(map[]) else json_
  }

  /** The POST/PUT body in controller/controller.py:
      `if not data and not json_: json_ = {}`. */
  function LegacyBody(data: Option<seq<bv8>>, json_: Option<map<string, Json>>): (r: Option<map<string, Json>>)
    ensures !DataTruthy(data) && (json_.None? || json_.value == map[]) ==> r == Some(map[])
    ensures DataTruthy(data) || (json_.Some? && json_.value != map[]) ==> r == json_
  {
    if !DataTruthy(data) && !(json_.Some? && Truthy(JObject(json_.value))) then Some(map[]) else json_
  }

  /** On dict bodies the two tests agree: only `None` and `{}` are falsy,
      and `{}` is replaced by itself. */
  lemma BodyRulesAgree(data: Option<seq<bv8>>, json_: Option<map<string, Json>>)
    ensures AcapyBody(data, json_) == LegacyBody(data, json_)
  {
    if json_.Some? && json_.value == map[] {
      assert !Truthy(JObject(json_.value));
    }
  }
}
