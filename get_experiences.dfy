/**
 * The serverless proxy that fetches one student's experiences from Airtable.
 * The guards are checked in order: the API token, the `student` parameter,
 * then the student's view. Only when all three pass is a request sent, and
 * the upstream reply (an input here) is relayed.
 */
module ExperiencesProxy {
  import opened Wrappers
  import opened JsStrings
  import opened Http

  /** The environment variables the function reads. */
  datatype Env = Env(airtableToken: Option<string>, baseId: Option<string>)

  /** The part of the invocation event the function reads. */
  datatype Event = Event(queryStringParameters: Option<map<string, string>>)

  const DefaultBaseId := "appDxcv3BlLT1jkCL"

  /** The view of each student, keyed by the lower-cased name. */
  const ViewNames: map<string, string> :=
    map["fiona" := "Fiona - Portfolio", "hope" := "Hope - Portfolio", "olivia" := "Olivia - Portfolio"]

  const TokenMissing := "API token not configured"
  const StudentMissing := "Student name required"
  const StudentInvalid := "Invalid student name"
  const FetchFailed := "Failed to fetch experiences"
  const StatusPrefix := "Airtable API error: "
  const AirtablePrefix := "https://api.airtable.com/v0/"

  /** The `student` query parameter; a missing parameter object reads as `{}`,
      so there is a student exactly when the parameters hold one. */
  function StudentParam(ev: Event): (student: Option<string>)
    ensures student.Some? <==> ev.queryStringParameters.Some? && "student" in ev.queryStringParameters.value
    ensures student.Some? ==> student.value == ev.queryStringParameters.value["student"]
  {
    match ev.queryStringParameters
    case None => None
    case Some(params) => if "student" in params then Some(params["student"]) else None
  }

  /** An event whose only query parameter is `student`. */
  function EventFor(student: string): (ev: Event)
    ensures StudentParam(ev) == Some(student)
  {
    Event(Some(map["student" := student]))
  }

  /** `BASE_ID`: the configured base, else the default one; never empty. */
  function BaseId(env: Env): (id: string)
    ensures id != ""
    ensures Truthy(env.baseId) ==> id == env.baseId.value
    ensures !Truthy(env.baseId) ==> id == DefaultBaseId
  {
    TextOr(Or(env.baseId, Some(DefaultBaseId)))
  }

  /** The lookup in the view table as evidently intended: restricted to the
      table's own entries. */
  function ViewForIntended(key: string): (view: Option<string>)
    ensures Truthy(view) <==> key in ViewNames
    ensures key in ViewNames ==> view == Some(ViewNames[key])
  {
    if key in ViewNames then Some(ViewNames[key]) else None
  }

  /** The lower-cased keys an object literal inherits from `Object.prototype`,
      with the string an inherited value becomes in the request URL. */
  const Inherited: map<string, string> :=
    map[ConstructorKey := "function Object() { [native code] }", ProtoKey := "[object Object]"]

  const ConstructorKey := "constructor"
  const ProtoKey := "__proto__"

  /** The lookup as written: an indexed read of an object literal, which also
      finds the members the literal inherits. */
  function ViewFor(key: string): (view: Option<string>)
    ensures Truthy(view) <==> key in ViewNames || key in Inherited
    ensures key in ViewNames ==> view == ViewForIntended(key)
    ensures key !in Inherited ==> view == ViewForIntended(key)
  {
    if key in ViewNames then Some(ViewNames[key])
    else if key in Inherited then Some(Inherited[key])
    else None
  }

  /** The request to Airtable, by its parts: the base, the view and the token. */
  datatype Request = Request(baseId: string, view: string, token: string)

  /** The part of a request's URL before the view: the base's Experiences table. */
  function UrlPrefix(baseId: string): string {
    AirtablePrefix + baseId + "/Experiences?view="
  }

  /** The URL of a request: the base's Experiences table, filtered by the view.
      The view is sent escaped, and an ASCII view reads back from the query. */
  function Url(r: Request): (u: string)
    ensures |UrlPrefix(r.baseId)| <= |u| && u[..|UrlPrefix(r.baseId)|] == UrlPrefix(r.baseId)
    ensures forall i :: |UrlPrefix(r.baseId)| <= i < |u| ==> IsUriUnreserved(u[i]) || u[i] == '%'
    ensures (forall i :: 0 <= i < |r.view| ==> r.view[i] as int < 0x80) ==>
      PercentDecode(u[|UrlPrefix(r.baseId)|..]) == r.view
  {
    var prefix, query := UrlPrefix(r.baseId), EncodeUriComponent(r.view);
    assert (prefix + query)[|prefix|..] == query;
    if forall i :: 0 <= i < |r.view| ==> r.view[i] as int < 0x80 then
      EncodeDecodeAscii(r.view);
      prefix + query
    else
      prefix + query
  }

  const BearerPrefix := "Bearer "

  /** The headers of a request: exactly the token as a bearer credential, from
      which it reads back, and the JSON content type. */
  function Headers(r: Request): (h: map<string, string>)
    ensures h.Keys == {"Authorization", "Content-Type"}
    ensures |BearerPrefix| <= |h["Authorization"]|
    ensures h["Authorization"][..|BearerPrefix|] == BearerPrefix && h["Authorization"][|BearerPrefix|..] == r.token
    ensures h["Content-Type"] == "application/json"
  {
    var auth := BearerPrefix + r.token;
    assert auth[|BearerPrefix|..] == r.token;
    map["Authorization" := auth, "Content-Type" := "application/json"]
  }

  const CorsHeaders: map<string, string> :=
    map["Content-Type" := "application/json", "Access-Control-Allow-Origin" := "*"]

  /** The JSON text of a reply body `response.json()` parsed, or the message of
      the parse error. */
  datatype Parsed = Document(data: string) | ParseError(message: string)

  /** What the `fetch` of Airtable yields: a rejection with its message, or a reply. */
  datatype Upstream = FetchError(message: string) | Reply(status: nat, json: Parsed)

  /** The response body before `JSON.stringify`. */
  datatype Body = Error(error: string) | Failure(error: string, message: string) | Data(data: string)

  datatype Response = Response(statusCode: nat, headers: map<string, string>, body: Body)

  /** The response, and the request sent to Airtable if one was. */
  datatype Outcome = Outcome(response: Response, request: Option<Request>)

  function Rejection(statusCode: nat, error: string): Outcome {
    Outcome(Response(statusCode, map[], Error(error)), None)
  }

  /** The `try` block and its `catch`: a successful reply is passed on with the
      CORS headers; a rejected fetch, a status outside 200 to 299 or a body
      that is not JSON gives 500 with the reason as its message. */
  function Relay(up: Upstream): (r: Response)
    ensures r.statusCode == 200 <==> up.Reply? && IsOk(up.status) && up.json.Document?
    ensures r.statusCode == 200 ==> r.headers == CorsHeaders && r.body == Data(up.json.data)
    ensures r.statusCode != 200 ==> r.statusCode == 500 && r.headers == map[] && r.body.Failure? && r.body.error == FetchFailed
    ensures up.FetchError? ==> r.body == Failure(FetchFailed, up.message)
    ensures up.Reply? && !IsOk(up.status) ==> r.body == Failure(FetchFailed, StatusPrefix + DecimalString(up.status))
    ensures up.Reply? && IsOk(up.status) && up.json.ParseError? ==> r.body == Failure(FetchFailed, up.json.message)
  {
    match up
    case FetchError(message) => Response(500, map[], Failure(FetchFailed, message))
    case Reply(status, json) =>
      if !IsOk(status) then Response(500, map[], Failure(FetchFailed, StatusPrefix + DecimalString(status)))
      else match json
        case ParseError(message) => Response(500, map[], Failure(FetchFailed, message))
        case Document(data) => Response(200, CorsHeaders, Data(data))
  }

  /** The handler with a given view lookup: the three guards in order, then the
      request and the relayed reply. */
  function HandleWith(views: string -> Option<string>, env: Env, ev: Event, up: Upstream): (o: Outcome)
    ensures o.request.Some? <==>
      Truthy(env.airtableToken) && Truthy(StudentParam(ev)) && Truthy(views(AsciiLower(StudentParam(ev).value)))
    ensures o.request.None? ==> o.response.headers == map[] && o.response.body.Error?
    ensures o.request.None? ==> (o.response.statusCode == 500 <==> !Truthy(env.airtableToken))
    ensures o.request.None? && Truthy(env.airtableToken) ==> o.response.statusCode == 400
    ensures o.request.Some? ==> o.response == Relay(up) && o.response.body.Error? == false
    ensures o.request.Some? ==>
      o.request.value == Request(BaseId(env), views(AsciiLower(StudentParam(ev).value)).value, env.airtableToken.value)
  {
    if !Truthy(env.airtableToken) then Rejection(500, TokenMissing)
    else if !Truthy(StudentParam(ev)) then Rejection(400, StudentMissing)
    else
      var view := views(AsciiLower(StudentParam(ev).value));
      if !Truthy(view) then Rejection(400, StudentInvalid)
      else
        var request := Request(BaseId(env), view.value, env.airtableToken.value);
        Outcome(Relay(up), Some(request))
  }

  /** `handler` as written: the lookup is an indexed read of the object literal,
      so a request is also sent for a name that lower-cases to an inherited key. */
  function Handler(env: Env, ev: Event, up: Upstream): (o: Outcome)
    ensures o.request.Some? <==>
      && Truthy(env.airtableToken)
      && Truthy(StudentParam(ev))
      && (AsciiLower(StudentParam(ev).value) in ViewNames || AsciiLower(StudentParam(ev).value) in Inherited)
  {
    HandleWith(ViewFor, env, ev, up)
  }

  /** `handler` as evidently intended, with the view lookup restricted to the
      table's own entries: a request is sent exactly for a token and one of the
      three student names. It answers as `Handler` does except on the inherited
      names, which it refuses. */
  function HandlerIntended(env: Env, ev: Event, up: Upstream): (o: Outcome)
    ensures o.request.Some? <==>
      Truthy(env.airtableToken) && Truthy(StudentParam(ev)) && AsciiLower(StudentParam(ev).value) in ViewNames
    ensures o.request.Some? || Handler(env, ev, up).request.None? ==> o == Handler(env, ev, up)
  {
    HandleWith(ViewForIntended, env, ev, up)
  }

  /** Of the event, the handler reads only the `student` parameter. */
  lemma StudentDecides(env: Env, ev: Event, other: Event, up: Upstream)
    requires StudentParam(ev) == StudentParam(other)
    ensures Handler(env, ev, up) == Handler(env, other, up)
    ensures HandlerIntended(env, ev, up) == HandlerIntended(env, other, up)
  {
  }

  /** Without a token the function answers 500 before it looks at the event. */
  lemma TokenCheckedFirst(env: Env, ev: Event, up: Upstream)
    requires !Truthy(env.airtableToken)
    ensures Handler(env, ev, up) == Rejection(500, TokenMissing)
  {
  }

  /** With a token but no (or an empty) `student` parameter: 400. */
  lemma StudentRequired(env: Env, ev: Event, up: Upstream)
    requires Truthy(env.airtableToken) && !Truthy(StudentParam(ev))
    ensures Handler(env, ev, up) == Rejection(400, StudentMissing)
  {
  }

  /** With a token and a name that is not one of the three students: 400, and
      as written only when the name does not lower-case to an inherited key. */
  lemma InvalidStudent(env: Env, ev: Event, student: string, up: Upstream)
    requires Truthy(env.airtableToken) && StudentParam(ev) == Some(student) && student != ""
    requires AsciiLower(student) !in ViewNames
    ensures HandlerIntended(env, ev, up) == Rejection(400, StudentInvalid)
    ensures AsciiLower(student) !in Inherited ==> Handler(env, ev, up) == Rejection(400, StudentInvalid)
  {
  }

  /** A rejected call sends nothing, so its answer does not depend on Airtable. */
  lemma RejectionIgnoresUpstream(env: Env, ev: Event, up: Upstream, other: Upstream)
    requires Handler(env, ev, up).request.None?
    ensures Handler(env, ev, up) == Handler(env, ev, other)
  {
  }

  /** With a token, a request is sent exactly for the three students, in any
      case, and as written also for the inherited names. */
  lemma AcceptedStudents(env: Env, ev: Event, student: string, up: Upstream)
    requires Truthy(env.airtableToken) && StudentParam(ev) == Some(student)
    ensures HandlerIntended(env, ev, up).request.Some? <==> AsciiLower(student) in ViewNames
    ensures Handler(env, ev, up).request.Some? <==> AsciiLower(student) in ViewNames || AsciiLower(student) in Inherited
  {
    assert |AsciiLower(student)| == |student|;
    assert "" !in ViewNames && "" !in Inherited;
  }

  /** The name's case does not matter: the lower-cased name is answered the same. */
  lemma {:induction false} StudentCaseInsensitive(env: Env, ev: Event, student: string, up: Upstream)
    requires StudentParam(ev) == Some(student)
    ensures Handler(env, ev, up) == Handler(env, EventFor(AsciiLower(student)), up)
  {
    LowerIdempotent(student);
    assert StudentParam(EventFor(AsciiLower(student))) == Some(AsciiLower(student));
    assert |AsciiLower(student)| == |student|;
  }

  /** The request for an accepted student: the configured (or default) base, the
      student's view, and the token as a bearer credential. */
  lemma OutboundRequest(env: Env, ev: Event, student: string, up: Upstream)
    requires Truthy(env.airtableToken) && StudentParam(ev) == Some(student) && AsciiLower(student) in ViewNames
    ensures var o := Handler(env, ev, up);
      && o.request == Some(Request(BaseId(env), ViewNames[AsciiLower(student)], env.airtableToken.value))
      && Url(o.request.value) == UrlPrefix(BaseId(env)) + EncodeUriComponent(ViewNames[AsciiLower(student)])
      && Headers(o.request.value)["Authorization"] == BearerPrefix + env.airtableToken.value
      && o.response == Relay(up)
  {
    assert |AsciiLower(student)| == |student|;
  }

  lemma EncodeSpace()
    ensures EncodeUriComponent(" ") == "%20"
  {
    assert Utf8Bytes(' ') == [32];
    assert PercentEncode([32]) == ['%', HexDigit(2), HexDigit(0)] + PercentEncode([]);
  }

  /** A space is sent as `%20`, and the text on either side is encoded on its own. */
  lemma EncodeAroundSpace(a: string, b: string)
    ensures EncodeUriComponent(a + " " + b) == EncodeUriComponent(a) + "%20" + EncodeUriComponent(b)
  {
    EncodeConcat(a + " ", b);
    EncodeConcat(a, " ");
    EncodeSpace();
  }

  /** The view parameter of each student's request decodes back to the view's name. */
  lemma ViewQueriesDecode()
    ensures forall key :: key in ViewNames ==> PercentDecode(EncodeUriComponent(ViewNames[key])) == ViewNames[key]
  {
    forall key | key in ViewNames
      ensures PercentDecode(EncodeUriComponent(ViewNames[key])) == ViewNames[key]
    {
      var view := ViewNames[key];
      assert forall i :: 0 <= i < |view| ==> view[i] as int < 0x80;
      EncodeDecodeAscii(view);
    }
  }

  /** A status outside 200 to 299 is reported in the message, in decimal, and
      can be read back from it. */
  lemma StatusInMessage(status: nat, json: Parsed)
    requires !IsOk(status)
    ensures var r := Relay(Reply(status, json));
      && r.statusCode == 500
      && r.body.Failure?
      && |r.body.message| > |StatusPrefix|
      && r.body.message[..|StatusPrefix|] == StatusPrefix
      && AllDigits(r.body.message[|StatusPrefix|..])
      && ParseDecimal(r.body.message[|StatusPrefix|..]) == status
  {
    var m := StatusPrefix + DecimalString(status);
    assert m[|StatusPrefix|..] == DecimalString(status);
    DecimalRoundTrip(status);
  }

  /** The two inherited keys have no capitals. */
  lemma InheritedKeysLowercase()
    ensures HasNoUpper(ConstructorKey) && HasNoUpper(ProtoKey)
  {
  }

  /** The inherited names are already lower case, so the guard's lower-casing
      leaves them as they are: the student `constructor` is such a name. */
  lemma InheritedLowercase(name: string)
    requires name in Inherited
    ensures AsciiLower(name) == name
  {
    assert name == ConstructorKey || name == ProtoKey;
    InheritedKeysLowercase();
    LowerOfLowercase(name);
  }

  /** As written, any name that lower-cases to `constructor` or `__proto__`
      passes the view guard, and a request for the inherited value is sent to
      Airtable. */
  lemma InheritedNamesReachAirtable(env: Env, ev: Event, student: string, up: Upstream)
    requires Truthy(env.airtableToken) && StudentParam(ev) == Some(student) && AsciiLower(student) in Inherited
    ensures var o := Handler(env, ev, up);
      && o.request == Some(Request(BaseId(env), Inherited[AsciiLower(student)], env.airtableToken.value))
      && o.response == Relay(up)
  {
    var key := AsciiLower(student);
    assert key == ConstructorKey || key == ProtoKey;
    assert key !in ViewNames;
    assert ViewFor(key) == Some(Inherited[key]);
    assert |key| == |student|;
    assert Truthy(StudentParam(ev));
  }

  /** With the table's own entries only, those names are refused. */
  lemma InheritedNamesRefused(env: Env, ev: Event, student: string, up: Upstream)
    requires Truthy(env.airtableToken) && StudentParam(ev) == Some(student) && AsciiLower(student) in Inherited
    ensures HandlerIntended(env, ev, up) == Rejection(400, StudentInvalid)
  {
    assert |AsciiLower(student)| == |student|;
  }
}
