/** The loader and the proxy together: the query the loader sends. */
module EndToEnd {
  import opened Wrappers
  import opened JsStrings
  import opened PortfolioLoader
  import opened ExperiencesProxy

  /** The `student` value in the loader's request path. */
  function SentStudent(studentName: string): (student: string)
    ensures student == AsciiLower(studentName)
  {
    var path := RequestPath(studentName);
    var query := path[|ProxyPath|..];
    assert forall i :: 0 <= i < |studentName| ==> query[i] == AsciiLower(studentName)[i];
    query
  }

  /** A loader configured with any capitalisation of one of the three names asks
      for a name the proxy accepts, and the proxy then fetches that student's view. */
  lemma LoaderQueryAccepted(env: Env, studentName: string, up: Upstream)
    requires Truthy(env.airtableToken) && AsciiLower(studentName) in ViewNames
    ensures var o := Handler(env, EventFor(SentStudent(studentName)), up);
      && o.request.Some?
      && o.request.value == Request(BaseId(env), ViewNames[AsciiLower(studentName)], env.airtableToken.value)
  {
    var sent := SentStudent(studentName);
    LowerIdempotent(studentName);
    OutboundRequest(env, EventFor(sent), sent, up);
  }
}
