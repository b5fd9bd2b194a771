/** The AI analysis of one request/response pair: the missing-key guard, the
    prompt with its truncated response body, and the mapping of every failure
    of the vendor call or of parsing its reply to a fixed fallback value.
    The vendor call, JSON.stringify and JSON.parse are parameters. */
module Analysis {
  import opened Wrappers
  import opened Transaction

  /** How many characters of the serialised response body reach the prompt. */
  const MaxBodyChars: nat := 5000

  /** The values interpolated into the prompt template, slot by slot. The
      headers slot holds the list that the template serialises as JSON. */
  datatype Prompt = Prompt(
    httpMethod: string,
    url: string,
    headers: seq<KV>,
    requestBody: string,
    statusCode: int,
    statusText: string,
    time: int,
    size: int,
    responseBody: string)

  /** What the vendor call produced: a rejection, or a reply whose text may be
      absent. */
  datatype AiReply = CallFailed | Replied(text: Option<string>)

  /** Why the call to the vendor produced no usable value; each of these is
      caught and replaced by the fallback. */
  datatype AnalysisFailure = CallRejected | NoText | InvalidJson

  /** Why the analysis itself rejects: no key, or a response body that
      JSON.stringify turns into no string (it then throws, or yields
      undefined and the following substring throws). */
  datatype AnalysisError = MissingApiKey | BodyNotSerialisable

  /** The value returned whenever the vendor call or the parsing fails. */
  const Fallback: Value := Object([
    ("documentation", Str("Failed to generate documentation.")),
    ("improvements", Array([Str("Could not analyze request.")])),
    ("security", Array([])),
    ("schemaUpdates", Str("N/A")),
    ("codeSnippet", Str("// Error generating snippet"))])

  /** The value of member `name` of an object, if it has one. */
  function MemberOf(v: Value, name: string): Option<Value>
  {
    if !v.Object? then None else Lookup(v.members, name)
  }

  function Lookup(members: seq<(string, Value)>, name: string): Option<Value>
  {
    if members == [] then None
    else if members[0].0 == name then Some(members[0].1)
    else Lookup(members[1..], name)
  }

  /** The fallback carries the five suggestion fields with their fixed values. */
  lemma FallbackFields()
    ensures MemberOf(Fallback, "documentation") == Some(Str("Failed to generate documentation."))
    ensures MemberOf(Fallback, "improvements") == Some(Array([Str("Could not analyze request.")]))
    ensures MemberOf(Fallback, "security") == Some(Array([]))
    ensures MemberOf(Fallback, "schemaUpdates") == Some(Str("N/A"))
    ensures MemberOf(Fallback, "codeSnippet") == Some(Str("// Error generating snippet"))
  {
  }

  /** The first `n` characters of `s`, or all of `s` when it is shorter. */
  function Truncate(s: string, n: nat): (r: string)
    ensures r <= s
    ensures |r| == if |s| <= n then |s| else n
  {
    if |s| <= n then s else s[..n]
  }

  /** The prompt for a transaction, given the serialised response body. */
  function BuildPrompt(request: ApiRequest, response: ApiResponse, serialisedBody: string): (p: Prompt)
    ensures p.responseBody <= serialisedBody && |p.responseBody| <= MaxBodyChars
    ensures |serialisedBody| <= MaxBodyChars ==> p.responseBody == serialisedBody
    ensures |serialisedBody| >= MaxBodyChars ==> |p.responseBody| == MaxBodyChars
    ensures p.httpMethod == request.httpMethod && p.url == request.url
    ensures p.headers == request.headers && p.requestBody == request.body
    ensures p.statusCode == response.statusCode && p.statusText == response.statusText
    ensures p.time == response.time && p.size == response.size
  {
    Prompt(
      request.httpMethod,
      request.url,
      request.headers,
      request.body,
      response.statusCode,
      response.statusText,
      response.time,
      response.size,
      Truncate(serialisedBody, MaxBodyChars))
  }

  /** The prompt depends on the request only through its method, URL, headers
      and body (not its identifier, parameters or timestamp), on the response
      only through its status code and text, time and size, and on the
      serialised body only through its first MaxBodyChars characters. */
  lemma PromptDeterminedBySlots(
    req1: ApiRequest, resp1: ApiResponse, body1: string,
    req2: ApiRequest, resp2: ApiResponse, body2: string)
    requires req1.httpMethod == req2.httpMethod && req1.url == req2.url
    requires req1.headers == req2.headers && req1.body == req2.body
    requires resp1.statusCode == resp2.statusCode && resp1.statusText == resp2.statusText
    requires resp1.time == resp2.time && resp1.size == resp2.size
    requires Truncate(body1, MaxBodyChars) == Truncate(body2, MaxBodyChars)
    ensures BuildPrompt(req1, resp1, body1) == BuildPrompt(req2, resp2, body2)
  {
  }

  /** The guarded part of the analysis: the reply must carry non-empty text
      that parses; the parsed value is taken as it is, with no check that it
      has the five suggestion fields. */
  function Attempt(reply: AiReply, parse: string -> Option<Value>): (r: Result<Value, AnalysisFailure>)
    ensures r == Err(CallRejected) <==> reply.CallFailed?
    ensures r == Err(NoText) <==> reply.Replied? && (reply.text.None? || reply.text.value == "")
    ensures r.Ok? <==>
      (reply.Replied? && reply.text.Some? && reply.text.value != "" && parse(reply.text.value).Some?)
    ensures r.Ok? ==> parse(reply.text.value) == Some(r.value)
  {
    match reply
    case CallFailed => Err(CallRejected)
    case Replied(text) =>
      if text.None? || text.value == "" then Err(NoText)
      else
        match parse(text.value)
        case None => Err(InvalidJson)
        case Some(v) => Ok(v)
  }

  /** The value of an attempt with every failure replaced by the fallback. */
  function Recover(attempt: Result<Value, AnalysisFailure>): (v: Value)
    ensures attempt.Ok? ==> v == attempt.value
    ensures attempt.Err? ==> v == Fallback
  {
    match attempt
    case Ok(v) => v
    case Err(_) => Fallback
  }

  /** The whole analysis. An empty key rejects before anything else happens;
      a body that does not serialise rejects next; otherwise the prompt is
      sent and the reply is parsed, and every failure there yields the
      fallback value. */
  function Analyze(
    request: ApiRequest,
    response: ApiResponse,
    apiKey: string,
    stringify: Value -> Option<string>,
    generate: Prompt -> AiReply,
    parse: string -> Option<Value>): (r: Result<Value, AnalysisError>)
    ensures r == Err(MissingApiKey) <==> apiKey == ""
    ensures r == Err(BodyNotSerialisable) <==> apiKey != "" && stringify(response.data).None?
    ensures r.Ok? <==> apiKey != "" && stringify(response.data).Some?
  {
    if apiKey == "" then Err(MissingApiKey)
    else
      match stringify(response.data)
      case None => Err(BodyNotSerialisable)
      case Some(serialised) =>
        Ok(Recover(Attempt(generate(BuildPrompt(request, response, serialised)), parse)))
  }

  /** With an empty key the outcome does not depend on the serialiser, the
      vendor call or the parser: none of them is consulted. */
  lemma MissingKeyConsultsNothing(
    request: ApiRequest, response: ApiResponse,
    stringify1: Value -> Option<string>, generate1: Prompt -> AiReply, parse1: string -> Option<Value>,
    stringify2: Value -> Option<string>, generate2: Prompt -> AiReply, parse2: string -> Option<Value>)
    ensures Analyze(request, response, "", stringify1, generate1, parse1) ==
            Analyze(request, response, "", stringify2, generate2, parse2)
  {
  }

  /** With a key and a serialisable body the result is the fallback exactly
      when the call failed, its text was absent or empty, the text did not
      parse, or it parsed to a value equal to the fallback. */
  lemma FallbackExactlyOnFailure(
    request: ApiRequest, response: ApiResponse, apiKey: string,
    stringify: Value -> Option<string>, generate: Prompt -> AiReply, parse: string -> Option<Value>)
    requires apiKey != "" && stringify(response.data).Some?
    ensures
      var reply := generate(BuildPrompt(request, response, stringify(response.data).value));
      Analyze(request, response, apiKey, stringify, generate, parse) == Ok(Fallback) <==>
        reply.CallFailed? || reply.text.None? || reply.text.value == "" ||
        parse(reply.text.value) in {None, Some(Fallback)}
  {
  }

  /** A reply whose text parses yields the parsed value itself, even one that
      lacks the suggestion fields, such as an empty object. */
  lemma ParsedValuePassesThrough(
    request: ApiRequest, response: ApiResponse, apiKey: string,
    stringify: Value -> Option<string>, generate: Prompt -> AiReply, parse: string -> Option<Value>,
    text: string, v: Value)
    requires apiKey != "" && stringify(response.data).Some?
    requires generate(BuildPrompt(request, response, stringify(response.data).value)) == Replied(Some(text))
    requires text != "" && parse(text) == Some(v)
    ensures Analyze(request, response, apiKey, stringify, generate, parse) == Ok(v)
  {
  }

  /** The analysis sees the response body only through the first
      MaxBodyChars characters of its serialisation. */
  lemma AnalyzeIgnoresBodyTail(
    request: ApiRequest, response1: ApiResponse, response2: ApiResponse, apiKey: string,
    stringify: Value -> Option<string>, generate: Prompt -> AiReply, parse: string -> Option<Value>)
    requires response1.(data := Null) == response2.(data := Null)
    requires stringify(response1.data).Some? && stringify(response2.data).Some?
    requires Truncate(stringify(response1.data).value, MaxBodyChars) ==
             Truncate(stringify(response2.data).value, MaxBodyChars)
    ensures Analyze(request, response1, apiKey, stringify, generate, parse) ==
            Analyze(request, response2, apiKey, stringify, generate, parse)
  {
    if apiKey != "" {
      PromptDeterminedBySlots(
        request, response1, stringify(response1.data).value,
        request, response2, stringify(response2.data).value);
    }
  }
}
