/** The value shapes that the screens and the analysis service exchange: a
    request, a response, a history entry and the untyped values that a
    response body or a parsed AI reply may hold. Their declarations live in a
    types module that is not part of this model; the fields here are the ones
    the modelled code reads. */
module Transaction {
  import opened Wrappers

  /** One header or query-parameter row of the request form. */
  datatype KV = KV(key: string, value: string)

  /** An arbitrary JavaScript value as it can appear as a response body or as
      the result of parsing the AI reply. Object members keep their order. */
  datatype Value =
    | Undefined
    | Null
    | Bool(b: bool)
    | Number(n: real)
    | Str(s: string)
    | Array(elems: seq<Value>)
    | Object(members: seq<(string, Value)>)

  /** A finalised request as handed to the transport and stored in history. */
  datatype ApiRequest = ApiRequest(
    id: string,
    url: string,
    httpMethod: string,
    headers: seq<KV>,
    params: seq<KV>,
    body: string,
    timestamp: int)

  /** A response; `time` is in milliseconds and `size` in bytes. */
  datatype ApiResponse = ApiResponse(
    statusCode: int,
    statusText: string,
    time: int,
    size: int,
    data: Value)

  /** A history entry; the response is absent when the request never got one. */
  datatype HistoryItem = HistoryItem(
    request: ApiRequest,
    response: Option<ApiResponse>,
    timestamp: int)
}
