/** The API Gateway proxy response that every HTTP handler returns: a status code,
    headers, and a body holding the JSON text of the payload. */
module Resp {
  import opened Wrappers
  import opened Json
  import opened JsonRoundTrip

  datatype HttpResponse = HttpResponse(statusCode: int, headers: map<string, string>, body: string)

  /** `_DEFAULT_HEADERS` */
  const DefaultHeaders: map<string, string> := map["Content-Type" := "application/json"]

  /** `json_response(payload, status_code=..., headers=...)`: the body is `""` for no
      payload and `json.dumps(payload)` otherwise; the headers are a copy of the
      defaults updated with the caller's headers. */
  function JsonResponse(payload: Option<seq<Member>>, statusCode: int := 200,
                        headers: map<string, string> := map[]): (r: HttpResponse)
    ensures r.statusCode == statusCode
    ensures payload.None? ==> r.body == ""
    ensures payload.Some? ==> r.body == Dumps(JObject(payload.value))
    ensures payload.Some? ==> Loads(r.body) == Some(JObject(payload.value))
    ensures r.headers.Keys == DefaultHeaders.Keys + headers.Keys
    ensures forall k | k in headers :: r.headers[k] == headers[k]
    ensures "Content-Type" !in headers ==> r.headers["Content-Type"] == "application/json"
  {
    var body := if payload.None? then "" else Dumps(JObject(payload.value));
    LoadsDumps(JObject(payload.GetOr([])));
    var merged := if headers != map[] then DefaultHeaders + headers else DefaultHeaders;
    HttpResponse(statusCode, merged, body)
  }

  /** `error_response(message, status_code=...)`: the payload `{"error": message}`. */
  function ErrorResponse(message: string, statusCode: int := 400): (r: HttpResponse)
    ensures r == JsonResponse(Some([Member("error", JStr(message))]), statusCode)
    ensures r.statusCode == statusCode && r.headers == DefaultHeaders
    ensures Loads(r.body) == Some(JObject([Member("error", JStr(message))]))
  {
    JsonResponse(Some([Member("error", JStr(message))]), statusCode)
  }

  /** The message an error response carries, read back from its body. */
  function ErrorMessage(r: HttpResponse): Option<Json> {
    match Loads(r.body)
    case Some(v) => Get(v, "error")
    case None => None
  }

  /** An error response's body decodes to its message. */
  lemma {:induction false} ErrorMessageOf(message: string, statusCode: int)
    ensures ErrorMessage(ErrorResponse(message, statusCode)) == Some(JStr(message))
  {
  }
}
