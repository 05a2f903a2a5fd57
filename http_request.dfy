/** The steps every HTTP handler takes on the API Gateway event before validating it:
    decode the body, read fields of the payload, trim them. */
module HttpRequest {
  import opened Wrappers
  import opened PyStr
  import opened Json
  import opened Py
  import opened Resp

  const InvalidJsonMessage := "Invalid JSON payload"

  /** `json.loads(event.get("body") or "{}")`; `None` is a `JSONDecodeError`. */
  function ParseBody(body: Option<string>): (r: Option<Json>)
    ensures body.None? || body == Some("") ==> r == Some(JObject([]))
    ensures body.Some? && body.value != "" ==> r == Loads(body.value)
  {
    if body.None? || body.value == "" then
      assert Loads("{}") == Some(JObject([])) by {
        assert SkipWs("{}") == "{}";
        assert "{}"[1..] == "}";
        assert SkipWs("}") == "}";
        assert "}"[1..] == [];
      }
      Some(JObject([]))
    else Loads(body.value)
  }

  /** `payload.get(key)`: only a dict has `get`, anything else raises `AttributeError`. */
  function PayloadGet(payload: Json, key: string): (r: Result<Option<Json>, PyError>)
    ensures r.Ok? <==> payload.JObject?
    ensures r.Ok? ==> r.value == Lookup(payload.members, key)
    ensures r.Err? ==> r.error == AttributeError
  {
    if payload.JObject? then Ok(Lookup(payload.members, key)) else Err(AttributeError)
  }

  /** `normalize(v)` on a decoded value: `None` (a missing key or JSON `null`) stays
      `None`, a string is trimmed, and any other value has no `strip`. */
  function NormalizeValue(v: Option<Json>): (r: Result<Option<string>, PyError>)
    ensures v.None? || v == Some(JNull) ==> r == Ok(None)
    ensures v.Some? && v.value.JStr? ==> r == Ok(Some(Strip(v.value.s)))
    ensures r.Err? <==> v.Some? && !v.value.JNull? && !v.value.JStr?
    ensures r.Err? ==> r.error == AttributeError
  {
    match v
    case None => Ok(None)
    case Some(JNull) => Ok(None)
    case Some(JStr(s)) => Ok(Some(Strip(s)))
    case Some(_) => Err(AttributeError)
  }

  /** How a handler leaves its input checks: with a response, with an exception, or with
      the checked input to go on with. */
  datatype Checked = Respond(response: HttpResponse) | Raise(error: PyError) | Proceed(input: string)

  /** `not x` for an optional string. */
  predicate Blank(s: Option<string>) {
    s.None? || s.value == ""
  }
}
