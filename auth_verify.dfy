/** `POST /auth/verify`: check the phone, the code and the session the client sends, answer
    the custom challenge with Cognito, and return the tokens. The handler makes at most
    one Cognito request, so it is a function of the oracle's reply. */
module AuthVerify {
  import opened Wrappers
  import opened PyStr
  import opened Json
  import opened Py
  import opened Config
  import opened Phone
  import opened Resp
  import opened HttpRequest
  import opened Cognito

  /** The three fields read from the payload. */
  datatype VerifyInput = VerifyInput(phone: Option<string>, otp: string, session: Option<Json>)

  const PhoneFormatMessage := "phone must be in E.164 format"
  const OtpFormatMessage := "otp must be a 6-digit code"
  const SessionRequiredMessage := "session is required"

  /** `normalize(payload.get("phone"))`, `(payload.get("otp") or "").strip()` and
      `payload.get("session")`, in that order. */
  function ReadInput(payload: Json): (r: Result<VerifyInput, PyError>)
    ensures r.Ok? <==>
      (&& payload.JObject?
       && NormalizeValue(Lookup(payload.members, "phone")).Ok?
       && StripOrEmpty(Lookup(payload.members, "otp")).Ok?)
    ensures !payload.JObject? ==> r == Err(AttributeError)
    ensures r.Ok? ==> r.value == VerifyInput(
      NormalizeValue(Lookup(payload.members, "phone")).value,
      StripOrEmpty(Lookup(payload.members, "otp")).value,
      Lookup(payload.members, "session"))
  {
    // only a dict has `get`: the first read raises for anything else
    if !payload.JObject? then Err(AttributeError)
    else
      var phone :- NormalizeValue(Lookup(payload.members, "phone"));
      var otp :- StripOrEmpty(Lookup(payload.members, "otp"));
      Ok(VerifyInput(phone, otp, Lookup(payload.members, "session")))
  }

  /** `otp.isdigit() and len(otp) == 6` */
  predicate ValidOtp(otp: string) {
    otp != "" && AllDigits(otp) && |otp| == 6
  }

  /** The first validation that fails, checked in the order phone, code, session. */
  function InputError(input: VerifyInput): (r: Option<HttpResponse>)
    ensures r.None? <==>
      !Blank(input.phone) && ValidateE164(input.phone.value) && ValidOtp(input.otp) &&
      input.session.Some? && Truthy(input.session.value)
    ensures r.Some? ==> r.value.statusCode == 400
  {
    if Blank(input.phone) || !ValidateE164(input.phone.value) then Some(ErrorResponse(PhoneFormatMessage))
    else if !ValidOtp(input.otp) then Some(ErrorResponse(OtpFormatMessage))
    else if input.session.None? || !Truthy(input.session.value) then Some(ErrorResponse(SessionRequiredMessage))
    else None
  }

  /** The response for an exception from `admin_respond_to_auth_challenge`. */
  function ChallengeFaultResponse(f: Fault): (r: HttpResponse)
    ensures r.statusCode == 401 <==> f.NotAuthorized? || f.ExpiredCode? || f.CodeMismatch?
    ensures r.statusCode == 401 || r.statusCode == 502
  {
    match f
    case NotAuthorized => ErrorResponse("Invalid OTP or session expired", 401)
    case ExpiredCode => ErrorResponse("OTP expired", 401)
    case CodeMismatch => ErrorResponse("Invalid OTP", 401)
    case _ => ErrorResponse("Failed to verify authentication", 502)
  }

  /** `challenge_response.get("AuthenticationResult")` */
  function AuthenticationOf(r: Reply): seq<Member> {
    if r.AuthResult? then r.authenticationResult else []
  }

  /** What follows the reply to the challenge answer. */
  function ReplyResponse(reply: Reply): (r: HttpResponse)
    ensures reply.Failed? ==> r == ChallengeFaultResponse(reply.fault)
    ensures !reply.Failed? && AuthenticationOf(reply) == [] ==> r == ErrorResponse("Invalid authentication response", 401)
    ensures r.statusCode == 200 <==> !reply.Failed? && AuthenticationOf(reply) != []
    ensures r.statusCode == 200 ==> Loads(r.body) == Some(JObject(TokenBody(AuthenticationOf(reply))))
  {
    if reply.Failed? then ChallengeFaultResponse(reply.fault)
    else if AuthenticationOf(reply) == [] then ErrorResponse("Invalid authentication response", 401)
    else JsonResponse(Some(TokenBody(AuthenticationOf(reply))), 200)
  }

  /** `handler(event, context)` for a request body `body`. */
  function Handle(env: Env, body: Option<string>, cognito: Oracle): (r: Outcome)
    ensures ParseBody(body).None? ==> r == Outcome(Ok(ErrorResponse(InvalidJsonMessage)), [])
    ensures ParseBody(body).Some? ==> r == Answer(env, ParseBody(body).value, cognito)
    ensures |r.requests| <= 1
    ensures r.result.Ok? && r.result.value.statusCode == 200 ==> r.requests != []
  {
    match ParseBody(body)
    case None => Outcome(Ok(ErrorResponse(InvalidJsonMessage)), [])
    case Some(payload) => Answer(env, payload, cognito)
  }

  /** The handler from the decoded payload on. */
  function Answer(env: Env, payload: Json, cognito: Oracle): (r: Outcome)
    ensures |r.requests| <= 1
    ensures r.requests != [] ==>
      var q := r.requests[0];
      && q.AdminRespondToAuthChallenge?
      && ValidateE164(q.username) && ValidOtp(q.answer) && q.session != ""
      && RequireEnv(env, "USER_POOL_ID") == Ok(q.userPoolId)
      && RequireEnv(env, "USER_POOL_CLIENT_ID") == Ok(q.clientId)
      && r.result == Ok(ReplyResponse(cognito(q)))
    ensures r.result.Ok? && r.result.value.statusCode == 200 ==> r.requests != []
  {
    match ReadInput(payload)
    case Err(e) => Outcome(Err(e), [])
    case Ok(input) =>
      match InputError(input)
      case Some(response) => Outcome(Ok(response), [])
      case None =>
        match RequireEnv(env, "USER_POOL_ID")
        case Err(e) => Outcome(Err(e), [])
        case Ok(userPoolId) =>
          match RequireEnv(env, "USER_POOL_CLIENT_ID")
          case Err(e) => Outcome(Err(e), [])
          case Ok(clientId) =>
            if !input.session.value.JStr? then
              // botocore rejects a non-string Session before sending anything
              Outcome(Ok(ErrorResponse("Failed to verify authentication", 502)), [])
            else
              var q := AdminRespondToAuthChallenge(userPoolId, clientId, input.phone.value, input.otp,
                                                   input.session.value.s);
              Outcome(Ok(ReplyResponse(cognito(q))), [q])
  }

  /** Validation comes before anything else, in the order phone, code, session: the first
      failing check decides the 400 response and no request is sent. */
  lemma {:induction false} ValidationFirst(env: Env, payload: Json, cognito: Oracle, input: VerifyInput)
    requires ReadInput(payload) == Ok(input)
    requires InputError(input).Some?
    ensures Answer(env, payload, cognito) == Outcome(Ok(InputError(input).value), [])
    ensures Blank(input.phone) || !ValidateE164(input.phone.value) ==>
      ErrorMessage(Answer(env, payload, cognito).result.value) == Some(JStr(PhoneFormatMessage))
    ensures !Blank(input.phone) && ValidateE164(input.phone.value) && !ValidOtp(input.otp) ==>
      ErrorMessage(Answer(env, payload, cognito).result.value) == Some(JStr(OtpFormatMessage))
  {
    if Blank(input.phone) || !ValidateE164(input.phone.value) {
      ErrorMessageOf(PhoneFormatMessage, 400);
    } else if !ValidOtp(input.otp) {
      ErrorMessageOf(OtpFormatMessage, 400);
    }
  }

  /** With valid input and configuration, the one request answers the challenge with the
      trimmed phone and code, and the reply alone decides the response. */
  lemma {:induction false} ValidInputAnswersChallenge(env: Env, payload: Json, cognito: Oracle, input: VerifyInput, session: string)
    requires ReadInput(payload) == Ok(input)
    requires InputError(input).None? && input.session == Some(JStr(session))
    requires RequireEnv(env, "USER_POOL_ID").Ok? && RequireEnv(env, "USER_POOL_CLIENT_ID").Ok?
    ensures var q := AdminRespondToAuthChallenge(env["USER_POOL_ID"], env["USER_POOL_CLIENT_ID"],
                                                 input.phone.value, input.otp, session);
      Answer(env, payload, cognito) == Outcome(Ok(ReplyResponse(cognito(q))), [q])
  {
  }

  /** A missing pool or client id raises `RuntimeError` once the input is valid. */
  lemma {:induction false} MissingConfigurationRaises(env: Env, payload: Json, cognito: Oracle, input: VerifyInput)
    requires ReadInput(payload) == Ok(input)
    requires InputError(input).None?
    requires RequireEnv(env, "USER_POOL_ID").Err? || RequireEnv(env, "USER_POOL_CLIENT_ID").Err?
    ensures Answer(env, payload, cognito).result.Err? && Answer(env, payload, cognito).requests == []
    ensures Answer(env, payload, cognito).result.error.RuntimeError?
  {
  }
}
