/** `POST /auth/start`: make sure a confirmed Cognito user with a verified phone number
    exists for the phone the client sends, start the custom authentication flow, and
    return the session (and, in development, the code). */
module AuthStart {
  import opened Wrappers
  import opened Json
  import opened Py
  import opened Config
  import opened Phone
  import opened Resp
  import opened HttpRequest
  import opened Cognito
  import opened TriggerEvent

  const PhoneRequiredMessage := "phone is required"
  const PhoneFormatMessage := "phone must be in E.164 format"
  const StartFailedMessage := "Failed to start authentication"
  const UnexpectedResponseMessage := "Unexpected authentication response"
  const Unconfirmed := "UNCONFIRMED"

  /** `{"Name": "phone_number", "Value": phone}` */
  function PhoneNumber(phone: string): Attr {
    Attr("phone_number", JStr(phone))
  }

  /** `{"Name": "phone_number_verified", "Value": "true"}` */
  const PhoneVerified := Attr("phone_number_verified", JStr("true"))

  /** The attributes a newly signed-up user is given once confirmed. */
  function NewUserAttributes(phone: string): seq<Attr> {
    [PhoneNumber(phone), PhoneVerified]
  }

  /** `updates` for an existing user with stored attributes `stored`. */
  function PhoneUpdates(stored: seq<Attr>, phone: string): (r: seq<Attr>)
    ensures PhoneNumber(phone) in r <==> StoredValue(stored, "phone_number") != Some(JStr(phone))
    ensures PhoneVerified in r <==> StoredValue(stored, "phone_number_verified") != Some(JStr("true"))
    ensures forall a | a in r :: a == PhoneNumber(phone) || a == PhoneVerified
    ensures r == [] <==>
      StoredValue(stored, "phone_number") == Some(JStr(phone)) &&
      StoredValue(stored, "phone_number_verified") == Some(JStr("true"))
    ensures |r| == 2 ==> r == NewUserAttributes(phone)
  {
    (if StoredValue(stored, "phone_number") != Some(JStr(phone)) then [PhoneNumber(phone)] else []) +
    (if StoredValue(stored, "phone_number_verified") != Some(JStr("true")) then [PhoneVerified] else [])
  }

  /** The requests `_ensure_user` sends when every reply is `reply`'s, and the exception it
      lets escape. */
  function Provision(reply: Oracle, userPoolId: string, clientId: string, phone: string): (r: Calls)
    ensures r.requests != [] && r.requests[0] == AdminGetUser(userPoolId, phone)
    ensures forall i | 0 <= i < |r.requests| :: UsernameOf(r.requests[i]) == phone
    ensures r.fault.Some? ==> r.fault == FaultOf(reply(r.requests[|r.requests| - 1]))
  {
    var get := AdminGetUser(userPoolId, phone);
    var user := reply(get);
    var confirm := AdminConfirmSignUp(userPoolId, phone);
    if user == Failed(UserNotFound) then
      var signUp := SignUp(clientId, phone, [PhoneNumber(phone)]);
      if reply(signUp).Failed? && reply(signUp).fault != UsernameExists then
        Calls([get, signUp], Some(reply(signUp).fault))
      else if reply(confirm).Failed? then
        Calls([get, signUp, confirm], Some(reply(confirm).fault))
      else
        var update := AdminUpdateUserAttributes(userPoolId, phone, NewUserAttributes(phone));
        Calls([get, signUp, confirm, update], FaultOf(reply(update)))
    else if user.Failed? then
      Calls([get], Some(user.fault))
    else
      var updates := PhoneUpdates(UserAttributesOf(user), phone);
      var update := AdminUpdateUserAttributes(userPoolId, phone, updates);
      if updates != [] && reply(update).Failed? then
        Calls([get, update], Some(reply(update).fault))
      else
        var updated := if updates == [] then [get] else [get, update];
        if UserStatusOf(user) == Some(Unconfirmed) then
          Calls(updated + [confirm], FaultOf(reply(confirm)))
        else
          Calls(updated, None)
  }

  /** `_ensure_user(client, user_pool_id, client_id, phone)`; the exception it raises is
      returned. */
  method EnsureUser(client: Client, userPoolId: string, clientId: string, phone: string)
    returns (fault: Option<Fault>)
    modifies client
    ensures client.requests == old(client.requests) + Provision(client.reply, userPoolId, clientId, phone).requests
    ensures fault == Provision(client.reply, userPoolId, clientId, phone).fault
  {
    var user := client.Send(AdminGetUser(userPoolId, phone));
    if user == Failed(UserNotFound) {
      var signUp := client.Send(SignUp(clientId, phone, [PhoneNumber(phone)]));
      if signUp.Failed? && signUp.fault != UsernameExists {
        return Some(signUp.fault);
      }
      var confirmed := client.Send(AdminConfirmSignUp(userPoolId, phone));
      if confirmed.Failed? {
        return Some(confirmed.fault);
      }
      var updated := client.Send(AdminUpdateUserAttributes(userPoolId, phone, NewUserAttributes(phone)));
      return FaultOf(updated);
    } else if user.Failed? {
      return Some(user.fault);
    }

    var attributes := UserAttributesOf(user);
    var updates: seq<Attr> := [];
    if StoredValue(attributes, "phone_number") != Some(JStr(phone)) {
      updates := updates + [PhoneNumber(phone)];
    }
    if StoredValue(attributes, "phone_number_verified") != Some(JStr("true")) {
      updates := updates + [PhoneVerified];
    }
    assert updates == PhoneUpdates(attributes, phone);
    if updates != [] {
      var updated := client.Send(AdminUpdateUserAttributes(userPoolId, phone, updates));
      if updated.Failed? {
        return Some(updated.fault);
      }
    }

    if UserStatusOf(user) == Some(Unconfirmed) {
      var confirmed := client.Send(AdminConfirmSignUp(userPoolId, phone));
      return FaultOf(confirmed);
    }
    return None;
  }

  /** An unknown user is signed up with their phone number (an existing username is
      tolerated), confirmed, and given the phone number marked verified. */
  lemma {:induction false} UnknownUserIsCreated(reply: Oracle, userPoolId: string, clientId: string, phone: string)
    requires reply(AdminGetUser(userPoolId, phone)) == Failed(UserNotFound)
    requires var s := reply(SignUp(clientId, phone, [PhoneNumber(phone)])); !s.Failed? || s.fault == UsernameExists
    requires !reply(AdminConfirmSignUp(userPoolId, phone)).Failed?
    ensures Provision(reply, userPoolId, clientId, phone) == Calls(
      [AdminGetUser(userPoolId, phone),
       SignUp(clientId, phone, [PhoneNumber(phone)]),
       AdminConfirmSignUp(userPoolId, phone),
       AdminUpdateUserAttributes(userPoolId, phone, NewUserAttributes(phone))],
      FaultOf(reply(AdminUpdateUserAttributes(userPoolId, phone, NewUserAttributes(phone)))))
  {
  }

  /** For an existing user whose requests all succeed, an update is sent exactly when the
      stored phone number or its verified flag is out of date, it carries only what is out
      of date, and a confirmation follows exactly when the user is unconfirmed. */
  lemma {:induction false} ExistingUserIsBroughtUpToDate(reply: Oracle, userPoolId: string, clientId: string, phone: string,
                                      stored: seq<Attr>, status: Option<string>)
    requires reply(AdminGetUser(userPoolId, phone)) == UserFound(stored, status)
    requires forall attributes :: !reply(AdminUpdateUserAttributes(userPoolId, phone, attributes)).Failed?
    requires !reply(AdminConfirmSignUp(userPoolId, phone)).Failed?
    ensures var r := Provision(reply, userPoolId, clientId, phone);
      && r.fault.None?
      && (forall attributes :: AdminUpdateUserAttributes(userPoolId, phone, attributes) in r.requests
            <==> attributes == PhoneUpdates(stored, phone) && attributes != [])
      && (AdminConfirmSignUp(userPoolId, phone) in r.requests <==> status == Some(Unconfirmed))
      && (forall q | q in r.requests :: !q.SignUp?)
  {
  }

  /** The response to an exception from provisioning or from `admin_initiate_auth`. */
  function StartFaultResponse(f: Fault): (r: HttpResponse)
    ensures f.InvalidParameter? ==> r == ErrorResponse(f.message, 400)
    ensures !f.InvalidParameter? ==> r == ErrorResponse(StartFailedMessage, 502)
  {
    if f.InvalidParameter? then ErrorResponse(f.message, 400) else ErrorResponse(StartFailedMessage, 502)
  }

  /** `response_body` for a started challenge. */
  function StartBody(session: string, phone: string, devEcho: bool, challengeParameters: seq<Member>): (r: seq<Member>)
    ensures Lookup(r, "session") == Some(JStr(session))
    ensures Lookup(r, "phone") == Some(JStr(phone))
    ensures Lookup(r, "dev_otp").Some? <==>
      devEcho && Lookup(challengeParameters, "dev_otp").Some? && Truthy(Lookup(challengeParameters, "dev_otp").value)
    ensures Lookup(r, "dev_otp").Some? ==> Lookup(r, "dev_otp") == Lookup(challengeParameters, "dev_otp")
  {
    var base := [Member("session", JStr(session)), Member("phone", JStr(phone))];
    var devOtp := Lookup(challengeParameters, "dev_otp");
    assert base == [Member("session", JStr(session))] + [Member("phone", JStr(phone))];
    LookupAppend([Member("session", JStr(session))], Member("phone", JStr(phone)), "session");
    LookupAppend([Member("session", JStr(session))], Member("phone", JStr(phone)), "dev_otp");
    if devEcho && devOtp.Some? && Truthy(devOtp.value) then
      LookupAppend(base, Member("dev_otp", devOtp.value), "session");
      LookupAppend(base, Member("dev_otp", devOtp.value), "phone");
      LookupAppend(base, Member("dev_otp", devOtp.value), "dev_otp");
      base + [Member("dev_otp", devOtp.value)]
    else base
  }

  /** What `admin_initiate_auth`'s reply leads to: 200 exactly for a custom challenge
      with a non-empty session, with the body built from them. */
  function ChallengeResponse(reply: Reply, phone: string, devEcho: bool): (r: HttpResponse)
    ensures r.statusCode == 200 <==>
      reply.AuthChallenge? && reply.challengeName == Some(CustomChallenge) &&
      reply.session.Some? && reply.session.value != ""
    ensures r.statusCode != 200 ==> r == ErrorResponse(UnexpectedResponseMessage, 502)
    ensures r.statusCode == 200 ==>
      Loads(r.body) == Some(JObject(StartBody(reply.session.value, phone, devEcho, reply.challengeParameters)))
  {
    if !reply.AuthChallenge? || reply.challengeName != Some(CustomChallenge) || reply.session.None? || reply.session.value == "" then
      ErrorResponse(UnexpectedResponseMessage, 502)
    else JsonResponse(Some(StartBody(reply.session.value, phone, devEcho, reply.challengeParameters)), 200)
  }

  /** Provisioning and the start of the flow for a valid phone: every request is about
      that phone, and the flow is started only once provisioning succeeded. */
  function Authenticate(reply: Oracle, userPoolId: string, clientId: string, phone: string, devEcho: bool): (r: Outcome)
    ensures var p := Provision(reply, userPoolId, clientId, phone);
      && (p.fault.Some? ==> r == Outcome(Ok(StartFaultResponse(p.fault.value)), p.requests))
      && (p.fault.None? ==> r.requests == p.requests + [AdminInitiateAuth(userPoolId, clientId, phone, [])])
    ensures var p := Provision(reply, userPoolId, clientId, phone);
      var started := reply(AdminInitiateAuth(userPoolId, clientId, phone, []));
      && (p.fault.None? && started.Failed? ==> r.result == Ok(StartFaultResponse(started.fault)))
      && (p.fault.None? && !started.Failed? ==> r.result == Ok(ChallengeResponse(started, phone, devEcho)))
    ensures forall i | 0 <= i < |r.requests| :: UsernameOf(r.requests[i]) == phone
  {
    var provisioned := Provision(reply, userPoolId, clientId, phone);
    if provisioned.fault.Some? then
      Outcome(Ok(StartFaultResponse(provisioned.fault.value)), provisioned.requests)
    else
      var initiate := AdminInitiateAuth(userPoolId, clientId, phone, []);
      var requests := provisioned.requests + [initiate];
      if reply(initiate).Failed? then
        Outcome(Ok(StartFaultResponse(reply(initiate).fault)), requests)
      else
        Outcome(Ok(ChallengeResponse(reply(initiate), phone, devEcho)), requests)
  }

  /** Provisioning and `admin_initiate_auth`, once the input and configuration are valid. */
  method BeginAuthentication(client: Client, userPoolId: string, clientId: string, phone: string, devEcho: bool)
    returns (response: HttpResponse)
    modifies client
    ensures Ok(response) == Authenticate(client.reply, userPoolId, clientId, phone, devEcho).result
    ensures client.requests == old(client.requests) + Authenticate(client.reply, userPoolId, clientId, phone, devEcho).requests
  {
    var fault := EnsureUser(client, userPoolId, clientId, phone);
    if fault.Some? {
      return StartFaultResponse(fault.value);
    }
    var authResponse := client.Send(AdminInitiateAuth(userPoolId, clientId, phone, []));
    if authResponse.Failed? {
      return StartFaultResponse(authResponse.fault);
    }

    if !authResponse.AuthChallenge? || authResponse.challengeName != Some(CustomChallenge) ||
       authResponse.session.None? || authResponse.session.value == "" {
      return ErrorResponse(UnexpectedResponseMessage, 502);
    }
    var responseBody := [Member("session", JStr(authResponse.session.value)), Member("phone", JStr(phone))];
    if devEcho {
      var devOtp := Lookup(authResponse.challengeParameters, "dev_otp");
      if devOtp.Some? && Truthy(devOtp.value) {
        responseBody := responseBody + [Member("dev_otp", devOtp.value)];
      }
    }
    assert responseBody == StartBody(authResponse.session.value, phone, devEcho, authResponse.challengeParameters);
    return JsonResponse(Some(responseBody), 200);
  }

  /** Decoding the body and checking the phone, up to line 95. */
  function CheckPhone(body: Option<string>): (r: Checked)
    ensures ParseBody(body).None? ==> r == Respond(ErrorResponse(InvalidJsonMessage))
    ensures r.Respond? ==> r.response.statusCode == 400
    ensures r.Proceed? ==> ValidateE164(r.input)
    ensures r.Proceed? ==>
      && ParseBody(body).Some? && ParseBody(body).value.JObject?
      && NormalizeValue(Lookup(ParseBody(body).value.members, "phone")) == Ok(Some(r.input))
    ensures ParseBody(body).Some? && ParseBody(body).value.JObject? ==>
      var phone := NormalizeValue(Lookup(ParseBody(body).value.members, "phone"));
      phone.Ok? && phone.value.Some? && ValidateE164(phone.value.value) ==> r == Proceed(phone.value.value)
  {
    match ParseBody(body)
    case None => Respond(ErrorResponse(InvalidJsonMessage))
    case Some(payload) =>
      match PayloadGet(payload, "phone")
      case Err(e) => Raise(e)
      case Ok(value) =>
        match NormalizeValue(value)
        case Err(e) => Raise(e)
        case Ok(phone) =>
          if Blank(phone) then Respond(ErrorResponse(PhoneRequiredMessage))
          else if !ValidateE164(phone.value) then Respond(ErrorResponse(PhoneFormatMessage))
          else Proceed(phone.value)
  }

  /** The handler's result and requests, given the replies `reply` gives. */
  function Start(env: Env, body: Option<string>, reply: Oracle): (r: Outcome)
    ensures ParseBody(body).None? ==> r == Outcome(Ok(ErrorResponse(InvalidJsonMessage)), [])
    ensures forall i | 0 <= i < |r.requests| :: ValidateE164(UsernameOf(r.requests[i]))
    ensures !CheckPhone(body).Proceed? ==> r.requests == [] && (r.result.Ok? ==> r.result.value.statusCode == 400)
    ensures CheckPhone(body).Proceed? &&
            (RequireEnv(env, "USER_POOL_ID").Err? || RequireEnv(env, "USER_POOL_CLIENT_ID").Err?) ==>
      r.requests == [] && r.result.Err? && r.result.error.RuntimeError?
    ensures CheckPhone(body).Proceed? && RequireEnv(env, "USER_POOL_ID").Ok? && RequireEnv(env, "USER_POOL_CLIENT_ID").Ok? ==>
      r == Authenticate(reply, env["USER_POOL_ID"], env["USER_POOL_CLIENT_ID"], CheckPhone(body).input, DevEcho(env))
  {
    match CheckPhone(body)
    case Respond(response) => Outcome(Ok(response), [])
    case Raise(e) => Outcome(Err(e), [])
    case Proceed(phone) =>
      match RequireEnv(env, "USER_POOL_ID")
      case Err(e) => Outcome(Err(e), [])
      case Ok(userPoolId) =>
        match RequireEnv(env, "USER_POOL_CLIENT_ID")
        case Err(e) => Outcome(Err(e), [])
        case Ok(clientId) => Authenticate(reply, userPoolId, clientId, phone, DevEcho(env))
  }

  /** `handler(event, context)` with the Cognito client `client`. */
  method Handle(env: Env, body: Option<string>, client: Client) returns (result: Result<HttpResponse, PyError>)
    modifies client
    ensures result == Start(env, body, client.reply).result
    ensures client.requests == old(client.requests) + Start(env, body, client.reply).requests
  {
    var checked := CheckPhone(body);
    ghost var spec := Start(env, body, client.reply);
    match checked {
      case Respond(response) =>
        return Ok(response);
      case Raise(e) =>
        return Err(e);
      case Proceed(phone) =>
        var userPoolId := RequireEnv(env, "USER_POOL_ID");
        if userPoolId.Err? {
          return Err(userPoolId.error);
        }
        var clientId := RequireEnv(env, "USER_POOL_CLIENT_ID");
        if clientId.Err? {
          return Err(clientId.error);
        }
        var devEcho := DevEcho(env);
        assert spec == Authenticate(client.reply, userPoolId.value, clientId.value, phone, devEcho);
        var response := BeginAuthentication(client, userPoolId.value, clientId.value, phone, devEcho);
        return Ok(response);
    }
  }

  /** A blank phone is reported as missing before its format is checked, and neither
      sends a request. */
  lemma {:induction false} PhoneChecksFirst(env: Env, body: Option<string>, reply: Oracle, phone: Option<string>)
    requires ParseBody(body).Some? && ParseBody(body).value.JObject?
    requires NormalizeValue(Lookup(ParseBody(body).value.members, "phone")) == Ok(phone)
    requires Blank(phone) || !ValidateE164(phone.value)
    ensures Start(env, body, reply).requests == []
    ensures Start(env, body, reply).result ==
      Ok(ErrorResponse(if Blank(phone) then PhoneRequiredMessage else PhoneFormatMessage))
  {
  }

  /** With a valid phone and configuration, the flow is started for the trimmed phone once
      provisioning succeeds; a fault stops it with 400 for an invalid parameter and 502
      otherwise. */
  lemma {:induction false} StartedAfterProvisioning(env: Env, body: Option<string>, reply: Oracle, phone: string)
    requires ParseBody(body).Some? && ParseBody(body).value.JObject?
    requires NormalizeValue(Lookup(ParseBody(body).value.members, "phone")) == Ok(Some(phone))
    requires ValidateE164(phone)
    requires RequireEnv(env, "USER_POOL_ID").Ok? && RequireEnv(env, "USER_POOL_CLIENT_ID").Ok?
    ensures var p := Provision(reply, env["USER_POOL_ID"], env["USER_POOL_CLIENT_ID"], phone);
      var initiate := AdminInitiateAuth(env["USER_POOL_ID"], env["USER_POOL_CLIENT_ID"], phone, []);
      && (p.fault.Some? ==> Start(env, body, reply) == Outcome(Ok(StartFaultResponse(p.fault.value)), p.requests))
      && (p.fault.None? ==> Start(env, body, reply).requests == p.requests + [initiate])
      && (p.fault.None? && reply(initiate).Failed? ==>
            Start(env, body, reply).result == Ok(StartFaultResponse(reply(initiate).fault)))
      && (p.fault.None? && !reply(initiate).Failed? ==>
            Start(env, body, reply).result == Ok(ChallengeResponse(reply(initiate), phone, DevEcho(env))))
  {
  }
}
