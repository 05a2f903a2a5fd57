/** `POST /auth/google`: verify a Google ID token, make sure a Cognito user
    `google:<sub>` with the profile attributes of the token exists, then run the custom
    authentication flow answering the challenge with a constant. */
module AuthGoogle {
  import opened Wrappers
  import opened Json
  import opened Py
  import opened Config
  import opened Phone
  import opened Resp
  import opened HttpRequest
  import opened Cognito
  import opened TriggerEvent
  import opened GoogleToken
  import AuthStart
  import AuthVerify

  const TokenRequiredMessage := "id_token is required"
  const InvalidTokenMessage := "Invalid Google ID token"
  const EmailRequiredMessage := "Google account email is required"
  const UsernamePrefix := "google:"

  /** The claims `_normalize_attributes` turns into attributes, in order. */
  const ProfileClaims: seq<string> := ["email", "email_verified", "name", "given_name", "family_name", "picture"]

  /** The value of the attribute derived from claim `name`: `email_verified` whenever it is
      not `None`, as `"true"` or `"false"`; any other claim when it is true, as it is. */
  function ClaimValue(claims: seq<Member>, name: string): (r: Option<Json>)
    ensures name != "email_verified" ==>
      (r.Some? <==> Lookup(claims, name).Some? && Truthy(Lookup(claims, name).value))
    ensures name != "email_verified" && r.Some? ==> r == Lookup(claims, name)
    ensures name == "email_verified" ==>
      (r.Some? <==> Lookup(claims, name).Some? && Lookup(claims, name).value != JNull)
    ensures name == "email_verified" && r.Some? ==>
      r == Some(JStr(if Truthy(Lookup(claims, name).value) then "true" else "false"))
  {
    match Lookup(claims, name)
    case None => None
    case Some(v) =>
      if name == "email_verified" then
        if v == JNull then None else Some(JStr(if Truthy(v) then "true" else "false"))
      else if Truthy(v) then Some(v) else None
  }

  /** The attribute derived from claim `name`, if any. */
  function Derived(claims: seq<Member>, name: string): seq<Attr> {
    match ClaimValue(claims, name)
    case Some(v) => [Attr(name, v)]
    case None => []
  }

  /** The attributes derived from the claims `names`, in the order of `names`. */
  function ClaimAttributes(claims: seq<Member>, names: seq<string>): seq<Attr> {
    if names == [] then []
    else ClaimAttributes(claims, names[..|names| - 1]) + Derived(claims, names[|names| - 1])
  }

  /** One more claim adds its derived attribute at the end. */
  lemma {:induction false} ClaimAttributesSnoc(claims: seq<Member>, names: seq<string>, name: string)
    ensures ClaimAttributes(claims, names + [name]) == ClaimAttributes(claims, names) + Derived(claims, name)
  {
    assert (names + [name])[..|names|] == names;
  }

  /** The reference for `_normalize_attributes(claims)`. */
  function GoogleAttributes(claims: seq<Member>): seq<Attr> {
    ClaimAttributes(claims, ProfileClaims)
  }

  predicate DistinctNames(names: seq<string>) {
    forall i, j | 0 <= i < j < |names| :: names[i] != names[j]
  }

  /** Every derived attribute is named by one of `names`. */
  lemma {:induction false} ClaimAttributesNames(claims: seq<Member>, names: seq<string>)
    ensures forall a | a in ClaimAttributes(claims, names) :: a.name in names
    decreases |names|
  {
    if names != [] {
      var init := names[..|names| - 1];
      ClaimAttributesNames(claims, init);
      forall a | a in ClaimAttributes(claims, names)
        ensures a.name in names
      {
        if a in ClaimAttributes(claims, init) {
          var i :| 0 <= i < |init| && init[i] == a.name;
          assert names[i] == init[i];
        }
      }
    }
  }

  /** With distinct names, the attribute for each name holds the derived value, and is
      absent when none is derived. */
  lemma {:induction false} ClaimAttributesLookup(claims: seq<Member>, names: seq<string>, k: nat)
    requires DistinctNames(names) && k < |names|
    ensures StoredValue(ClaimAttributes(claims, names), names[k]) == ClaimValue(claims, names[k])
    decreases |names|
  {
    var init := names[..|names| - 1];
    var last := names[|names| - 1];
    var before := ClaimAttributes(claims, init);
    var derived := Derived(claims, last);
    assert ClaimAttributes(claims, names) == before + derived;
    if derived == [] {
      assert before + derived == before;
    } else {
      StoredValueAppend(before, derived[0], names[k]);
    }
    if k < |names| - 1 {
      assert init[k] == names[k];
      ClaimAttributesLookup(claims, init, k);
    } else if derived == [] {
      ClaimAttributesNames(claims, init);
      assert forall i | 0 <= i < |init| :: init[i] != last;
    }
  }

  /** `StoredValue` after appending one attribute. */
  lemma {:induction false} StoredValueAppend(attributes: seq<Attr>, a: Attr, name: string)
    ensures StoredValue(attributes + [a], name) ==
      if a.name == name then Some(a.value) else StoredValue(attributes, name)
  {
    assert (attributes + [a])[..|attributes|] == attributes;
  }

  lemma {:induction false} ProfileClaimsDistinct()
    ensures DistinctNames(ProfileClaims)
  {
  }

  /** Each profile claim gives its attribute of a Google user exactly when
      `_normalize_attributes` emits it, with the value it emits. */
  lemma {:induction false} GoogleAttributeValue(claims: seq<Member>, k: nat)
    requires k < |ProfileClaims|
    ensures StoredValue(GoogleAttributes(claims), ProfileClaims[k]) == ClaimValue(claims, ProfileClaims[k])
  {
    ProfileClaimsDistinct();
    ClaimAttributesLookup(claims, ProfileClaims, k);
  }

  /** A Google user is given profile attributes only: in particular never a phone number. */
  lemma {:induction false} GoogleAttributeNames(claims: seq<Member>)
    ensures forall a | a in GoogleAttributes(claims) :: a.name in ProfileClaims
    ensures StoredValue(GoogleAttributes(claims), "phone_number").None?
  {
    ClaimAttributesNames(claims, ProfileClaims);
  }

  /** Six claims one after the other. */
  lemma {:induction false} ClaimAttributesSix(claims: seq<Member>, n0: string, n1: string, n2: string, n3: string, n4: string, n5: string)
    ensures ClaimAttributes(claims, [n0, n1, n2, n3, n4, n5]) ==
      Derived(claims, n0) + Derived(claims, n1) + Derived(claims, n2) +
      Derived(claims, n3) + Derived(claims, n4) + Derived(claims, n5)
  {
    var p1 := [] + [n0];
    var p2 := p1 + [n1];
    var p3 := p2 + [n2];
    var p4 := p3 + [n3];
    var p5 := p4 + [n4];
    SixNames(n0, n1, n2, n3, n4, n5);
    ClaimAttributesSnoc(claims, [], n0);
    ClaimAttributesSnoc(claims, p1, n1);
    ClaimAttributesSnoc(claims, p2, n2);
    ClaimAttributesSnoc(claims, p3, n3);
    ClaimAttributesSnoc(claims, p4, n4);
    ClaimAttributesSnoc(claims, p5, n5);
    assert ClaimAttributes(claims, []) + Derived(claims, n0) == Derived(claims, n0);
  }

  /** Six names appended one at a time. */
  lemma {:induction false} SixNames<T>(n0: T, n1: T, n2: T, n3: T, n4: T, n5: T)
    ensures [] + [n0] + [n1] + [n2] + [n3] + [n4] + [n5] == [n0, n1, n2, n3, n4, n5]
  {
  }

  /** The profile claims one after the other. */
  lemma {:induction false} GoogleAttributesExpanded(claims: seq<Member>)
    ensures GoogleAttributes(claims) ==
      Derived(claims, "email") + Derived(claims, "email_verified") + Derived(claims, "name") +
      Derived(claims, "given_name") + Derived(claims, "family_name") + Derived(claims, "picture")
  {
    ClaimAttributesSix(claims, "email", "email_verified", "name", "given_name", "family_name", "picture");
  }

  /** A claim other than `email_verified` gives its value when that is true. */
  lemma {:induction false} DerivedPlain(claims: seq<Member>, name: string)
    requires name != "email_verified"
    ensures Derived(claims, name) ==
      if Lookup(claims, name).Some? && Truthy(Lookup(claims, name).value)
      then [Attr(name, Lookup(claims, name).value)] else []
  {
  }

  /** `email_verified` gives `"true"` or `"false"` whenever it is not `None`. */
  lemma {:induction false} DerivedVerified(claims: seq<Member>)
    ensures Derived(claims, "email_verified") ==
      var v := Lookup(claims, "email_verified");
      if v.Some? && v.value != JNull
      then [Attr("email_verified", JStr(if Truthy(v.value) then "true" else "false"))] else []
  {
  }

  /** `_normalize_attributes(claims)`. */
  method NormalizeAttributes(claims: seq<Member>) returns (attrs: seq<Attr>)
    ensures attrs == GoogleAttributes(claims)
  {
    attrs := [];

    var email := Lookup(claims, "email");
    attrs := attrs + (if email.Some? && Truthy(email.value) then [Attr("email", email.value)] else []);
    ghost var upToEmail := attrs;
    assert upToEmail == Derived(claims, "email") by {
      DerivedPlain(claims, "email");
    }

    var emailVerified := Lookup(claims, "email_verified");
    attrs := attrs + (if emailVerified.Some? && emailVerified.value != JNull then [Attr("email_verified", JStr(if Truthy(emailVerified.value) then "true" else "false"))] else []);
    ghost var upToVerified := attrs;
    assert upToVerified == upToEmail + Derived(claims, "email_verified") by {
      DerivedVerified(claims);
    }

    var name := Lookup(claims, "name");
    attrs := attrs + (if name.Some? && Truthy(name.value) then [Attr("name", name.value)] else []);
    ghost var upToName := attrs;
    assert upToName == upToVerified + Derived(claims, "name") by {
      DerivedPlain(claims, "name");
    }

    var givenName := Lookup(claims, "given_name");
    attrs := attrs + (if givenName.Some? && Truthy(givenName.value) then [Attr("given_name", givenName.value)] else []);
    ghost var upToGivenName := attrs;
    assert upToGivenName == upToName + Derived(claims, "given_name") by {
      DerivedPlain(claims, "given_name");
    }

    var familyName := Lookup(claims, "family_name");
    attrs := attrs + (if familyName.Some? && Truthy(familyName.value) then [Attr("family_name", familyName.value)] else []);
    ghost var upToFamilyName := attrs;
    assert upToFamilyName == upToGivenName + Derived(claims, "family_name") by {
      DerivedPlain(claims, "family_name");
    }

    var picture := Lookup(claims, "picture");
    attrs := attrs + (if picture.Some? && Truthy(picture.value) then [Attr("picture", picture.value)] else []);
    assert attrs == upToFamilyName + Derived(claims, "picture") by {
      DerivedPlain(claims, "picture");
    }
    GoogleAttributesExpanded(claims);
  }

  /** The attributes whose stored value differs from the wanted one, in order. */
  function ChangedAttributes(stored: seq<Attr>, attributes: seq<Attr>): seq<Attr> {
    if attributes == [] then []
    else
      var a := attributes[|attributes| - 1];
      ChangedAttributes(stored, attributes[..|attributes| - 1]) +
      (if StoredValue(stored, a.name) != Some(a.value) then [a] else [])
  }

  /** An attribute is updated exactly when it is wanted and its stored value differs. */
  lemma {:induction false} ChangedAttributesMembers(stored: seq<Attr>, attributes: seq<Attr>)
    ensures forall a :: a in ChangedAttributes(stored, attributes) <==>
      a in attributes && StoredValue(stored, a.name) != Some(a.value)
    decreases |attributes|
  {
    if attributes != [] {
      var init := attributes[..|attributes| - 1];
      ChangedAttributesMembers(stored, init);
      assert attributes == init + [attributes[|attributes| - 1]];
    }
  }

  /** No update is needed exactly when every wanted attribute is stored as it is. */
  lemma {:induction false} NothingChanged(stored: seq<Attr>, attributes: seq<Attr>)
    ensures ChangedAttributes(stored, attributes) == [] <==>
      forall a | a in attributes :: StoredValue(stored, a.name) == Some(a.value)
  {
    ChangedAttributesMembers(stored, attributes);
    var changed := ChangedAttributes(stored, attributes);
    if changed != [] {
      assert changed[0] in changed;
    }
  }

  /** The loop that builds `updates` in `_ensure_google_user`. */
  method AttributeUpdates(stored: seq<Attr>, attributes: seq<Attr>) returns (updates: seq<Attr>)
    ensures updates == ChangedAttributes(stored, attributes)
  {
    updates := [];
    var i := 0;
    while i < |attributes|
      invariant 0 <= i <= |attributes|
      invariant updates == ChangedAttributes(stored, attributes[..i])
    {
      var attr := attributes[i];
      assert attributes[..i + 1][..i] == attributes[..i];
      if StoredValue(stored, attr.name) != Some(attr.value) {
        updates := updates + [attr];
      }
      i := i + 1;
    }
    assert attributes[..i] == attributes;
  }

  /** The requests `_ensure_google_user` sends when every reply is `reply`'s, and the
      exception it lets escape. */
  function ProvisionGoogle(reply: Oracle, userPoolId: string, clientId: string, username: string,
                           attributes: seq<Attr>): (r: Calls)
    ensures r.requests != [] && r.requests[0] == AdminGetUser(userPoolId, username)
    ensures forall i | 0 <= i < |r.requests| :: UsernameOf(r.requests[i]) == username
    ensures r.fault.Some? ==> r.fault == FaultOf(reply(r.requests[|r.requests| - 1]))
  {
    var get := AdminGetUser(userPoolId, username);
    var user := reply(get);
    var confirm := AdminConfirmSignUp(userPoolId, username);
    if user == Failed(UserNotFound) then
      var signUp := SignUp(clientId, username, attributes);
      if reply(signUp).Failed? && reply(signUp).fault != UsernameExists then
        Calls([get, signUp], Some(reply(signUp).fault))
      else if reply(confirm).Failed? then
        Calls([get, signUp, confirm], Some(reply(confirm).fault))
      else if attributes == [] then
        Calls([get, signUp, confirm], None)
      else
        var update := AdminUpdateUserAttributes(userPoolId, username, attributes);
        Calls([get, signUp, confirm, update], FaultOf(reply(update)))
    else if user.Failed? then
      Calls([get], Some(user.fault))
    else
      var updates := ChangedAttributes(UserAttributesOf(user), attributes);
      var update := AdminUpdateUserAttributes(userPoolId, username, updates);
      if updates != [] && reply(update).Failed? then
        Calls([get, update], Some(reply(update).fault))
      else
        var updated := if updates == [] then [get] else [get, update];
        if UserStatusOf(user) == Some(AuthStart.Unconfirmed) then
          Calls(updated + [confirm], FaultOf(reply(confirm)))
        else
          Calls(updated, None)
  }

  /** `_ensure_google_user(client, user_pool_id, client_id, username, attributes)`; the
      exception it raises is returned. */
  method EnsureGoogleUser(client: Client, userPoolId: string, clientId: string, username: string,
                          attributes: seq<Attr>) returns (fault: Option<Fault>)
    modifies client
    ensures client.requests == old(client.requests) + ProvisionGoogle(client.reply, userPoolId, clientId, username, attributes).requests
    ensures fault == ProvisionGoogle(client.reply, userPoolId, clientId, username, attributes).fault
  {
    var user := client.Send(AdminGetUser(userPoolId, username));
    if user == Failed(UserNotFound) {
      var signUp := client.Send(SignUp(clientId, username, attributes));
      if signUp.Failed? && signUp.fault != UsernameExists {
        return Some(signUp.fault);
      }
      var confirmed := client.Send(AdminConfirmSignUp(userPoolId, username));
      if confirmed.Failed? {
        return Some(confirmed.fault);
      }
      if attributes != [] {
        var updated := client.Send(AdminUpdateUserAttributes(userPoolId, username, attributes));
        return FaultOf(updated);
      }
      return None;
    } else if user.Failed? {
      return Some(user.fault);
    }

    var updates := AttributeUpdates(UserAttributesOf(user), attributes);
    if updates != [] {
      var updated := client.Send(AdminUpdateUserAttributes(userPoolId, username, updates));
      if updated.Failed? {
        return Some(updated.fault);
      }
    }

    if UserStatusOf(user) == Some(AuthStart.Unconfirmed) {
      var confirmed := client.Send(AdminConfirmSignUp(userPoolId, username));
      return FaultOf(confirmed);
    }
    return None;
  }

  /** An unknown Google user is signed up with the profile attributes (an existing username
      is tolerated) and confirmed; the attributes are then written again only when there
      are some, and that write's failure is the one that escapes. */
  lemma {:induction false} UnknownGoogleUserIsCreated(reply: Oracle, userPoolId: string, clientId: string, username: string,
                                                      attributes: seq<Attr>)
    requires reply(AdminGetUser(userPoolId, username)) == Failed(UserNotFound)
    requires var s := reply(SignUp(clientId, username, attributes)); !s.Failed? || s.fault == UsernameExists
    requires !reply(AdminConfirmSignUp(userPoolId, username)).Failed?
    ensures attributes == [] ==> ProvisionGoogle(reply, userPoolId, clientId, username, attributes) == Calls(
      [AdminGetUser(userPoolId, username), SignUp(clientId, username, attributes), AdminConfirmSignUp(userPoolId, username)],
      None)
    ensures attributes != [] ==> ProvisionGoogle(reply, userPoolId, clientId, username, attributes) == Calls(
      [AdminGetUser(userPoolId, username),
       SignUp(clientId, username, attributes),
       AdminConfirmSignUp(userPoolId, username),
       AdminUpdateUserAttributes(userPoolId, username, attributes)],
      FaultOf(reply(AdminUpdateUserAttributes(userPoolId, username, attributes))))
  {
  }

  /** For an existing Google user whose requests all succeed, an update is sent exactly when
      some wanted attribute is out of date and carries exactly those, and a confirmation
      follows exactly when the user is unconfirmed. */
  lemma {:induction false} ExistingGoogleUserIsBroughtUpToDate(reply: Oracle, userPoolId: string, clientId: string, username: string,
                                            attributes: seq<Attr>, stored: seq<Attr>, status: Option<string>)
    requires reply(AdminGetUser(userPoolId, username)) == UserFound(stored, status)
    requires forall updates :: !reply(AdminUpdateUserAttributes(userPoolId, username, updates)).Failed?
    requires !reply(AdminConfirmSignUp(userPoolId, username)).Failed?
    ensures var r := ProvisionGoogle(reply, userPoolId, clientId, username, attributes);
      && r.fault.None?
      && (forall updates :: AdminUpdateUserAttributes(userPoolId, username, updates) in r.requests
            <==> updates == ChangedAttributes(stored, attributes) && updates != [])
      && (AdminConfirmSignUp(userPoolId, username) in r.requests <==> status == Some(AuthStart.Unconfirmed))
  {
  }

  /** `f"google:{sub}"` */
  function Username(sub: Json): (r: string)
    ensures |r| >= |UsernamePrefix| && r[..|UsernamePrefix|] == UsernamePrefix
    ensures sub.JStr? ==> r[|UsernamePrefix|..] == sub.s
  {
    UsernamePrefix + Str(sub)
  }

  /** Distinct string subjects get distinct usernames, and a Google username can never be
      taken for a phone number. */
  lemma {:induction false} UsernamesAreSeparate(sub1: Json, sub2: Json)
    requires sub1.JStr? && sub2.JStr? && sub1 != sub2
    ensures Username(sub1) != Username(sub2)
    ensures !ValidateE164(Username(sub1))
  {
    assert Username(sub1)[|UsernamePrefix|..] != Username(sub2)[|UsernamePrefix|..];
    assert Username(sub1)[0] == 'g';
  }

  /** `ClientMetadata` of the `admin_initiate_auth` call. */
  function LoginMetadata(sub: Json): seq<Member> {
    [Member("login_provider", JStr("google")), Member("google_sub", sub)]
  }

  /** What follows the reply to the constant challenge answer: any exception is a 502. */
  function GoogleReplyResponse(reply: Reply): (r: HttpResponse)
    ensures reply.Failed? ==> r == ErrorResponse("Failed to verify authentication", 502)
    ensures !reply.Failed? && AuthVerify.AuthenticationOf(reply) == [] ==>
      r == ErrorResponse("Invalid authentication response", 401)
    ensures r.statusCode == 200 <==> !reply.Failed? && AuthVerify.AuthenticationOf(reply) != []
    ensures r.statusCode == 200 ==> Loads(r.body) == Some(JObject(TokenBody(AuthVerify.AuthenticationOf(reply))))
  {
    if reply.Failed? then ErrorResponse("Failed to verify authentication", 502)
    else
      var authentication := AuthVerify.AuthenticationOf(reply);
      if authentication == [] then ErrorResponse("Invalid authentication response", 401)
      else JsonResponse(Some(TokenBody(authentication)), 200)
  }

  /** From `admin_initiate_auth` on: start the flow and answer the challenge with the
      constant. */
  function AnswerChallenge(reply: Oracle, userPoolId: string, clientId: string, sub: Json): (r: Outcome)
    ensures 1 <= |r.requests| <= 2
    ensures r.requests[0] == AdminInitiateAuth(userPoolId, clientId, Username(sub), LoginMetadata(sub))
    ensures |r.requests| == 2 ==>
      && r.requests[1].AdminRespondToAuthChallenge?
      && r.requests[1].username == Username(sub)
      && r.requests[1].answer == GoogleChallengeAnswer
      && r.result == Ok(GoogleReplyResponse(reply(r.requests[1])))
    ensures r.result.Ok? && r.result.value.statusCode == 200 ==> |r.requests| == 2
    ensures var started := reply(r.requests[0]);
      |r.requests| == 2 <==>
        started.AuthChallenge? && started.challengeName == Some(CustomChallenge) &&
        started.session.Some? && started.session.value != ""
    ensures |r.requests| == 2 ==>
      r.requests[1] == AdminRespondToAuthChallenge(userPoolId, clientId, Username(sub), GoogleChallengeAnswer,
                                                   reply(r.requests[0]).session.value)
    ensures var started := reply(r.requests[0]);
      |r.requests| == 1 ==>
        r.result == Ok(if started.Failed? then AuthStart.StartFaultResponse(started.fault)
                       else ErrorResponse(AuthStart.UnexpectedResponseMessage, 502))
  {
    var username := Username(sub);
    var initiate := AdminInitiateAuth(userPoolId, clientId, username, LoginMetadata(sub));
    var challenge := reply(initiate);
    if challenge.Failed? then
      Outcome(Ok(AuthStart.StartFaultResponse(challenge.fault)), [initiate])
    else if !challenge.AuthChallenge? || challenge.challengeName != Some(CustomChallenge) ||
            challenge.session.None? || challenge.session.value == "" then
      Outcome(Ok(ErrorResponse(AuthStart.UnexpectedResponseMessage, 502)), [initiate])
    else
      var respond := AdminRespondToAuthChallenge(userPoolId, clientId, username, GoogleChallengeAnswer,
                                                 challenge.session.value);
      Outcome(Ok(GoogleReplyResponse(reply(respond))), [initiate, respond])
  }

  /** The Cognito part, once the token and its claims are accepted: provision the user,
      then start the flow and answer the challenge. */
  function Federate(reply: Oracle, userPoolId: string, clientId: string, sub: Json, attributes: seq<Attr>): (r: Outcome)
    ensures forall i | 0 <= i < |r.requests| :: UsernameOf(r.requests[i]) == Username(sub)
    ensures var p := ProvisionGoogle(reply, userPoolId, clientId, Username(sub), attributes);
      && (p.fault.Some? ==> r == Outcome(Ok(AuthStart.StartFaultResponse(p.fault.value)), p.requests))
      && (p.fault.None? ==> r == Outcome(AnswerChallenge(reply, userPoolId, clientId, sub).result,
                                         p.requests + AnswerChallenge(reply, userPoolId, clientId, sub).requests))
  {
    var provisioned := ProvisionGoogle(reply, userPoolId, clientId, Username(sub), attributes);
    if provisioned.fault.Some? then
      Outcome(Ok(AuthStart.StartFaultResponse(provisioned.fault.value)), provisioned.requests)
    else
      var answered := AnswerChallenge(reply, userPoolId, clientId, sub);
      Outcome(answered.result, provisioned.requests + answered.requests)
  }

  /** Verifying the token and reading `sub` and `email` from its claims. */
  function SignIn(reply: Oracle, verify: TokenVerifier, idToken: string, googleClientId: string,
                  userPoolId: string, clientId: string): (r: Outcome)
    ensures VerifyIdToken(verify, idToken, googleClientId).Err? ==> r.requests == []
    ensures (match VerifyIdToken(verify, idToken, googleClientId)
             case Err(GoogleTokenError(_)) => true
             case Ok(claims) => Lookup(claims, "sub").None? || !Truthy(Lookup(claims, "sub").value)
             case _ => false) ==>
      r == Outcome(Ok(ErrorResponse(InvalidTokenMessage, 401)), [])
    ensures VerifyIdToken(verify, idToken, googleClientId).Ok? ==>
      var claims := VerifyIdToken(verify, idToken, googleClientId).value;
      var sub := Lookup(claims, "sub");
      var email := Lookup(claims, "email");
      && (sub.Some? && Truthy(sub.value) && (email.None? || !Truthy(email.value)) ==>
            r == Outcome(Ok(ErrorResponse(EmailRequiredMessage)), []))
      && (sub.Some? && Truthy(sub.value) && email.Some? && Truthy(email.value) ==>
            r == Federate(reply, userPoolId, clientId, sub.value, GoogleAttributes(claims)))
  {
    match VerifyIdToken(verify, idToken, googleClientId)
    case Err(GoogleTokenError(_)) => Outcome(Ok(ErrorResponse(InvalidTokenMessage, 401)), [])
    case Err(e) => Outcome(Err(e), [])
    case Ok(claims) =>
      var sub := Lookup(claims, "sub");
      var email := Lookup(claims, "email");
      if sub.None? || !Truthy(sub.value) then Outcome(Ok(ErrorResponse(InvalidTokenMessage, 401)), [])
      else if email.None? || !Truthy(email.value) then Outcome(Ok(ErrorResponse(EmailRequiredMessage)), [])
      else Federate(reply, userPoolId, clientId, sub.value, GoogleAttributes(claims))
  }

  /** Decoding the body and reading `id_token`, up to line 127. */
  function CheckToken(body: Option<string>): (r: Checked)
    ensures ParseBody(body).None? ==> r == Respond(ErrorResponse(InvalidJsonMessage))
    ensures r.Respond? ==> r.response.statusCode == 400
    ensures r.Proceed? ==> r.input != ""
    ensures ParseBody(body).Some? && ParseBody(body).value.JObject? ==>
      var token := StripOrEmpty(Lookup(ParseBody(body).value.members, "id_token"));
      && (token == Ok("") ==> r == Respond(ErrorResponse(TokenRequiredMessage)))
      && (token.Ok? && token.value != "" ==> r == Proceed(token.value))
  {
    match ParseBody(body)
    case None => Respond(ErrorResponse(InvalidJsonMessage))
    case Some(payload) =>
      match PayloadGet(payload, "id_token")
      case Err(e) => Raise(e)
      case Ok(value) =>
        match StripOrEmpty(value)
        case Err(e) => Raise(e)
        case Ok(idToken) =>
          if idToken == "" then Respond(ErrorResponse(TokenRequiredMessage)) else Proceed(idToken)
  }

  /** The handler's result and requests, given the token verifier and Cognito's replies. */
  function GoogleSignIn(env: Env, body: Option<string>, reply: Oracle, verify: TokenVerifier): (r: Outcome)
    ensures ParseBody(body).None? ==> r == Outcome(Ok(ErrorResponse(InvalidJsonMessage)), [])
    ensures !CheckToken(body).Proceed? ==> r.requests == [] && (r.result.Ok? ==> r.result.value.statusCode == 400)
    ensures CheckToken(body).Proceed? ==> r == Configured(env, CheckToken(body).input, reply, verify)
  {
    match CheckToken(body)
    case Respond(response) => Outcome(Ok(response), [])
    case Raise(e) => Outcome(Err(e), [])
    case Proceed(idToken) => Configured(env, idToken, reply, verify)
  }

  /** Reading the configuration, then signing in with the token. */
  function Configured(env: Env, idToken: string, reply: Oracle, verify: TokenVerifier): (r: Outcome)
    ensures RequireEnv(env, "GOOGLE_CLIENT_ID").Err? ==> r == Outcome(Err(RequireEnv(env, "GOOGLE_CLIENT_ID").error), [])
    ensures (|| RequireEnv(env, "GOOGLE_CLIENT_ID").Err?
             || RequireEnv(env, "USER_POOL_ID").Err?
             || RequireEnv(env, "USER_POOL_CLIENT_ID").Err?) ==>
      r.requests == [] && r.result.Err? && r.result.error.RuntimeError?
    ensures (&& RequireEnv(env, "GOOGLE_CLIENT_ID").Ok?
             && RequireEnv(env, "USER_POOL_ID").Ok?
             && RequireEnv(env, "USER_POOL_CLIENT_ID").Ok?) ==>
      r == SignIn(reply, verify, idToken, env["GOOGLE_CLIENT_ID"], env["USER_POOL_ID"], env["USER_POOL_CLIENT_ID"])
  {
    match RequireEnv(env, "GOOGLE_CLIENT_ID")
    case Err(e) => Outcome(Err(e), [])
    case Ok(googleClientId) =>
      match RequireEnv(env, "USER_POOL_ID")
      case Err(e) => Outcome(Err(e), [])
      case Ok(userPoolId) =>
        match RequireEnv(env, "USER_POOL_CLIENT_ID")
        case Err(e) => Outcome(Err(e), [])
        case Ok(clientId) => SignIn(reply, verify, idToken, googleClientId, userPoolId, clientId)
  }

  /** Provisioning, `admin_initiate_auth` and `admin_respond_to_auth_challenge`. */
  method CompleteSignIn(client: Client, userPoolId: string, clientId: string, sub: Json, attributes: seq<Attr>)
    returns (response: HttpResponse)
    modifies client
    ensures Ok(response) == Federate(client.reply, userPoolId, clientId, sub, attributes).result
    ensures client.requests == old(client.requests) + Federate(client.reply, userPoolId, clientId, sub, attributes).requests
  {
    ghost var before := client.requests;
    ghost var provisioned := ProvisionGoogle(client.reply, userPoolId, clientId, Username(sub), attributes);
    var fault := EnsureGoogleUser(client, userPoolId, clientId, Username(sub), attributes);
    if fault.Some? {
      return AuthStart.StartFaultResponse(fault.value);
    }
    ghost var answered := AnswerChallenge(client.reply, userPoolId, clientId, sub);
    response := StartAndAnswer(client, userPoolId, clientId, sub);
    ConcatAssociative(before, provisioned.requests, answered.requests);
  }

  /** `admin_initiate_auth`, then `admin_respond_to_auth_challenge` with the constant. */
  method StartAndAnswer(client: Client, userPoolId: string, clientId: string, sub: Json)
    returns (response: HttpResponse)
    modifies client
    ensures Ok(response) == AnswerChallenge(client.reply, userPoolId, clientId, sub).result
    ensures client.requests == old(client.requests) + AnswerChallenge(client.reply, userPoolId, clientId, sub).requests
  {
    var username := Username(sub);
    var authResponse := client.Send(AdminInitiateAuth(userPoolId, clientId, username, LoginMetadata(sub)));
    if authResponse.Failed? {
      return AuthStart.StartFaultResponse(authResponse.fault);
    }
    if !authResponse.AuthChallenge? || authResponse.challengeName != Some(CustomChallenge) ||
       authResponse.session.None? || authResponse.session.value == "" {
      return ErrorResponse(AuthStart.UnexpectedResponseMessage, 502);
    }
    ghost var afterInitiate := client.requests;
    var challengeResponse := client.Send(AdminRespondToAuthChallenge(userPoolId, clientId, username,
                                                                   GoogleChallengeAnswer, authResponse.session.value));
    assert afterInitiate + [AdminRespondToAuthChallenge(userPoolId, clientId, username, GoogleChallengeAnswer,
                                                      authResponse.session.value)] ==
      old(client.requests) + AnswerChallenge(client.reply, userPoolId, clientId, sub).requests;
    return GoogleReplyResponse(challengeResponse);
  }

  /** `x + (y + z) == (x + y) + z` */
  lemma {:induction false} ConcatAssociative<T>(x: seq<T>, y: seq<T>, z: seq<T>)
    ensures x + (y + z) == (x + y) + z
  {
  }

  /** `handler(event, context)` with the Cognito client `client` and the token verifier
      `verify`. */
  method Handle(env: Env, body: Option<string>, client: Client, verify: TokenVerifier)
    returns (result: Result<HttpResponse, PyError>)
    modifies client
    ensures result == GoogleSignIn(env, body, client.reply, verify).result
    ensures client.requests == old(client.requests) + GoogleSignIn(env, body, client.reply, verify).requests
  {
    var checked := CheckToken(body);
    ghost var spec := GoogleSignIn(env, body, client.reply, verify);
    match checked {
      case Respond(response) =>
        return Ok(response);
      case Raise(e) =>
        return Err(e);
      case Proceed(idToken) =>
        assert spec == Configured(env, idToken, client.reply, verify);
        var googleClientId := RequireEnv(env, "GOOGLE_CLIENT_ID");
        if googleClientId.Err? {
          return Err(googleClientId.error);
        }
        var userPoolId := RequireEnv(env, "USER_POOL_ID");
        if userPoolId.Err? {
          return Err(userPoolId.error);
        }
        var clientId := RequireEnv(env, "USER_POOL_CLIENT_ID");
        if clientId.Err? {
          return Err(clientId.error);
        }
        assert spec == SignIn(client.reply, verify, idToken, googleClientId.value, userPoolId.value, clientId.value);
        result := VerifyAndSignIn(client, verify, idToken, googleClientId.value, userPoolId.value, clientId.value);
    }
  }

  /** From `verify_id_token` on: check the claims, provision the user and sign in. */
  method VerifyAndSignIn(client: Client, verify: TokenVerifier, idToken: string, googleClientId: string,
                         userPoolId: string, clientId: string)
    returns (result: Result<HttpResponse, PyError>)
    modifies client
    ensures result == SignIn(client.reply, verify, idToken, googleClientId, userPoolId, clientId).result
    ensures client.requests == old(client.requests) + SignIn(client.reply, verify, idToken, googleClientId, userPoolId, clientId).requests
  {
    var claims := VerifyIdToken(verify, idToken, googleClientId);
    if claims.Err? {
      if claims.error.GoogleTokenError? {
        return Ok(ErrorResponse(InvalidTokenMessage, 401));
      }
      return Err(claims.error);
    }
    var sub := Lookup(claims.value, "sub");
    var email := Lookup(claims.value, "email");
    if sub.None? || !Truthy(sub.value) {
      return Ok(ErrorResponse(InvalidTokenMessage, 401));
    }
    if email.None? || !Truthy(email.value) {
      return Ok(ErrorResponse(EmailRequiredMessage));
    }
    var attributes := NormalizeAttributes(claims.value);
    var response := CompleteSignIn(client, userPoolId, clientId, sub.value, attributes);
    return Ok(response);
  }
}
