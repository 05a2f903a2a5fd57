/** The Cognito identity-provider API as the HTTP handlers use it. The service is an
    oracle: each request gets the reply `reply` gives for it, and the client records
    every request it sends, in order. */
module Cognito {
  import opened Wrappers
  import opened Json
  import opened Py
  import opened Resp

  /** `{"Name": name, "Value": value}` */
  datatype Attr = Attr(name: string, value: Json)

  /** The requests, with the arguments the handlers pass (the random sign-up password is
      not recorded). An empty `clientMetadata` stands for none. */
  datatype Request =
    | AdminGetUser(userPoolId: string, username: string)
    | SignUp(clientId: string, username: string, attributes: seq<Attr>)
    | AdminConfirmSignUp(userPoolId: string, username: string)
    | AdminUpdateUserAttributes(userPoolId: string, username: string, attributes: seq<Attr>)
    | AdminInitiateAuth(userPoolId: string, clientId: string, username: string, clientMetadata: seq<Member>)
    | AdminRespondToAuthChallenge(userPoolId: string, clientId: string, username: string,
                                  answer: string, session: string)

  /** The exceptions a request can raise: the ones the handlers name, and any other
      `ClientError` or `BotoCoreError`. */
  datatype Fault =
    | UserNotFound
    | UsernameExists
    | InvalidParameter(message: string)
    | NotAuthorized
    | ExpiredCode
    | CodeMismatch
    | OtherFault(code: string)

  /** A reply: an exception, or the parts of the response dict the handlers read. A
      reply of another shape than the request expects reads as a dict without those
      keys. */
  datatype Reply =
    | Failed(fault: Fault)
    | Done
    | UserFound(userAttributes: seq<Attr>, userStatus: Option<string>)
    | AuthChallenge(challengeName: Option<string>, session: Option<string>, challengeParameters: seq<Member>)
    | AuthResult(authenticationResult: seq<Member>)

  type Oracle = Request -> Reply

  /** The exception a reply raises, if any. */
  function FaultOf(r: Reply): (f: Option<Fault>)
    ensures f.Some? <==> r.Failed?
  {
    if r.Failed? then Some(r.fault) else None
  }

  /** The user a request is about (`Username`). */
  function UsernameOf(q: Request): string {
    q.username
  }

  /** The requests a sequence of calls sent, and the exception that stopped it. */
  datatype Calls = Calls(requests: seq<Request>, fault: Option<Fault>)

  /** What an HTTP handler returns or raises, and the Cognito requests it sent in order. */
  datatype Outcome = Outcome(result: Result<HttpResponse, PyError>, requests: seq<Request>)

  /** `user.get("UserAttributes", [])` */
  function UserAttributesOf(r: Reply): seq<Attr> {
    if r.UserFound? then r.userAttributes else []
  }

  /** `user.get("UserStatus")` */
  function UserStatusOf(r: Reply): Option<string> {
    if r.UserFound? then r.userStatus else None
  }

  /** `{attr["Name"]: attr["Value"] for attr in attributes}.get(name)`: the last value
      stored under `name`. */
  function StoredValue(attributes: seq<Attr>, name: string): (r: Option<Json>)
    ensures r.None? <==> forall i | 0 <= i < |attributes| :: attributes[i].name != name
    ensures r.Some? ==> Attr(name, r.value) in attributes
  {
    if attributes == [] then None
    else if attributes[|attributes| - 1].name == name then Some(attributes[|attributes| - 1].value)
    else
      var r := StoredValue(attributes[..|attributes| - 1], name);
      assert forall i | 0 <= i < |attributes| - 1 :: attributes[..|attributes| - 1][i] == attributes[i];
      r
  }

  /** A boto3 `cognito-idp` client. */
  class Client {
    const reply: Oracle
    var requests: seq<Request>

    constructor(reply: Oracle)
      ensures this.reply == reply && requests == []
    {
      this.reply := reply;
      requests := [];
    }

    method Send(q: Request) returns (r: Reply)
      modifies this
      ensures requests == old(requests) + [q]
      ensures r == reply(q)
    {
      requests := requests + [q];
      r := reply(q);
    }
  }

  /** The token fields of `AuthenticationResult` and the body keys they are returned
      under, in the order of the response body. */
  const TokenFields: seq<(string, string)> := [
    ("AccessToken", "access_token"),
    ("IdToken", "id_token"),
    ("RefreshToken", "refresh_token"),
    ("ExpiresIn", "expires_in"),
    ("TokenType", "token_type")]

  /** One field of the body: present when the result holds a value other than `None`. */
  function KeepToken(authentication: seq<Member>, field: (string, string)): seq<Member> {
    match Lookup(authentication, field.0)
    case Some(v) => if v == JNull then [] else [Member(field.1, v)]
    case None => []
  }

  /** `{out: auth.get(in) ...}` with the `None` values then removed, over `fields`. */
  function RenamedTokens(authentication: seq<Member>, fields: seq<(string, string)>): seq<Member> {
    if fields == [] then []
    else RenamedTokens(authentication, fields[..|fields| - 1]) + KeepToken(authentication, fields[|fields| - 1])
  }

  /** The success body of `/auth/verify` and `/auth/google`. */
  function TokenBody(authentication: seq<Member>): seq<Member> {
    RenamedTokens(authentication, TokenFields)
  }

  predicate DistinctOutputs(fields: seq<(string, string)>) {
    forall i, j | 0 <= i < j < |fields| :: fields[i].1 != fields[j].1
  }

  /** Every body key holds the result's value for its field when that is not `None`, and
      is absent otherwise. */
  lemma {:induction false} RenamedTokensLookup(authentication: seq<Member>, fields: seq<(string, string)>, k: nat)
    requires DistinctOutputs(fields) && k < |fields|
    ensures Lookup(RenamedTokens(authentication, fields), fields[k].1) ==
      match Lookup(authentication, fields[k].0)
      case Some(v) => if v == JNull then None else Some(v)
      case None => None
    decreases |fields|
  {
    var init := fields[..|fields| - 1];
    var last := fields[|fields| - 1];
    var key := fields[k].1;
    var kept := KeepToken(authentication, last);
    assert RenamedTokens(authentication, fields) == RenamedTokens(authentication, init) + kept;
    if kept == [] {
      assert RenamedTokens(authentication, init) + kept == RenamedTokens(authentication, init);
    } else {
      LookupAppend(RenamedTokens(authentication, init), kept[0], key);
    }
    if k < |fields| - 1 {
      assert init[k] == fields[k];
      RenamedTokensLookup(authentication, init, k);
      assert last.1 != key;
      if kept == [] {
      } else {
        assert kept[0].key == last.1;
      }
    } else {
      if kept == [] {
        assert forall i | 0 <= i < |init| :: init[i].1 != key;
        RenamedTokensKeys(authentication, init);
      }
    }
  }

  /** The body only has keys named by `fields`, never with a `None` value. */
  lemma {:induction false} RenamedTokensKeys(authentication: seq<Member>, fields: seq<(string, string)>)
    ensures forall m | m in RenamedTokens(authentication, fields) ::
      m.value != JNull && exists i :: 0 <= i < |fields| && fields[i].1 == m.key
    decreases |fields|
  {
    if fields != [] {
      var init := fields[..|fields| - 1];
      RenamedTokensKeys(authentication, init);
      forall m | m in RenamedTokens(authentication, fields)
        ensures m.value != JNull && exists i :: 0 <= i < |fields| && fields[i].1 == m.key
      {
        if m in RenamedTokens(authentication, init) {
          var i :| 0 <= i < |init| && init[i].1 == m.key;
          assert fields[i] == init[i];
        } else {
          assert fields[|fields| - 1].1 == m.key;
        }
      }
    }
  }

  /** The five body keys are distinct. */
  lemma {:induction false} TokenFieldsDistinct()
    ensures DistinctOutputs(TokenFields)
  {
  }

  /** The token body: each of the five keys holds the value of its field when that is
      present and not `None`, and is absent otherwise. */
  lemma {:induction false} TokenBodyLookup(authentication: seq<Member>, k: nat)
    requires k < |TokenFields|
    ensures Lookup(TokenBody(authentication), TokenFields[k].1) ==
      match Lookup(authentication, TokenFields[k].0)
      case Some(v) => if v == JNull then None else Some(v)
      case None => None
  {
    TokenFieldsDistinct();
    RenamedTokensLookup(authentication, TokenFields, k);
  }

  /** No key other than the five appears in the token body, and none holds `None`. */
  lemma {:induction false} TokenBodyKeys(authentication: seq<Member>)
    ensures forall m | m in TokenBody(authentication) ::
      m.value != JNull && m.key in TokenKeys
  {
    RenamedTokensKeys(authentication, TokenFields);
    forall m | m in TokenBody(authentication)
      ensures m.key in TokenKeys
    {
      var i :| 0 <= i < |TokenFields| && TokenFields[i].1 == m.key;
      TokenKeyOf(i);
    }
  }

  /** The body keys, as a set. */
  const TokenKeys: set<string> := {"access_token", "id_token", "refresh_token", "expires_in", "token_type"}

  lemma {:induction false} TokenKeyOf(i: nat)
    requires i < |TokenFields|
    ensures TokenFields[i].1 in TokenKeys
  {
  }
}
