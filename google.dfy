/** Google ID-token verification as the Google sign-in handler uses it. The signature,
    expiry and audience checks of `google-auth` are an oracle; the wrapper's own checks
    around it are modelled. */
module GoogleToken {
  import opened Wrappers
  import opened Json
  import opened Py

  /** The constant answer the Google flow gives the custom challenge. */
  const GoogleChallengeAnswer := "GOOGLE_LOGIN_OK"

  /** The issuers a token may come from. */
  const GoogleIssuers: set<string> := {"accounts.google.com", "https://accounts.google.com"}

  /** `google_id_token.verify_oauth2_token(token, request, audience)`: the decoded claims,
      or the message of the `ValueError` it raises. */
  type TokenVerifier = (string, string) -> Result<seq<Member>, string>

  /** `verify_id_token(token, audience)`. A list or dict issuer cannot be looked up in a
      set and raises `TypeError`. */
  function VerifyIdToken(verify: TokenVerifier, token: string, audience: string): (r: Result<seq<Member>, PyError>)
    ensures token == "" ==> r == Err(GoogleTokenError("Missing token"))
    ensures token != "" && audience == "" ==> r == Err(GoogleTokenError("Missing audience"))
    ensures r.Ok? <==>
      && token != "" && audience != "" && verify(token, audience).Ok?
      && Lookup(verify(token, audience).value, "iss").Some?
      && Lookup(verify(token, audience).value, "iss").value.JStr?
      && Lookup(verify(token, audience).value, "iss").value.s in GoogleIssuers
    ensures r.Ok? ==> r == Ok(verify(token, audience).value)
    ensures r.Err? ==> r.error.GoogleTokenError? || r.error == TypeError
  {
    if token == "" then Err(GoogleTokenError("Missing token"))
    else if audience == "" then Err(GoogleTokenError("Missing audience"))
    else
      match verify(token, audience)
      case Err(message) => Err(GoogleTokenError(message))
      case Ok(claims) =>
        match Lookup(claims, "iss")
        case Some(JStr(issuer)) =>
          if issuer in GoogleIssuers then Ok(claims) else Err(GoogleTokenError("Invalid token issuer"))
        case Some(JArray(_)) => Err(TypeError)
        case Some(JObject(_)) => Err(TypeError)
        case _ => Err(GoogleTokenError("Invalid token issuer"))
  }
}
