# Offers phone and Google sign-in, modelled in Dafny

This project models the passwordless sign-in of the Offers API. The model covers:

- How a client signs in.
  - `POST /auth/start` makes sure a Cognito user exists for a phone number and starts Cognito's custom authentication flow.
  - Cognito's three custom-authentication triggers then take over:
    - **Create** draws a six-digit code, stores it with an expiry and an attempt number, and sends it by SMS.
    - **Verify** compares the client's answer with the stored code.
    - **Define** decides after each answer whether to issue tokens, fail the authentication, or present another challenge.
  - `POST /auth/verify` answers the challenge and returns the tokens.
  - `POST /auth/google` verifies a Google ID token, keeps a `google:<sub>` user with the token's profile attributes, and answers the challenge with a fixed word.
- The helpers these pieces share: phone-number trimming and the E.164 check, the JSON proxy response, and a JSON encoder and decoder.
- Two configuration rules:
  - the list of CORS origins read by the FastAPI backend and by the CDK application;
  - when the backend allows credentials.
- How the backend reads the JWT claims from a request.

## How it is modelled

**Triggers.** Each trigger is a pure decision function (`DefineAuthChallenge.Decide`, `VerifyAuthChallenge.AnswerCorrect`) plus a method that writes that decision into the event's `response`.
- The `response` is a class (`TriggerEvent.EventResponse`) whose field map the triggers update in place, as the Lambda functions do.
- Create also publishes through an SMS gateway object that records every message.

**Cognito.** The service is an oracle:
- a reply function decides what each request gets;
- a client object records the requests in the order they are sent.

**Handlers.** Each HTTP handler has three parts:
- a function that gives its response and the requests it sends, for a given reply function;
- for the handlers that call the imperative user-provisioning code, a method on the client proved equal to that function;
- lemmas that state what the source promises about it.

**JSON.** Values decoded from JSON (`Json.Json`) carry Python's dynamic typing. Where the Python code would raise on a value of the wrong type (`int(None)`, `"1" >= 5`, `.strip()` on a number), the model returns the exception (`Py.PyError`).

**Derived facts.** Proving the three triggers together (module `Protocol`) gives two properties of the system as a whole:
- Verify accepts an answer to a code Create issued exactly when it is that code and it has not expired.
- Google sign-in cannot get through these triggers:
  - Verify rejects the fixed answer `GOOGLE_LOGIN_OK` (`Protocol.GoogleAnswerRejected`);
  - a user holding only the attributes Google sign-in sets has no phone number, so Create raises before sending anything (`Protocol.GoogleUserHasNoPhone`).

  The Google flow can therefore only succeed if the deployed user pool uses other triggers for such users. Those triggers are not part of this model.

**Time and randomness.**
- The current time is a parameter (`now`).
- The random code is an arbitrary choice below `10^6`.
- The environment is a map from names to values.

## Model

| member | source | states |
|---|---|---|
| DefineAuthChallenge.MaxAttempts | lambdas/auth/define_auth_challenge.py:10-17 | the ceiling is the integer `OTP_MAX_ATTEMPTS` reads as when it is set and readable, and 5 when the variable is missing or not an integer |
| DefineAuthChallenge.AttemptNumber | lambdas/auth/define_auth_challenge.py:53 | the recorded attempt when it is true, otherwise the length of the history |
| DefineAuthChallenge.Expired | lambdas/auth/define_auth_challenge.py:63 | a missing or false expiry never expires; a true one is compared with `now` after `int()`, whose failure is the result |
| DefineAuthChallenge.Decide | lambdas/auth/define_auth_challenge.py:44-67 | an empty history presents a challenge; tokens are issued exactly when the last answer was correct |
| DefineAuthChallenge.AttemptCeilingFails | lambdas/auth/define_auth_challenge.py:59-61 | after a wrong answer, reaching the ceiling fails the authentication whatever the expiry |
| DefineAuthChallenge.HistoryLengthCounts | lambdas/auth/define_auth_challenge.py:53-61 | with no recorded attempt, a history at least as long as the ceiling fails |
| DefineAuthChallenge.ExpiryDecides | lambdas/auth/define_auth_challenge.py:63-67 | below the ceiling, it fails exactly when the code expired and presents a challenge exactly when it did not |
| DefineAuthChallenge.ExpiryIsStrict | lambdas/auth/define_auth_challenge.py:63 | at the expiry second the code is still valid and one second later it is not; an expiry of 0 never expires |
| DefineAuthChallenge.DecideRaises | lambdas/auth/define_auth_challenge.py:55-65 | the handler raises only after a wrong answer, on an attempt it cannot compare or an expiry it cannot read, and only `TypeError` or `ValueError` |
| DefineAuthChallenge.DefineResponseFlags | lambdas/auth/define_auth_challenge.py:36-67 | the two flags are never both set; each is set exactly for its decision; `challengeName` is written exactly for a new challenge; other keys are kept |
| DefineAuthChallenge.Handle | lambdas/auth/define_auth_challenge.py:32-68 | the flags are reset, then the decision of `Decide` is written into the response; an exception leaves only the reset |
| Metadata.ParseMetadata | lambdas/auth/define_auth_challenge.py:20-29 | blank, malformed or non-object text gives `{}`; JSON text of an object gives that object; within the modelled JSON it never raises |
| Metadata.MetadataRoundTrip | lambdas/auth/create_auth_challenge.py:69-74 | decoding the metadata Create writes gives back its expiry and its attempt number |
| Config.LoadInt | lambdas/auth/create_auth_challenge.py:23-27 | the variable read as an integer, or the fallback when it is missing or unreadable |
| Config.LoadIntOfDecimal | lambdas/auth/create_auth_challenge.py:23-27 | a variable holding the decimal text of `n` configures `n` |
| Config.RequireEnv | lambdas/http/auth_start.py:26-30 | a missing or empty variable raises `RuntimeError` naming it; otherwise its value |
| Config.DevEchoIff | lambdas/auth/create_auth_challenge.py:52 | dev echo is on exactly for `true` in any mix of letter cases |
| CreateAuthChallenge.FormatOtpDigits | lambdas/auth/create_auth_challenge.py:42-44 | a code below `10^width` is written as exactly `width` digits whose value is the code |
| CreateAuthChallenge.GenerateOtp | lambdas/auth/create_auth_challenge.py:42-44 | the code is 6 decimal digits, zero-padded text of a value below `10^6` |
| CreateAuthChallenge.NextAttempt | lambdas/auth/create_auth_challenge.py:54-56 | 1 for an empty history or no recorded attempt; else the recorded attempt plus one, or the `int()` error |
| CreateAuthChallenge.NextAttemptAfterCreate | lambdas/auth/create_auth_challenge.py:54-56 | after an attempt whose metadata Create wrote, the next attempt is numbered one higher |
| CreateAuthChallenge.PublicParametersFacts | lambdas/auth/create_auth_challenge.py:76-81 | the public parameters name SMS and carry `dev_otp`, holding the code, exactly when dev echo is on |
| CreateAuthChallenge.PrivateParametersFacts | lambdas/auth/create_auth_challenge.py:61-65 | the private parameters hold the code, and `int()` reads back the expiry and the attempt |
| CreateAuthChallenge.DeliveryPhone | lambdas/auth/create_auth_challenge.py:83-88 | there is no SMS number exactly when `phone_number` is missing or blank once trimmed; the number is trimmed |
| CreateAuthChallenge.SmsGateway.Publish | lambdas/auth/create_auth_challenge.py:92-108 | the message is recorded and the gateway's verdict returned |
| CreateAuthChallenge.Handle | lambdas/auth/create_auth_challenge.py:47-115 | an unreadable attempt raises before anything is written. Otherwise it writes a fresh code, the expiry `now + ttl` and the attempt, then sends the SMS: no number raises `RuntimeError` with nothing sent, and a rejected publish raises the service error |
| VerifyAuthChallenge.ExpiryValue | lambdas/auth/verify_auth_challenge.py:39 | the private expiry when it is true, otherwise the metadata's |
| VerifyAuthChallenge.UnreadableExpiryIgnored | lambdas/auth/verify_auth_challenge.py:45-49 | an expiry `int()` cannot read never expires the code |
| VerifyAuthChallenge.DecimalExpiry | lambdas/auth/verify_auth_challenge.py:45-52 | an expiry written as the text of `e` expires exactly when `e` is non-zero and `now` is past it |
| VerifyAuthChallenge.CompareDigest | lambdas/auth/verify_auth_challenge.py:59 | equality of the two strings; `TypeError` when either holds a non-ASCII character |
| VerifyAuthChallenge.AnswerCorrect | lambdas/auth/verify_auth_challenge.py:27-62 | true exactly when an answer is stored, the code has not expired, an answer is given and both are equal as strings; false when either is missing or the code expired |
| VerifyAuthChallenge.MetadataNeverSuppliesAnswer | lambdas/auth/verify_auth_challenge.py:37-43 | the expected answer comes only from the private parameters; a true private expiry makes the metadata irrelevant |
| VerifyAuthChallenge.Handle | lambdas/auth/verify_auth_challenge.py:27-62 | `answerCorrect` is written, true exactly when `AnswerCorrect` is, and nothing else changes |
| Protocol.CreatedCodeVerifies | lambdas/auth/verify_auth_challenge.py:37-60 | Verify accepts an answer to a code Create issued exactly when it equals the code and the code has not expired; only a non-ASCII answer raises |
| Protocol.DefineAfterCreate | lambdas/auth/define_auth_challenge.py:49-67 | on metadata Create wrote, Define never raises, and fails exactly when the counted attempt reaches the ceiling or the code expired |
| Protocol.CorrectAnswerIssuesTokens | lambdas/auth/define_auth_challenge.py:55-57 | a correct answer issues the tokens whatever its metadata |
| Protocol.WrongAnswers | lambdas/auth/create_auth_challenge.py:54-56 | the history of wrong answers carries the attempt number `i + 1` at position `i` |
| Protocol.AttemptsCountUp | lambdas/auth/create_auth_challenge.py:54-56 | after such a history Create numbers the next attempt one past its length |
| Protocol.CeilingAfterWrongAnswers | lambdas/auth/define_auth_challenge.py:53-65 | after `n` wrong answers to codes Create issued, Define fails exactly when `n` reaches the ceiling or the last code expired |
| Protocol.GoogleAnswerRejected | lambdas/http/auth_google.py:193-203 | Verify rejects the fixed Google answer for every code Create issues |
| Protocol.GoogleAnswerText | lambdas/common/google.py:13 | the fixed answer is ASCII and longer than a code |
| Protocol.GoogleUserHasNoPhone | lambdas/http/auth_google.py:31-60 | a user holding only the Google profile attributes has no SMS number for Create |
| Phone.Normalize | lambdas/common/phone.py:10-15 | `None` stays `None`; a string is trimmed |
| Phone.NormalizeIdempotent | lambdas/common/phone.py:10-15 | normalizing twice is normalizing once |
| Phone.ValidateE164 | lambdas/common/phone.py:7-21 | an accepted string is `+`, a digit 1 to 9, then 6 to 14 digits |
| Phone.ValidIsStripped | lambdas/common/phone.py:7-21 | an accepted number is left unchanged by normalizing |
| Phone.ValidIsNumber | lambdas/common/phone.py:7-21 | an accepted string is `+` followed by the decimal text of a number with 7 to 15 digits |
| Phone.AcceptedDigits | lambdas/common/phone.py:7-21 | after the plus sign come 7 to 15 digits, the first not `0` |
| Phone.NumberIsValid | lambdas/common/phone.py:7-21 | `+` and the decimal text of a number with 7 to 15 digits is accepted |
| Phone.E164Numbers | lambdas/common/phone.py:7-21 | the accepted strings are exactly those written as `+` and a number with 7 to 15 digits |
| Resp.JsonResponse | lambdas/common/resp.py:13-31 | the body is empty for no payload and otherwise decodes back to the payload. The headers are the defaults overridden by the caller's; `Content-Type` stays JSON unless the caller overrides it |
| Resp.ErrorResponse | lambdas/common/resp.py:34-37 | the default headers, and a body decoding to `{"error": message}` |
| Resp.ErrorMessageOf | lambdas/common/resp.py:34-37 | the message read back from an error response's body is the message |
| JsonRoundTrip.LoadsDumps | lambdas/common/resp.py:21 | `json.loads(json.dumps(v)) == v` for every modelled JSON value |
| Json.Lookup | lambdas/auth/verify_auth_challenge.py:37-38 | `dict.get`: `None` exactly when the key is absent; otherwise a value stored under the key |
| GoogleToken.VerifyIdToken | lambdas/common/google.py:22-40 | an empty token or an empty audience is refused first. The claims are returned exactly when the verifier accepts and the issuer is one of Google's two; otherwise a token error or `TypeError` |
| HttpRequest.ParseBody | lambdas/http/auth_verify.py:29-32 | a missing or empty body reads as `{}`; any other body is decoded |
| HttpRequest.PayloadGet | lambdas/http/auth_verify.py:34-36 | `get` on a non-object payload raises `AttributeError` |
| HttpRequest.NormalizeValue | lambdas/http/auth_verify.py:34 | missing or `null` gives no phone; a string is trimmed; any other value raises `AttributeError` |
| Py.PyInt | lambdas/auth/verify_auth_challenge.py:46 | `int()` on decoded values: integers as they are, booleans as 0/1, strings as read; other types raise `TypeError` |
| Py.PyIntOfDecimal | lambdas/auth/create_auth_challenge.py:61-65 | `int(str(i)) == i` |
| Py.AtLeast | lambdas/auth/define_auth_challenge.py:59 | `v >= n` is defined exactly for integers and booleans; anything else raises `TypeError` |
| Py.StripOrEmpty | lambdas/http/auth_verify.py:35 | a false value gives `""`, a string is trimmed, any other true value raises |
| AuthVerify.ReadInput | lambdas/http/auth_verify.py:34-36 | the phone, code and session are read; it raises exactly when the payload is not an object or a field has the wrong type |
| AuthVerify.InputError | lambdas/http/auth_verify.py:38-43 | no error exactly when the phone is E.164, the code is six digits and the session is true; otherwise a 400 |
| AuthVerify.ChallengeFaultResponse | lambdas/http/auth_verify.py:61-72 | the three named faults give 401, any other gives 502 |
| AuthVerify.ReplyResponse | lambdas/http/auth_verify.py:74-93 | 200 exactly when the reply holds an authentication result, with the token body; else 401 or the fault's response |
| AuthVerify.Handle | lambdas/http/auth_verify.py:26-93 | invalid JSON gives the 400 with no request; at most one request is sent, and a 200 needs it |
| AuthVerify.Answer | lambdas/http/auth_verify.py:34-93 | at most one request, sent only with a valid phone, code and session and the configured pool and client; its reply decides the result, and a 200 needs that request |
| AuthVerify.ValidationFirst | lambdas/http/auth_verify.py:38-43 | the first failing check, in the order phone, code, session, decides the 400 message and no request is sent |
| AuthVerify.ValidInputAnswersChallenge | lambdas/http/auth_verify.py:45-60 | valid input sends exactly the challenge answer with the trimmed phone and code |
| AuthVerify.MissingConfigurationRaises | lambdas/http/auth_verify.py:45-46 | a missing pool or client id raises `RuntimeError` and sends nothing |
| Cognito.FaultOf | lambdas/http/auth_start.py:38-65 | a reply raises exactly when it is a fault |
| Cognito.StoredValue | lambdas/http/auth_start.py:67 | the attribute map lookup is absent exactly when no attribute has the name, and otherwise holds a stored value |
| Cognito.Client.Send | lambdas/http/auth_start.py:38-80 | each request is recorded in order and gets the oracle's reply |
| Cognito.RenamedTokensLookup | lambdas/http/auth_verify.py:82-91 | each body key holds its field's value when that is present and not `None`, and is absent otherwise |
| Cognito.RenamedTokensKeys | lambdas/http/auth_verify.py:82-91 | the body holds no other keys and no `None` values |
| Cognito.TokenBodyLookup | lambdas/http/auth_verify.py:82-91 | the five token keys of the body hold the result's non-`None` values |
| Cognito.TokenBodyKeys | lambdas/http/auth_verify.py:82-91 | the token body has only the five keys and no `None` values |
| AuthStart.PhoneUpdates | lambdas/http/auth_start.py:67-72 | each update is sent exactly when its stored value is out of date; none when both are current |
| AuthStart.Provision | lambdas/http/auth_start.py:33-80 | the first request looks the user up; every request is about the phone; an escaping fault is the last reply's |
| AuthStart.EnsureUser | lambdas/http/auth_start.py:33-80 | the requests sent and the fault raised are those of `Provision` |
| AuthStart.UnknownUserIsCreated | lambdas/http/auth_start.py:38-62 | an unknown user is signed up with the phone (tolerating an existing username), confirmed, then given the verified phone |
| AuthStart.ExistingUserIsBroughtUpToDate | lambdas/http/auth_start.py:67-80 | for a known user, an update is sent exactly when something is out of date, and a confirmation exactly when unconfirmed; never a sign-up |
| AuthStart.StartFaultResponse | lambdas/http/auth_start.py:114-119 | an invalid parameter gives 400 with its message; any other fault gives 502 |
| AuthStart.StartBody | lambdas/http/auth_start.py:133-140 | the body holds the session and phone, and `dev_otp` exactly when dev echo is on and the challenge carries a true one |
| AuthStart.ChallengeResponse | lambdas/http/auth_start.py:121-142 | 200 exactly for a custom challenge with a session, with that body; otherwise the 502 |
| AuthStart.Authenticate | lambdas/http/auth_start.py:103-142 | a provisioning fault stops the flow; otherwise the flow is started; a failed start maps to its 400 or 502 fault response, and a successful one to the challenge response (200 with the session, the phone and the echoed code exactly for a custom challenge with a non-empty session, 502 otherwise); every request is about the phone |
| AuthStart.BeginAuthentication | lambdas/http/auth_start.py:101-142 | the response and the requests are those of `Authenticate` |
| AuthStart.CheckPhone | lambdas/http/auth_start.py:86-95 | invalid JSON, a blank phone and a non-E.164 phone give a 400; a valid trimmed phone goes on |
| AuthStart.Start | lambdas/http/auth_start.py:83-142 | every request is about a valid E.164 phone; a rejected body or phone gives a 400 and missing configuration raises `RuntimeError`, both sending nothing; otherwise the flow goes on with the configuration |
| AuthStart.Handle | lambdas/http/auth_start.py:83-142 | the result and the requests are those of `Start` |
| AuthStart.PhoneChecksFirst | lambdas/http/auth_start.py:91-95 | a blank phone is reported as missing before its format is checked, and neither sends a request |
| AuthStart.StartedAfterProvisioning | lambdas/http/auth_start.py:97-142 | the flow is started for the trimmed phone only after provisioning succeeds; faults map to 400 or 502; a successful start for a valid, configured request gives the challenge response |
| AuthGoogle.ClaimValue | lambdas/http/auth_google.py:36-58 | `email_verified` gives `"true"`/`"false"` whenever it is not `None`; the other claims are kept when true |
| AuthGoogle.ClaimAttributesLookup | lambdas/http/auth_google.py:31-60 | with distinct names, each attribute holds its claim's derived value |
| AuthGoogle.GoogleAttributeValue | lambdas/http/auth_google.py:31-60 | each profile claim gives its attribute exactly when `_normalize_attributes` emits it |
| AuthGoogle.GoogleAttributeNames | lambdas/http/auth_google.py:31-60 | only profile attributes are set; never a phone number |
| AuthGoogle.NormalizeAttributes | lambdas/http/auth_google.py:31-60 | the attributes are the profile claims' derived attributes, in order |
| AuthGoogle.ChangedAttributesMembers | lambdas/http/auth_google.py:99-103 | an attribute is updated exactly when it is wanted and its stored value differs |
| AuthGoogle.NothingChanged | lambdas/http/auth_google.py:99-105 | no update is needed exactly when every wanted attribute is stored as it is |
| AuthGoogle.AttributeUpdates | lambdas/http/auth_google.py:99-103 | the loop's updates are the changed attributes, in order |
| AuthGoogle.ProvisionGoogle | lambdas/http/auth_google.py:63-114 | the first request looks the user up; every request is about the username; an escaping fault is the last reply's |
| AuthGoogle.EnsureGoogleUser | lambdas/http/auth_google.py:63-114 | the requests sent and the fault raised are those of `ProvisionGoogle` |
| AuthGoogle.UnknownGoogleUserIsCreated | lambdas/http/auth_google.py:72-94 | an unknown user is signed up with the profile attributes, an existing username tolerated, then confirmed; the attributes are written again exactly when there are some, and only that write's failure escapes |
| AuthGoogle.ExistingGoogleUserIsBroughtUpToDate | lambdas/http/auth_google.py:99-114 | an update is sent exactly when some wanted attribute is out of date and carries those; a confirmation exactly when unconfirmed |
| AuthGoogle.Username | lambdas/http/auth_google.py:148 | the username is `google:` followed by the subject |
| AuthGoogle.UsernamesAreSeparate | lambdas/http/auth_google.py:148 | distinct subjects give distinct usernames, and none is a valid phone number |
| AuthGoogle.GoogleReplyResponse | lambdas/http/auth_google.py:193-227 | any fault gives 502; 200 exactly with an authentication result, with the token body |
| AuthGoogle.AnswerChallenge | lambdas/http/auth_google.py:162-206 | the flow is started for the username with the login metadata; the challenge is answered, with the fixed word and the returned session, exactly when the start gave a custom challenge with a non-empty session; otherwise a failed start maps to its fault response and any other reply to the 502 unexpected response; a 200 needs both requests |
| AuthGoogle.Federate | lambdas/http/auth_google.py:153-227 | a provisioning fault stops it with 400 or 502; otherwise the flow follows; every request is about the username |
| AuthGoogle.SignIn | lambdas/http/auth_google.py:133-160 | a refused token or a missing subject gives 401, a missing email 400, both with no request; otherwise the user is provisioned with the profile attributes |
| AuthGoogle.CheckToken | lambdas/http/auth_google.py:120-127 | invalid JSON and a blank token give a 400; a trimmed token goes on |
| AuthGoogle.GoogleSignIn | lambdas/http/auth_google.py:117-227 | invalid JSON or a blank token gives a 400 with no request; a token that goes on is signed in with the configuration |
| AuthGoogle.Configured | lambdas/http/auth_google.py:129-131 | a missing Google client id, pool id or client id raises `RuntimeError` before anything is sent; with all three the sign-in goes on with them |
| AuthGoogle.CompleteSignIn | lambdas/http/auth_google.py:153-227 | the response and the requests are those of `Federate` |
| AuthGoogle.StartAndAnswer | lambdas/http/auth_google.py:162-227 | the response and the requests are those of `AnswerChallenge` |
| AuthGoogle.VerifyAndSignIn | lambdas/http/auth_google.py:133-227 | the result and the requests are those of `SignIn` |
| AuthGoogle.Handle | lambdas/http/auth_google.py:117-227 | the result and the requests are those of `GoogleSignIn` |
| Backend.ParseAllowedOrigins | backend/main.py:23-28 | blank or `*` gives the wildcard alone; otherwise the trimmed non-empty comma pieces, none empty or holding a comma |
| Backend.OriginsListed | backend/main.py:28 | an origin is listed exactly when some comma piece trims to it |
| Backend.OriginsInOrder | backend/main.py:28 | pieces are kept in the order written |
| Backend.ParseJoinedOrigins | backend/main.py:23-28 | a list of trimmed origins written comma-separated reads back as the same list |
| Backend.CredentialsUnlessWildcard | backend/main.py:81-88 | credentials are refused exactly when the setting is blank, is `*`, or has a piece that trims to `*` |
| Backend.GetOrEmpty | backend/main.py:51-55 | `get(key, {})` succeeds exactly on a dict |
| Backend.ExtractJwtClaims | backend/main.py:46-58 | the claims at the nested path when every level is a dict holding the next key; `{}` otherwise, including on `AttributeError` |
| Backend.ChainIsNested | backend/main.py:49-58 | the chain of `get`s with its `AttributeError` fallback equals the nested lookup |
| Infra.ParseAllowedOrigins | infra/app.py:8-17 | a false value gives none; a string gives the trimmed pieces or the wildcard; a list is kept; any other value raises `ValueError` |
| Infra.SameOriginsAsBackend | infra/app.py:8-14 | for a non-empty string the CDK application and the backend read the same origins; an empty string gives none in one and the wildcard in the other |
| TriggerEvent.EventResponse.Set | lambdas/auth/define_auth_challenge.py:36-46 | one key is written and the others are kept |

## Left out

- Floating-point numbers, `NaN`, `Infinity` and lone surrogate escapes are not decoded: `json.loads` of such text is modelled as a decoding failure.
- `str(list)` and `str(dict)` are written as JSON text rather than Python's `repr`. Only the faithful cases (strings, integers, booleans, `None`) matter for the comparisons the triggers make.
- `\d` in the E.164 pattern and `str.isdigit` are modelled for ASCII digits only; Python's `\d` also accepts other Unicode decimal digits, and `str.isdigit` accepts every Unicode digit, superscripts and circled digits included, so a code such as `"12345²"` passes the source's check and is sent to Cognito while the model answers 400.
- PyStr.IntOfString, Py.PyInt: `int()` of a string is modelled for ASCII digits only; Python also reads other Unicode decimal digits (`int("٣") == 3`), so `OTP_MAX_ATTEMPTS`, a string expiry or a string attempt written with such digits is read by the source and refused by the model (`MaxAttempts` then gives 5, `Expired` and `NextAttempt` give a `ValueError`, and Verify treats such an expiry as unreadable and never expired).
- HttpRequest.ParseBody: Python's limit on integer text of more than 4300 digits is not modelled; `json.loads` of a request body holding such a literal raises a `ValueError` that is not a decoding error, so it escapes the `JSONDecodeError` handlers of `auth_start`, `auth_verify` and `auth_google`, while the model decodes the number and the handler goes on.
- `hmac.compare_digest` is modelled by its result and its `TypeError` on non-ASCII strings; its constant running time is not modelled.
- Reading the clock (`time.time()`), the random draw (`secrets.randbelow`) and the environment are parameters. The random sign-up password (`secrets.token_urlsafe`) is not recorded in the requests.
- Cognito, SNS and Google's token check (`verify_oauth2_token`) are oracles: a reply depends only on the request, and the service's own state is not modelled.
- Event shapes are typed. The session history is a sequence of records, the user attributes a map from names to strings, and the private parameters a JSON object. A malformed trigger event that would raise `KeyError` or `AttributeError` in Python is not modelled.
- Config.LoadInt, DefineAuthChallenge.MaxAttempts: Python's limit on converting integer text of more than 4300 digits is not modelled; `int()` of such a value raises `ValueError`, so the source falls back to the default, while the model reads the number.
- Metadata.ParseMetadata: for the same limit, `json.loads` of metadata holding an integer of more than 4300 digits raises a `ValueError` that is not a decoding error, so `_parse_metadata` lets it escape; the model reads the number and never raises.
- GoogleToken.VerifyIdToken: only the `ValueError` refusals of `verify_oauth2_token` are modelled; any other exception it raises (a transport error while fetching Google's certificates, say) escapes `verify_id_token` and the handler, and the model's `TokenVerifier` parameter, which returns claims or a `ValueError` message, cannot produce one.
- `_parse_metadata`, `_load_int` and `_env` appear once per source file; each is modelled once (`Metadata.ParseMetadata`, `Config.LoadInt`, `Config.RequireEnv`).
- For `/auth/verify`, botocore's parameter validation of a non-string `Session` is modelled as the 502 response with no request sent. Other client-side validation errors are not modelled.
- The message of `InvalidParameterException`, `str(exc)`, is the fault's message.
- Logging, the SMS message attributes, Lambda's reporting of exceptions, concurrency and recursion depth are not modelled.
- The rest of the backend (item CRUD, DynamoDB), `infra/api_stack.py` and `/auth/refresh` are not part of this model.
