/** The DefineAuthChallenge trigger: from the session history Cognito passes in, decide
    whether to issue tokens, fail the authentication, or present another custom
    challenge. Only the last attempt is consulted, and the checks run in a fixed order:
    a correct answer, then the attempt ceiling, then the expiry. */
module DefineAuthChallenge {
  import opened Wrappers
  import opened PyStr
  import opened Json
  import opened Py
  import opened Config
  import opened Metadata
  import opened TriggerEvent

  const DefaultMaxAttempts := 5
  const MaxAttemptsVariable := "OTP_MAX_ATTEMPTS"

  datatype Decision = IssueTokens | FailAuthentication | PresentChallenge

  /** `max_attempts`: `OTP_MAX_ATTEMPTS`, or 5 when it is missing or not an integer. */
  function MaxAttempts(env: Env): (r: int)
    ensures MaxAttemptsVariable !in env ==> r == 5
    ensures MaxAttemptsVariable in env && IntOfString(env[MaxAttemptsVariable]).None? ==> r == 5
    ensures MaxAttemptsVariable in env && IntOfString(env[MaxAttemptsVariable]).Some? ==>
      r == IntOfString(env[MaxAttemptsVariable]).value
  {
    LoadInt(env, MaxAttemptsVariable, DefaultMaxAttempts)
  }

  /** `metadata.get("attempt") or len(session)`: the recorded attempt, unless it is
      missing or false (0, `""`, `null`, ...), in which case the length of the history. */
  function AttemptNumber(metadata: seq<Member>, sessionLength: nat): (r: Json)
    ensures Lookup(metadata, "attempt").Some? && Truthy(Lookup(metadata, "attempt").value) ==>
      r == Lookup(metadata, "attempt").value
    ensures Lookup(metadata, "attempt").None? || !Truthy(Lookup(metadata, "attempt").value) ==>
      r == JInt(sessionLength)
    ensures Truthy(r) || sessionLength == 0
  {
    match Lookup(metadata, "attempt")
    case Some(v) => if Truthy(v) then v else JInt(sessionLength)
    case None => JInt(sessionLength)
  }

  /** `expires_at and now > int(expires_at)`: a missing or false expiry never expires; a
      true one that `int()` cannot read raises. */
  function Expired(expiresAt: Option<Json>, now: int): (r: Result<bool, PyError>)
    ensures expiresAt.None? || !Truthy(expiresAt.value) ==> r == Ok(false)
    ensures expiresAt.Some? && Truthy(expiresAt.value) ==>
      (r.Ok? <==> PyInt(expiresAt.value).Ok?) &&
      (r.Ok? ==> r.value == (now > PyInt(expiresAt.value).value))
  {
    match expiresAt
    case None => Ok(false)
    case Some(v) =>
      if !Truthy(v) then Ok(false)
      else
        match PyInt(v)
        case Ok(e) => Ok(now > e)
        case Err(err) => Err(err)
  }

  /** The decision of `handler`, or the exception it raises. */
  function Decide(session: seq<ChallengeRecord>, maxAttempts: int, now: int): (r: Result<Decision, PyError>)
    ensures session == [] ==> r == Ok(PresentChallenge)
    ensures session != [] && Last(session).challengeResult ==> r == Ok(IssueTokens)
    ensures r == Ok(IssueTokens) <==> session != [] && Last(session).challengeResult
  {
    if session == [] then Ok(PresentChallenge)
    else
      var last := Last(session);
      var metadata := ParseMetadata(last.challengeMetadata);
      var attempt := AttemptNumber(metadata, |session|);
      if last.challengeResult then Ok(IssueTokens)
      else
        match AtLeast(attempt, maxAttempts)
        case Err(e) => Err(e)
        case Ok(exhausted) =>
          if exhausted then Ok(FailAuthentication)
          else
            match Expired(Lookup(metadata, "exp"), now)
            case Err(e) => Err(e)
            case Ok(expired) => if expired then Ok(FailAuthentication) else Ok(PresentChallenge)
  }

  /** The attempt number and the expiry of the last attempt, as `handler` reads them. */
  function LastAttemptNumber(session: seq<ChallengeRecord>): Json
    requires session != []
  {
    AttemptNumber(ParseMetadata(Last(session).challengeMetadata), |session|)
  }

  function LastExpiry(session: seq<ChallengeRecord>): Option<Json>
    requires session != []
  {
    Lookup(ParseMetadata(Last(session).challengeMetadata), "exp")
  }

  /** After a wrong answer, reaching the attempt ceiling fails the authentication,
      whatever the expiry. */
  lemma {:induction false} AttemptCeilingFails(session: seq<ChallengeRecord>, maxAttempts: int, now: int)
    requires session != [] && !Last(session).challengeResult
    requires AtLeast(LastAttemptNumber(session), maxAttempts) == Ok(true)
    ensures Decide(session, maxAttempts, now) == Ok(FailAuthentication)
  {
  }

  /** Without a recorded attempt number the length of the history counts: a history of
      at least `maxAttempts` wrong answers fails. */
  lemma {:induction false} HistoryLengthCounts(session: seq<ChallengeRecord>, maxAttempts: int, now: int)
    requires session != [] && !Last(session).challengeResult
    requires Lookup(ParseMetadata(Last(session).challengeMetadata), "attempt").None?
    requires |session| >= maxAttempts
    ensures Decide(session, maxAttempts, now) == Ok(FailAuthentication)
  {
  }

  /** Below the ceiling, the authentication fails exactly when the expiry has passed,
      and another challenge is presented exactly when it has not. */
  lemma {:induction false} ExpiryDecides(session: seq<ChallengeRecord>, maxAttempts: int, now: int)
    requires session != [] && !Last(session).challengeResult
    requires AtLeast(LastAttemptNumber(session), maxAttempts) == Ok(false)
    ensures Decide(session, maxAttempts, now) == Ok(FailAuthentication) <==>
      Expired(LastExpiry(session), now) == Ok(true)
    ensures Decide(session, maxAttempts, now) == Ok(PresentChallenge) <==>
      Expired(LastExpiry(session), now) == Ok(false)
  {
  }

  /** Expiry is strict: at the expiry second itself the code still counts, one second
      later it does not; an expiry of 0 never expires. */
  lemma {:induction false} ExpiryIsStrict(exp: int, now: int)
    ensures Expired(Some(JInt(exp)), exp) == Ok(false)
    ensures exp != 0 ==> Expired(Some(JInt(exp)), exp + 1) == Ok(true)
    ensures Expired(Some(JInt(0)), now) == Ok(false)
  {
  }

  /** The handler raises only after a wrong answer, on an attempt number it cannot
      compare or an expiry it cannot read. */
  lemma {:induction false} DecideRaises(session: seq<ChallengeRecord>, maxAttempts: int, now: int)
    requires Decide(session, maxAttempts, now).Err?
    ensures session != [] && !Last(session).challengeResult
    ensures AtLeast(LastAttemptNumber(session), maxAttempts).Err? ||
      (AtLeast(LastAttemptNumber(session), maxAttempts) == Ok(false) &&
       Expired(LastExpiry(session), now).Err?)
    ensures Decide(session, maxAttempts, now).error == TypeError ||
      Decide(session, maxAttempts, now).error == ValueError
  {
  }

  /** `event["response"]` after the handler decides `d`: both flags are first reset to
      false, then the one the decision names is set, or `challengeName` is. */
  function DefineResponse(before: map<string, Json>, d: Decision): map<string, Json> {
    var reset := before["issueTokens" := JBool(false)]["failAuthentication" := JBool(false)];
    match d
    case IssueTokens => reset["issueTokens" := JBool(true)]
    case FailAuthentication => reset["failAuthentication" := JBool(true)]
    case PresentChallenge => reset["challengeName" := JStr(CustomChallenge)]
  }

  /** The two flags are never both set; `challengeName` is written exactly when neither
      is, and otherwise keeps whatever Cognito put there. */
  lemma {:induction false} DefineResponseFlags(before: map<string, Json>, d: Decision)
    ensures var m := DefineResponse(before, d);
      && "issueTokens" in m && "failAuthentication" in m
      && m["issueTokens"].JBool? && m["failAuthentication"].JBool?
      && !(m["issueTokens"].b && m["failAuthentication"].b)
      && (m["issueTokens"].b <==> d == IssueTokens)
      && (m["failAuthentication"].b <==> d == FailAuthentication)
      && (d == PresentChallenge ==> m["challengeName"] == JStr(CustomChallenge))
      && (d != PresentChallenge ==>
            ("challengeName" in m <==> "challengeName" in before) &&
            ("challengeName" in before ==> m["challengeName"] == before["challengeName"]))
      && (forall k | k in before && k !in {"issueTokens", "failAuthentication", "challengeName"} ::
            k in m && m[k] == before[k])
  {
  }

  /** `handler(event, context)`: reads `OTP_MAX_ATTEMPTS`, resets both flags, and writes
      the decision into the response; a raised exception leaves the flags reset. */
  method Handle(env: Env, session: seq<ChallengeRecord>, now: int, response: EventResponse)
    returns (outcome: Result<Decision, PyError>)
    modifies response
    ensures outcome == Decide(session, MaxAttempts(env), now)
    ensures outcome.Ok? ==> response.fields == DefineResponse(old(response.fields), outcome.value)
    ensures outcome.Err? ==>
              response.fields ==
              old(response.fields)["issueTokens" := JBool(false)]["failAuthentication" := JBool(false)]
  {
    var maxAttempts := LoadInt(env, MaxAttemptsVariable, DefaultMaxAttempts);
    response.Set("issueTokens", JBool(false));
    response.Set("failAuthentication", JBool(false));

    if session == [] {
      response.Set("challengeName", JStr(CustomChallenge));
      return Ok(PresentChallenge);
    }

    var last := session[|session| - 1];
    var metadata := ParseMetadata(last.challengeMetadata);
    var expiresAt := Lookup(metadata, "exp");
    var attemptNumber := AttemptNumber(metadata, |session|);

    if last.challengeResult {
      response.Set("issueTokens", JBool(true));
      return Ok(IssueTokens);
    }

    var exhausted := AtLeast(attemptNumber, maxAttempts);
    if exhausted.Err? {
      return Err(exhausted.error);
    }
    if exhausted.value {
      response.Set("failAuthentication", JBool(true));
      return Ok(FailAuthentication);
    }

    var expired := Expired(expiresAt, now);
    if expired.Err? {
      return Err(expired.error);
    }
    if expired.value {
      response.Set("failAuthentication", JBool(true));
      return Ok(FailAuthentication);
    }

    response.Set("challengeName", JStr(CustomChallenge));
    return Ok(PresentChallenge);
  }
}
