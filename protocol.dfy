/** How the three triggers work together across one sign-in: Create writes the private
    parameters and the metadata of an attempt, Cognito carries them to Verify and, in
    the session history, to the next Define and Create. */
module Protocol {
  import opened Wrappers
  import opened PyStr
  import opened Json
  import opened Py
  import opened Metadata
  import opened TriggerEvent
  import opened DefineAuthChallenge
  import opened VerifyAuthChallenge
  import opened CreateAuthChallenge
  import GoogleToken
  import Cognito
  import AuthGoogle

  /** The request Verify receives for the attempt Create wrote, answered with `answer`. */
  function VerifyAfterCreate(otp: string, exp: int, attempt: int, answer: Json): VerifyRequest {
    VerifyRequest(PrivateParameters(otp, exp, attempt), Some(EncodeMetadata(exp, attempt)), Some(answer))
  }

  /** Verify accepts the answer to a code Create issued exactly when it is that code and
      the code has not expired; a non-ASCII answer makes the comparison raise. */
  lemma {:induction false} CreatedCodeVerifies(otp: string, exp: int, attempt: int, answer: string, now: int)
    requires IsOtp(otp, OtpLength)
    ensures AnswerCorrect(VerifyAfterCreate(otp, exp, attempt, JStr(answer)), now) == Ok(true) <==>
      answer == otp && !(exp != 0 && now > exp)
    ensures exp != 0 && now > exp ==> AnswerCorrect(VerifyAfterCreate(otp, exp, attempt, JStr(answer)), now) == Ok(false)
    ensures AnswerCorrect(VerifyAfterCreate(otp, exp, attempt, JStr(answer)), now).Err? <==>
      !(exp != 0 && now > exp) && !IsAscii(answer)
  {
    PrivateParametersLookup(otp, exp, attempt);
    DecimalExpiry(exp, now);
    assert IsAscii(otp);
  }

  /** The record Cognito appends to the history after a wrong answer to the attempt
      Create numbered `attempt` with expiry `exp`. */
  function WrongAnswer(exp: int, attempt: int): ChallengeRecord {
    ChallengeRecord(CustomChallenge, false, Some(EncodeMetadata(exp, attempt)))
  }

  /** The number Define compares with the ceiling for an attempt Create numbered
      `attempt`: that number, or the length of the history when it is 0. */
  function CountedAttempt(attempt: int, historyLength: nat): int {
    if attempt != 0 then attempt else historyLength
  }

  /** On metadata Create wrote, Define never raises: after a wrong answer it fails the
      authentication exactly when the counted attempt reaches the ceiling or the code has
      expired, and presents another challenge otherwise. */
  lemma {:induction false} DefineAfterCreate(session: seq<ChallengeRecord>, exp: int, attempt: int, maxAttempts: int, now: int)
    ensures var s := session + [WrongAnswer(exp, attempt)];
      && Decide(s, maxAttempts, now).Ok?
      && (Decide(s, maxAttempts, now) == Ok(FailAuthentication) <==>
            CountedAttempt(attempt, |s|) >= maxAttempts || (exp != 0 && now > exp))
      && (Decide(s, maxAttempts, now) == Ok(PresentChallenge) <==>
            CountedAttempt(attempt, |s|) < maxAttempts && !(exp != 0 && now > exp))
  {
    var s := session + [WrongAnswer(exp, attempt)];
    assert Last(s) == WrongAnswer(exp, attempt);
    MetadataRoundTrip(exp, attempt);
  }

  /** A correct answer to any attempt issues the tokens. */
  lemma {:induction false} CorrectAnswerIssuesTokens(session: seq<ChallengeRecord>, metadata: Option<string>, maxAttempts: int, now: int)
    ensures Decide(session + [ChallengeRecord(CustomChallenge, true, metadata)], maxAttempts, now) == Ok(IssueTokens)
  {
    assert Last(session + [ChallengeRecord(CustomChallenge, true, metadata)]).challengeResult;
  }

  /** A history of wrong answers as Create numbered them: the attempt at position `i`
      carries the number `i + 1` and the expiry `exps[i]`. */
  function WrongAnswers(exps: seq<int>): (r: seq<ChallengeRecord>)
    ensures |r| == |exps|
    ensures forall i | 0 <= i < |r| :: r[i] == WrongAnswer(exps[i], i + 1)
  {
    seq(|exps|, i requires 0 <= i < |exps| => WrongAnswer(exps[i], i + 1))
  }

  /** Create numbers the attempt after such a history one past its length, so the
      history grows the same way with each attempt. */
  lemma {:induction false} AttemptsCountUp(exps: seq<int>, exp: int)
    ensures NextAttempt(WrongAnswers(exps)) == Ok(|exps| + 1)
    ensures WrongAnswers(exps + [exp]) ==
      WrongAnswers(exps) + [WrongAnswer(exp, NextAttempt(WrongAnswers(exps)).value)]
  {
    if exps != [] {
      NextAttemptAfterCreate(WrongAnswers(exps), exps[|exps| - 1], |exps|);
    }
    assert WrongAnswers(exps + [exp]) == WrongAnswers(exps) + [WrongAnswer(exp, |exps| + 1)];
  }

  /** After `n` wrong answers to codes Create issued, Define fails the authentication
      exactly when `n` has reached the ceiling or the last code has expired. */
  lemma {:induction false} CeilingAfterWrongAnswers(exps: seq<int>, maxAttempts: int, now: int)
    requires exps != []
    ensures var e := exps[|exps| - 1];
      && Decide(WrongAnswers(exps), maxAttempts, now).Ok?
      && (Decide(WrongAnswers(exps), maxAttempts, now) == Ok(FailAuthentication) <==>
            |exps| >= maxAttempts || (e != 0 && now > e))
  {
    var n := |exps|;
    var e := exps[n - 1];
    var prefix := exps[..n - 1];
    AttemptsCountUp(prefix, e);
    assert prefix + [e] == exps;
    DefineAfterCreate(WrongAnswers(prefix), e, n, maxAttempts, now);
  }

  /** Google sign-in answers the challenge with a fixed word, which is never a code
      Create issued: Verify rejects it. */
  lemma {:induction false} GoogleAnswerRejected(otp: string, exp: int, attempt: int, now: int)
    requires IsOtp(otp, OtpLength)
    ensures AnswerCorrect(VerifyAfterCreate(otp, exp, attempt, JStr(GoogleToken.GoogleChallengeAnswer)), now) == Ok(false)
  {
    GoogleAnswerText();
    CreatedCodeVerifies(otp, exp, attempt, GoogleToken.GoogleChallengeAnswer, now);
  }

  /** The fixed word is ASCII and longer than a code. */
  lemma {:induction false} GoogleAnswerText()
    ensures |GoogleToken.GoogleChallengeAnswer| > OtpLength
    ensures IsAscii(GoogleToken.GoogleChallengeAnswer)
  {
  }

  /** A user whose attributes are only those Google sign-in sets (and the `sub` Cognito
      adds) has no phone number, so Create has nowhere to send the code and raises. */
  lemma {:induction false} GoogleUserHasNoPhone(claims: seq<Member>, userAttributes: map<string, string>)
    requires forall k | k in userAttributes ::
      k == "sub" || Cognito.StoredValue(AuthGoogle.GoogleAttributes(claims), k).Some?
    ensures DeliveryPhone(userAttributes).None?
  {
    AuthGoogle.GoogleAttributeNames(claims);
  }
}
