/** The VerifyAuthChallengeResponse trigger: compare the answer the client supplied with
    the code Create stored in the private challenge parameters, unless that code has
    expired. */
module VerifyAuthChallenge {
  import opened Wrappers
  import opened PyStr
  import opened Json
  import opened Py
  import opened Metadata
  import opened TriggerEvent

  /** The parts of `event["request"]` the trigger reads: the private challenge parameters
      (`{}` when absent or empty), the metadata string, and the client's answer. */
  datatype VerifyRequest = VerifyRequest(
    privateParameters: seq<Member>,
    challengeMetadata: Option<string>,
    challengeAnswer: Option<Json>)

  /** `private_params.get("exp") or metadata.get("exp")`: the private expiry unless it is
      missing or false, in which case the metadata's. */
  function ExpiryValue(privateParameters: seq<Member>, metadata: seq<Member>): (r: Option<Json>)
    ensures Lookup(privateParameters, "exp").Some? && Truthy(Lookup(privateParameters, "exp").value) ==>
      r == Lookup(privateParameters, "exp")
    ensures Lookup(privateParameters, "exp").None? || !Truthy(Lookup(privateParameters, "exp").value) ==>
      r == Lookup(metadata, "exp")
  {
    match Lookup(privateParameters, "exp")
    case Some(v) => if Truthy(v) then Some(v) else Lookup(metadata, "exp")
    case None => Lookup(metadata, "exp")
  }

  /** The expiry guard: a true expiry that `int()` reads as a non-zero time before `now`.
      An expiry `int()` cannot read is ignored. */
  predicate IsExpired(exp: Option<Json>, now: int) {
    && exp.Some? && Truthy(exp.value)
    && PyInt(exp.value).Ok?
    && PyInt(exp.value).value != 0
    && now > PyInt(exp.value).value
  }

  /** An expiry that does not parse never expires the code. */
  lemma {:induction false} UnreadableExpiryIgnored(v: Json, now: int)
    requires PyInt(v).Err?
    ensures !IsExpired(Some(v), now)
  {
  }

  /** An expiry written as the decimal text of `e` expires exactly when `e` is non-zero
      and `now` is past it. */
  lemma {:induction false} DecimalExpiry(e: int, now: int)
    ensures IsExpired(Some(JStr(IntToDecimal(e))), now) <==> e != 0 && now > e
  {
    PyIntOfDecimal(e);
  }

  predicate IsAscii(s: string) {
    forall i | 0 <= i < |s| :: s[i] < '\U{80}'
  }

  /** `hmac.compare_digest(a, b)` on two `str`: equality, and `TypeError` when either
      holds a character outside ASCII. The constant running time is not modelled. */
  function CompareDigest(a: string, b: string): (r: Result<bool, PyError>)
    ensures r.Ok? <==> IsAscii(a) && IsAscii(b)
    ensures r.Ok? ==> (r.value <==> a == b)
    ensures r.Err? ==> r.error == TypeError
  {
    if IsAscii(a) && IsAscii(b) then Ok(a == b) else Err(TypeError)
  }

  /** The `answerCorrect` the handler leaves, or the exception it raises. */
  function AnswerCorrect(request: VerifyRequest, now: int): (r: Result<bool, PyError>)
    ensures Lookup(request.privateParameters, "answer").None? ==> r == Ok(false)
    ensures request.challengeAnswer.None? || request.challengeAnswer == Some(JNull) ==> r == Ok(false)
    ensures IsExpired(ExpiryValue(request.privateParameters, ParseMetadata(request.challengeMetadata)), now) ==>
      r == Ok(false)
    ensures r == Ok(true) <==>
      && Lookup(request.privateParameters, "answer").Some?
      && Lookup(request.privateParameters, "answer").value != JNull
      && !IsExpired(ExpiryValue(request.privateParameters, ParseMetadata(request.challengeMetadata)), now)
      && request.challengeAnswer.Some? && request.challengeAnswer.value != JNull
      && Str(Lookup(request.privateParameters, "answer").value) == Str(request.challengeAnswer.value)
      && IsAscii(Str(request.challengeAnswer.value))
  {
    var metadata := ParseMetadata(request.challengeMetadata);
    var expected := Lookup(request.privateParameters, "answer");
    var exp := ExpiryValue(request.privateParameters, metadata);
    if expected.None? || expected.value == JNull then Ok(false)
    else if IsExpired(exp, now) then Ok(false)
    else if request.challengeAnswer.None? || request.challengeAnswer.value == JNull then Ok(false)
    else CompareDigest(Str(expected.value), Str(request.challengeAnswer.value))
  }

  /** The expected answer comes only from the private parameters: when those carry a
      true expiry, the metadata has no say in the outcome, and when they carry no answer
      the outcome is false whatever the metadata holds. */
  lemma {:induction false} MetadataNeverSuppliesAnswer(request: VerifyRequest, otherMetadata: Option<string>, now: int)
    ensures Lookup(request.privateParameters, "exp").Some? && Truthy(Lookup(request.privateParameters, "exp").value) ==>
      AnswerCorrect(request.(challengeMetadata := otherMetadata), now) == AnswerCorrect(request, now)
    ensures Lookup(request.privateParameters, "answer").None? ==>
      AnswerCorrect(request.(challengeMetadata := otherMetadata), now) == Ok(false)
  {
  }

  /** `handler(event, context)`: `answerCorrect` is set to false first and becomes true
      only when the final comparison succeeds. */
  method Handle(request: VerifyRequest, now: int, response: EventResponse)
    returns (outcome: Result<bool, PyError>)
    modifies response
    ensures outcome == AnswerCorrect(request, now)
    ensures response.fields == old(response.fields)["answerCorrect" := JBool(outcome == Ok(true))]
  {
    response.Set("answerCorrect", JBool(false));

    var metadata := ParseMetadata(request.challengeMetadata);
    var expected := Lookup(request.privateParameters, "answer");
    var exp := ExpiryValue(request.privateParameters, metadata);

    if expected.None? || expected.value == JNull {
      return Ok(false);
    }
    if IsExpired(exp, now) {
      return Ok(false);
    }
    var provided := request.challengeAnswer;
    if provided.None? || provided.value == JNull {
      return Ok(false);
    }
    outcome := CompareDigest(Str(expected.value), Str(provided.value));
    if outcome == Ok(true) {
      response.Set("answerCorrect", JBool(true));
    }
  }
}
