/** The CreateAuthChallenge trigger: number the attempt, draw a fresh code, write the
    private, public and metadata parameters into the response, and only then look for the
    user's phone number and send the code by SMS. */
module CreateAuthChallenge {
  import opened Wrappers
  import opened PyStr
  import opened Json
  import opened Py
  import opened Config
  import opened Metadata
  import opened Phone
  import opened TriggerEvent

  const DefaultTtlSeconds := 300
  const TtlVariable := "OTP_TTL_SECONDS"
  const OtpLength := 6
  const MissingPhoneMessage := "Phone number missing for user"

  /** `f"{n:0{width}d}"`: the decimal text of `n`, padded on the left with zeros to at
      least `width` characters. */
  function FormatOtp(n: nat, width: nat): string {
    var ds := NatToDecimal(n);
    if |ds| >= width then ds else Repeat('0', width - |ds|) + ds
  }

  /** A code below `10^width` comes out as exactly `width` digits (one digit for width 0)
      whose value is the code. */
  lemma {:induction false} FormatOtpDigits(n: nat, width: nat)
    requires n < Pow10(width)
    ensures |FormatOtp(n, width)| == if width == 0 then 1 else width
    ensures AllDigits(FormatOtp(n, width))
    ensures DecimalValue(FormatOtp(n, width)) == n
  {
    var ds := NatToDecimal(n);
    DecimalValueOfNatToDecimal(n);
    if n >= 1 {
      NatToDecimalLength(n);
      if |ds| > width {
        Pow10Monotone(width, |ds| - 1);
      }
    }
    if |ds| < width {
      DecimalValueLeadingZeros(width - |ds|, ds);
    }
  }

  /** A code as `_generate_otp(width)` produces it. */
  predicate IsOtp(otp: string, width: nat) {
    && |otp| == (if width == 0 then 1 else width)
    && AllDigits(otp)
    && DecimalValue(otp) < Pow10(width)
  }

  /** `_generate_otp(length)`: `secrets.randbelow(10**length)`, zero-padded. The random
      draw is an arbitrary choice in `[0, 10^length)`. */
  method GenerateOtp(length: nat := 6) returns (otp: string)
    ensures IsOtp(otp, length)
    ensures otp == FormatOtp(DecimalValue(otp), length)
  {
    var n: nat :| n < Pow10(length);
    otp := FormatOtp(n, length);
    FormatOtpDigits(n, length);
  }

  /** `int(last_metadata.get("attempt", 0)) + 1`, where the metadata is the last attempt's
      (none for an empty history). A recorded attempt `int()` cannot read raises. */
  function NextAttempt(session: seq<ChallengeRecord>): (r: Result<int, PyError>)
    ensures session == [] ==> r == Ok(1)
    ensures session != [] ==>
      var recorded := Lookup(ParseMetadata(Last(session).challengeMetadata), "attempt");
      && (recorded.None? ==> r == Ok(1))
      && (recorded.Some? ==> (r.Ok? <==> PyInt(recorded.value).Ok?))
      && (recorded.Some? && r.Ok? ==> r.value == PyInt(recorded.value).value + 1)
  {
    var metadata := if session == [] then [] else ParseMetadata(Last(session).challengeMetadata);
    match Lookup(metadata, "attempt")
    case None => Ok(1)
    case Some(v) =>
      match PyInt(v)
      case Ok(k) => Ok(k + 1)
      case Err(e) => Err(e)
  }

  /** The attempt after one whose metadata Create wrote is numbered one higher. */
  lemma {:induction false} NextAttemptAfterCreate(session: seq<ChallengeRecord>, exp: int, attempt: int)
    requires session != [] && Last(session).challengeMetadata == Some(EncodeMetadata(exp, attempt))
    ensures NextAttempt(session) == Ok(attempt + 1)
  {
    MetadataRoundTrip(exp, attempt);
  }

  /** `private_params`: the code, and the expiry and attempt as decimal text. */
  function PrivateParameters(otp: string, exp: int, attempt: int): seq<Member> {
    [Member("answer", JStr(otp)),
     Member("exp", JStr(IntToDecimal(exp))),
     Member("attempt", JStr(IntToDecimal(attempt)))]
  }

  /** `public_params`: the delivery medium, and the code itself when dev echo is on. */
  function PublicParameters(otp: string, devEcho: bool): seq<Member> {
    [Member("deliveryMedium", JStr("SMS"))] + (if devEcho then [Member("dev_otp", JStr(otp))] else [])
  }

  /** The public parameters always name SMS, and carry `dev_otp` exactly when dev echo is
      on, holding the code. */
  lemma {:induction false} PublicParametersFacts(otp: string, devEcho: bool)
    ensures Lookup(PublicParameters(otp, devEcho), "deliveryMedium") == Some(JStr("SMS"))
    ensures Lookup(PublicParameters(otp, devEcho), "dev_otp") == if devEcho then Some(JStr(otp)) else None
  {
    LookupAppend([Member("deliveryMedium", JStr("SMS"))], Member("dev_otp", JStr(otp)), "deliveryMedium");
  }

  /** Looking up the three private parameters. */
  lemma {:induction false} PrivateParametersLookup(otp: string, exp: int, attempt: int)
    ensures Lookup(PrivateParameters(otp, exp, attempt), "answer") == Some(JStr(otp))
    ensures Lookup(PrivateParameters(otp, exp, attempt), "exp") == Some(JStr(IntToDecimal(exp)))
    ensures Lookup(PrivateParameters(otp, exp, attempt), "attempt") == Some(JStr(IntToDecimal(attempt)))
  {
    var a := Member("answer", JStr(otp));
    var e := Member("exp", JStr(IntToDecimal(exp)));
    var t := Member("attempt", JStr(IntToDecimal(attempt)));
    assert PrivateParameters(otp, exp, attempt) == [a, e] + [t];
    assert [a, e] == [a] + [e];
    LookupAppend([a, e], t, "answer");
    LookupAppend([a, e], t, "exp");
    LookupAppend([a], e, "answer");
    LookupAppend([a], e, "exp");
    LookupAppend([a, e], t, "attempt");
  }

  /** The private parameters hold the code and give back the expiry and the attempt
      through `int()`. */
  lemma {:induction false} PrivateParametersFacts(otp: string, exp: int, attempt: int)
    ensures Lookup(PrivateParameters(otp, exp, attempt), "answer") == Some(JStr(otp))
    ensures PyInt(Lookup(PrivateParameters(otp, exp, attempt), "exp").GetOr(JNull)) == Ok(exp)
    ensures PyInt(Lookup(PrivateParameters(otp, exp, attempt), "attempt").GetOr(JNull)) == Ok(attempt)
  {
    PrivateParametersLookup(otp, exp, attempt);
    PyIntOfDecimal(exp);
    PyIntOfDecimal(attempt);
  }

  /** `event["response"]` once the three parameter sets are written. */
  function CreateResponse(before: map<string, Json>, otp: string, exp: int, attempt: int, devEcho: bool): map<string, Json> {
    before["privateChallengeParameters" := JObject(PrivateParameters(otp, exp, attempt))]
          ["challengeMetadata" := JStr(EncodeMetadata(exp, attempt))]
          ["publicChallengeParameters" := JObject(PublicParameters(otp, devEcho))]
  }

  /** The text of the SMS. */
  function SmsText(otp: string): string {
    "Your Offers login code is " + otp
  }

  /** The parts of `event["request"]` the trigger reads. */
  datatype CreateRequest = CreateRequest(session: seq<ChallengeRecord>, userAttributes: map<string, string>)

  /** The phone number an SMS goes to: the user's `phone_number`, trimmed, when that is
      not empty. */
  function DeliveryPhone(userAttributes: map<string, string>): (r: Option<string>)
    ensures r.Some? ==> r.value != "" && IsStripped(r.value)
    ensures r.None? <==> "phone_number" !in userAttributes || Strip(userAttributes["phone_number"]) == ""
  {
    var phone := Normalize(if "phone_number" in userAttributes then Some(userAttributes["phone_number"]) else None);
    if phone.None? || phone.value == "" then None else phone
  }

  datatype SmsMessage = SmsMessage(phoneNumber: string, message: string)

  /** Amazon SNS as the trigger sees it: every publish request is recorded, and `rejects`
      says which ones the service refuses and with what error code. */
  class SmsGateway {
    const rejects: SmsMessage -> Option<string>
    var published: seq<SmsMessage>

    constructor(rejects: SmsMessage -> Option<string>)
      ensures this.rejects == rejects && published == []
    {
      this.rejects := rejects;
      published := [];
    }

    /** `sns_client.publish(PhoneNumber=..., Message=...)` as a transactional SMS. */
    method Publish(m: SmsMessage) returns (error: Option<string>)
      modifies this
      ensures published == old(published) + [m]
      ensures error == rejects(m)
    {
      published := published + [m];
      error := rejects(m);
    }
  }

  /** `handler(event, context)`. The code is returned alongside the outcome, `""` when the
      handler raises before drawing it. */
  method Handle(env: Env, request: CreateRequest, now: int, response: EventResponse, sms: SmsGateway)
    returns (outcome: Result<(), PyError>, otp: string)
    modifies response, sms
    ensures NextAttempt(request.session).Err? ==>
      && outcome == Err(NextAttempt(request.session).error)
      && response.fields == old(response.fields)
      && sms.published == old(sms.published)
    ensures NextAttempt(request.session).Ok? ==>
      && IsOtp(otp, OtpLength)
      && response.fields == CreateResponse(old(response.fields), otp,
           now + LoadInt(env, TtlVariable, DefaultTtlSeconds),
           NextAttempt(request.session).value, DevEcho(env))
    ensures NextAttempt(request.session).Ok? && DeliveryPhone(request.userAttributes).None? ==>
      outcome == Err(RuntimeError(MissingPhoneMessage)) && sms.published == old(sms.published)
    ensures NextAttempt(request.session).Ok? && DeliveryPhone(request.userAttributes).Some? ==>
      var m := SmsMessage(DeliveryPhone(request.userAttributes).value, SmsText(otp));
      && sms.published == old(sms.published) + [m]
      && outcome == (if sms.rejects(m).Some? then Err(ServiceError(sms.rejects(m).value)) else Ok(()))
  {
    otp := "";
    var ttl := LoadInt(env, TtlVariable, DefaultTtlSeconds);
    var devEcho := DevEcho(env);

    var attempt := NextAttempt(request.session);
    if attempt.Err? {
      return Err(attempt.error), otp;
    }

    otp := GenerateOtp();
    var exp := now + ttl;

    response.Set("privateChallengeParameters", JObject(PrivateParameters(otp, exp, attempt.value)));
    response.Set("challengeMetadata", JStr(EncodeMetadata(exp, attempt.value)));
    response.Set("publicChallengeParameters", JObject(PublicParameters(otp, devEcho)));

    var phone := DeliveryPhone(request.userAttributes);
    if phone.None? {
      return Err(RuntimeError(MissingPhoneMessage)), otp;
    }

    var error := sms.Publish(SmsMessage(phone.value, SmsText(otp)));
    if error.Some? {
      return Err(ServiceError(error.value)), otp;
    }
    return Ok(()), otp;
  }
}
