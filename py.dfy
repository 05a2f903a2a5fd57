/** The Python built-ins that the handlers apply to decoded JSON values: the exceptions
    they can raise, `int(x)`, `str(x)` and the `x >= n` comparison, with the dynamic type
    errors Python reports for them. */
module Py {
  import opened Wrappers
  import opened PyStr
  import opened Json

  /** An exception that leaves a handler: Lambda reports it as an invocation error. */
  datatype PyError =
    | TypeError
    | ValueError
    | AttributeError
    | RuntimeError(message: string)
    /** A `BotoCoreError` or `ClientError` from an AWS service that is not caught. */
    | ServiceError(code: string)
    /** A Google ID token that does not verify (a `ValueError`). */
    | GoogleTokenError(message: string)

  /** `int(v)` on a decoded value: integers as they are, booleans as 0 and 1, strings
      as `int(str)` reads them (`ValueError` otherwise); `None`, lists and dicts raise
      `TypeError`. */
  function PyInt(v: Json): (r: Result<int, PyError>)
    ensures v.JInt? ==> r == Ok(v.i)
    ensures v.JBool? ==> r == Ok(if v.b then 1 else 0)
    ensures v.JStr? ==> (r.Ok? <==> IntOfString(v.s).Some?)
    ensures v.JStr? && r.Ok? ==> IntOfString(v.s) == Some(r.value)
    ensures v.JStr? && r.Err? ==> r.error == ValueError
    ensures (v.JNull? || v.JArray? || v.JObject?) ==> r == Err(TypeError)
  {
    match v
    case JInt(i) => Ok(i)
    case JBool(b) => Ok(if b then 1 else 0)
    case JStr(s) =>
      (match IntOfString(s)
       case Some(i) => Ok(i)
       case None => Err(ValueError))
    case _ => Err(TypeError)
  }

  /** `int(str(i)) == i`: the decimal text of an integer reads back as that integer. */
  lemma {:induction false} PyIntOfDecimal(i: int)
    ensures PyInt(JStr(IntToDecimal(i))) == Ok(i)
  {
    IntOfStringOfDecimal(i);
  }

  /** `str(v)` on a decoded value. Strings are themselves, integers their decimal text,
      booleans and `None` their Python names; lists and dicts are written as JSON text
      (Python would write their `repr`). */
  function Str(v: Json): (r: string)
    ensures v.JStr? ==> r == v.s
    ensures v.JInt? ==> r == IntToDecimal(v.i)
  {
    match v
    case JNull => "None"
    case JBool(b) => if b then "True" else "False"
    case JInt(i) => IntToDecimal(i)
    case JStr(s) => s
    case _ => Dumps(v)
  }

  /** `v >= n` for an `int` bound `n`: booleans compare as 0 and 1, and a string, list,
      dict or `None` raises `TypeError`. */
  function AtLeast(v: Json, n: int): (r: Result<bool, PyError>)
    ensures r.Ok? <==> v.JInt? || v.JBool?
    ensures v.JInt? ==> r == Ok(v.i >= n)
    ensures r.Err? ==> r.error == TypeError
  {
    match v
    case JInt(i) => Ok(i >= n)
    case JBool(b) => Ok((if b then 1 else 0) >= n)
    case _ => Err(TypeError)
  }

  /** `(v or "").strip()` on an optional decoded value: a false value becomes `""`, a
      true string is stripped, and a true value of another type has no `strip`. */
  function StripOrEmpty(v: Option<Json>): (r: Result<string, PyError>)
    ensures v.None? || !Truthy(v.value) ==> r == Ok("")
    ensures v.Some? && v.value.JStr? ==> r == Ok(Strip(v.value.s))
    ensures r.Err? <==> v.Some? && Truthy(v.value) && !v.value.JStr?
  {
    if v.None? || !Truthy(v.value) then Ok("")
    else if v.value.JStr? then Ok(Strip(v.value.s))
    else Err(AttributeError)
  }
}
