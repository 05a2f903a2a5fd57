/** The CDK application's reading of the `allowed_origins` context value, which configures
    the API's CORS origins. The context value may be any JSON value. */
module Infra {
  import opened Wrappers
  import opened PyStr
  import opened Json
  import opened Py
  import Backend

  /** The strings of `xs` as JSON strings. */
  function Strs(xs: seq<string>): (r: seq<Json>)
    ensures |r| == |xs| && forall i | 0 <= i < |r| :: r[i] == JStr(xs[i])
  {
    seq(|xs|, i requires 0 <= i < |xs| => JStr(xs[i]))
  }

  /** `_parse_allowed_origins(raw)`: `None` for a false value, the wildcard alone for a
      string that trims to `*`, the trimmed non-empty comma-separated pieces of any other
      string, a list as it is, and `ValueError` for anything else. */
  function ParseAllowedOrigins(raw: Json): (r: Result<Option<seq<Json>>, PyError>)
    ensures r == Ok(None) <==> !Truthy(raw)
    ensures r.Err? <==> Truthy(raw) && !raw.JStr? && !raw.JArray?
    ensures r.Err? ==> r.error == ValueError
    ensures Truthy(raw) && raw.JArray? ==> r == Ok(Some(raw.items))
    ensures Truthy(raw) && raw.JStr? ==>
      (&& r.Ok? && r.value.Some?
       && forall i | 0 <= i < |r.value.value| :: r.value.value[i].JStr? && r.value.value[i].s != "")
  {
    if !Truthy(raw) then Ok(None)
    else if raw.JStr? then
      if Strip(raw.s) == Backend.Wildcard then Ok(Some([JStr(Backend.Wildcard)]))
      else Ok(Some(Strs(CommaSegments(raw.s))))
    else if raw.JArray? then Ok(Some(raw.items))
    else Err(ValueError)
  }

  /** For a non-empty string the CDK application and the backend read the same origins;
      an empty string is where they part: the application passes no origins on, while the
      backend falls back to the wildcard. */
  lemma {:induction false} SameOriginsAsBackend(s: string)
    ensures s != "" ==> ParseAllowedOrigins(JStr(s)) == Ok(Some(Strs(Backend.ParseAllowedOrigins(Some(s)))))
    ensures s == "" ==>
      ParseAllowedOrigins(JStr(s)) == Ok(None) && Backend.ParseAllowedOrigins(Some(s)) == [Backend.Wildcard]
  {
    if s != "" && Strip(s) == Backend.Wildcard {
      assert Strs([Backend.Wildcard]) == [JStr(Backend.Wildcard)];
    }
  }
}
