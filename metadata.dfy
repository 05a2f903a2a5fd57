/** The challenge metadata that travels with each attempt record: Create writes it with
    `json.dumps({"exp": ..., "attempt": ...})`, and every trigger reads it back with the
    same total decoder `_parse_metadata` (one copy of it in each trigger file). */
module Metadata {
  import opened Wrappers
  import opened Json
  import opened JsonRoundTrip

  /** `_parse_metadata(raw)`: the decoded dict when `raw` is JSON text of an object, and
      the empty dict for `None`, `""`, malformed text and any other JSON value. It never
      raises. */
  function ParseMetadata(raw: Option<string>): (r: seq<Member>)
    ensures raw.None? || raw == Some("") ==> r == []
    ensures raw.Some? && Loads(raw.value).Some? && Loads(raw.value).value.JObject? ==>
      r == Loads(raw.value).value.members
    ensures r != [] ==> raw.Some? && Loads(raw.value) == Some(JObject(r))
  {
    if raw.None? || raw.value == "" then []
    else
      match Loads(raw.value)
      case Some(JObject(ms)) => ms
      case _ => []
  }

  /** The members of the metadata object Create writes. */
  function MetadataMembers(exp: int, attempt: int): seq<Member> {
    [Member("exp", JInt(exp)), Member("attempt", JInt(attempt))]
  }

  /** `json.dumps({"exp": exp, "attempt": attempt})` */
  function EncodeMetadata(exp: int, attempt: int): (r: string)
    ensures r != ""
  {
    DumpsStart(JObject(MetadataMembers(exp, attempt)));
    Dumps(JObject(MetadataMembers(exp, attempt)))
  }

  /** The metadata round trip: decoding what Create wrote gives back its `exp` and
      `attempt`. */
  lemma {:induction false} MetadataRoundTrip(exp: int, attempt: int)
    ensures ParseMetadata(Some(EncodeMetadata(exp, attempt))) == MetadataMembers(exp, attempt)
    ensures Lookup(ParseMetadata(Some(EncodeMetadata(exp, attempt))), "exp") == Some(JInt(exp))
    ensures Lookup(ParseMetadata(Some(EncodeMetadata(exp, attempt))), "attempt") == Some(JInt(attempt))
  {
    LoadsDumps(JObject(MetadataMembers(exp, attempt)));
    var ms := MetadataMembers(exp, attempt);
    assert ms[..1] == [Member("exp", JInt(exp))];
  }
}
