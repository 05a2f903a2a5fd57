/** The configuration rules of the FastAPI backend: the CORS origin list, whether
    credentials are allowed, and reading the JWT claims API Gateway attached to a
    request. */
module Backend {
  import opened Wrappers
  import opened PyStr
  import opened Json
  import opened Py

  const Wildcard := "*"

  /** `_parse_allowed_origins(raw_origins)` */
  function ParseAllowedOrigins(raw: Option<string>): (r: seq<string>)
    ensures raw.None? || raw == Some("") ==> r == [Wildcard]
    ensures raw.Some? && Strip(raw.value) == Wildcard ==> r == [Wildcard]
    ensures raw.Some? && raw.value != "" && Strip(raw.value) != Wildcard ==> r == CommaSegments(raw.value)
    ensures forall i | 0 <= i < |r| :: r[i] != "" && IsStripped(r[i]) && ',' !in r[i]
  {
    if raw.None? || raw.value == "" then [Wildcard]
    else if Strip(raw.value) == Wildcard then [Wildcard]
    else CommaSegments(raw.value)
  }

  /** Some comma-separated piece of `raw` trims to `x`. */
  predicate IsPiece(raw: string, x: string) {
    exists i :: 0 <= i < |Split(raw, ',')| && Strip(Split(raw, ',')[i]) == x
  }

  /** An origin is listed exactly when some comma-separated piece of the setting trims to
      it. */
  lemma {:induction false} OriginsListed(raw: string, origin: string)
    requires raw != "" && Strip(raw) != Wildcard
    ensures origin in ParseAllowedOrigins(Some(raw)) <==> origin != "" && IsPiece(raw, origin)
  {
    var parts := Split(raw, ',');
    assert ParseAllowedOrigins(Some(raw)) == StrippedNonEmpty(parts);
    StrippedNonEmptyMembers(parts, origin);
  }

  /** The pieces are kept in the order they are written: a setting made of two parts
      lists the origins of the first part, then those of the second. */
  lemma {:induction false} OriginsInOrder(a: string, b: string)
    requires Strip(a + "," + b) != Wildcard
    ensures ParseAllowedOrigins(Some(a + "," + b)) == CommaSegments(a) + CommaSegments(b)
  {
    ghost var raw := a + "," + b;
    ghost var pa := Split(a, ',');
    ghost var pb := Split(b, ',');
    assert raw != "" by { assert raw[|a|] == ','; }
    JoinSplit(a, ',');
    JoinSplit(b, ',');
    JoinAppend(pa, pb, ',');
    assert raw == Join(pa + pb, ',');
    SplitJoin(pa + pb, ',');
    assert Split(raw, ',') == pa + pb;
    StrippedNonEmptyAppend(pa, pb);
    assert ParseAllowedOrigins(Some(raw)) == CommaSegments(raw);
  }

  /** Joining two non-empty lists of pieces puts one separator between them. */
  lemma {:induction false} JoinAppend(a: seq<string>, b: seq<string>, sep: char)
    requires |a| >= 1 && |b| >= 1
    ensures Join(a + b, sep) == Join(a, sep) + [sep] + Join(b, sep)
    decreases |a|
  {
    if |a| == 1 {
      assert (a + b)[1..] == b;
    } else {
      assert (a + b)[1..] == a[1..] + b;
      JoinAppend(a[1..], b, sep);
    }
  }

  /** Trimmed, non-empty pieces are kept as they are. */
  lemma {:induction false} StrippedNonEmptyKeeps(parts: seq<string>)
    requires forall i | 0 <= i < |parts| :: parts[i] != "" && IsStripped(parts[i])
    ensures StrippedNonEmpty(parts) == parts
    decreases |parts|
  {
    if parts != [] {
      StrippedNonEmptyKeeps(parts[1..]);
      assert [parts[0]] + parts[1..] == parts;
    }
  }

  /** The first and last characters of a join are those of the first and last piece. */
  lemma {:induction false} JoinEnds(parts: seq<string>, sep: char)
    requires |parts| >= 1 && forall i | 0 <= i < |parts| :: parts[i] != ""
    ensures |Join(parts, sep)| >= 1
    ensures Join(parts, sep)[0] == parts[0][0]
    ensures Join(parts, sep)[|Join(parts, sep)| - 1] == parts[|parts| - 1][|parts[|parts| - 1]| - 1]
    ensures |parts| >= 2 ==> sep in Join(parts, sep)
    decreases |parts|
  {
    if |parts| > 1 {
      JoinEnds(parts[1..], sep);
      assert (parts[0] + [sep] + Join(parts[1..], sep))[|parts[0]|] == sep;
    }
  }

  /** A list of origins written out comma-separated is read back as it is. */
  lemma {:induction false} ParseJoinedOrigins(origins: seq<string>)
    requires |origins| >= 1
    requires forall i | 0 <= i < |origins| :: origins[i] != "" && IsStripped(origins[i]) && ',' !in origins[i]
    ensures ParseAllowedOrigins(Some(Join(origins, ','))) == origins
  {
    var raw := Join(origins, ',');
    JoinedOriginsText(origins);
    if raw != Wildcard {
      JoinedSegments(origins);
      assert ParseAllowedOrigins(Some(raw)) == CommaSegments(raw);
    }
  }

  /** Splitting the joined text at the commas and trimming gives the pieces back. */
  lemma {:induction false} JoinedSegments(origins: seq<string>)
    requires |origins| >= 1
    requires forall i | 0 <= i < |origins| :: origins[i] != "" && IsStripped(origins[i]) && ',' !in origins[i]
    ensures CommaSegments(Join(origins, ',')) == origins
  {
    SplitJoin(origins, ',');
    assert Split(Join(origins, ','), ',') == origins;
    StrippedNonEmptyKeeps(origins);
  }

  /** The joined text is non-empty and trimmed, and it is the wildcard only when the list
      is the wildcard alone. */
  lemma {:induction false} JoinedOriginsText(origins: seq<string>)
    requires |origins| >= 1
    requires forall i | 0 <= i < |origins| :: origins[i] != "" && IsStripped(origins[i]) && ',' !in origins[i]
    ensures Join(origins, ',') != "" && IsStripped(Join(origins, ','))
    ensures Join(origins, ',') == Wildcard ==> origins == [Wildcard]
  {
    var raw := Join(origins, ',');
    JoinEnds(origins, ',');
    assert IsStripped(origins[0]) && IsStripped(origins[|origins| - 1]);
    if |origins| >= 2 {
      assert ',' in raw;
      assert ',' !in Wildcard;
    } else {
      assert raw == origins[0];
    }
  }

  /** `allow_credentials="*" not in parsed_origins` */
  function AllowCredentials(origins: seq<string>): bool {
    Wildcard !in origins
  }

  /** Credentials are refused exactly when the setting is blank, is the wildcard, or lists
      the wildcard as one of its pieces. */
  lemma {:induction false} CredentialsUnlessWildcard(raw: Option<string>)
    ensures !AllowCredentials(ParseAllowedOrigins(raw)) <==>
      || raw.None? || raw == Some("") || Strip(raw.value) == Wildcard
      || IsPiece(raw.value, Wildcard)
  {
    if raw.Some? && raw.value != "" && Strip(raw.value) != Wildcard {
      OriginsListed(raw.value, Wildcard);
    }
  }

  /** The keys read from the ASGI scope, one level after the other. */
  const ClaimsPath: seq<string> := ["aws.event", "requestContext", "authorizer", "jwt", "claims"]

  /** `v.get(key, {})`: only a dict has `get`. */
  function GetOrEmpty(v: Json, key: string): (r: Result<Json, PyError>)
    ensures r.Ok? <==> v.JObject?
    ensures v.JObject? ==> r == Ok(Lookup(v.members, key).GetOr(JObject([])))
  {
    if v.JObject? then Ok(Lookup(v.members, key).GetOr(JObject([]))) else Err(AttributeError)
  }

  /** The chain `v.get(path[0], {}).get(path[1], {})...`. */
  function GetChain(v: Json, path: seq<string>): Result<Json, PyError>
    decreases |path|
  {
    if path == [] then Ok(v)
    else
      match GetOrEmpty(v, path[0])
      case Err(e) => Err(e)
      case Ok(next) => GetChain(next, path[1..])
  }

  /** The value at `path` when every level on the way is a dict holding the next key. */
  function Nested(v: Json, path: seq<string>): Option<Json>
    decreases |path|
  {
    if path == [] then Some(v)
    else if v.JObject? && Lookup(v.members, path[0]).Some? then Nested(Lookup(v.members, path[0]).value, path[1..])
    else None
  }

  /** `_extract_jwt_claims(request)` on the request's `scope`. */
  function ExtractJwtClaims(scope: Json): (r: Json)
    ensures r == Nested(scope, ClaimsPath).GetOr(JObject([]))
  {
    ChainIsNested(scope, ClaimsPath);
    match GetChain(scope, ClaimsPath)
    case Ok(claims) => claims
    case Err(_) => JObject([])
  }

  /** Further `get`s on `{}` keep giving `{}`. */
  lemma {:induction false} ChainOnEmpty(path: seq<string>)
    ensures GetChain(JObject([]), path) == Ok(JObject([]))
    decreases |path|
  {
    if path != [] {
      ChainOnEmpty(path[1..]);
    }
  }

  /** The chain of `get`s finds the nested value where there is one; otherwise it ends
      in `{}` or in an `AttributeError`, which the function turns into `{}`. */
  lemma {:induction false} ChainIsNested(v: Json, path: seq<string>)
    ensures (match GetChain(v, path) case Ok(x) => x case Err(_) => JObject([])) ==
      Nested(v, path).GetOr(JObject([]))
    decreases |path|
  {
    if path != [] {
      if v.JObject? {
        match Lookup(v.members, path[0])
        case Some(next) =>
          ChainIsNested(next, path[1..]);
        case None =>
          ChainOnEmpty(path[1..]);
      }
    }
  }
}
