// Bearer-token authorization of the coffee-shop API (backend/src/auth/auth.py):
// header parsing, the permission check, key selection and the mapping of
// verification failures to errors. The key-set fetch and the JOSE library
// calls are inputs (see `Jose`).

module Auth {
  import opened PyStr

  datatype Option<+T> = None | Some(value: T)

  /** An `AuthError` as raised by the source: the `code` and `description`
      of its error payload, and its HTTP status. */
  datatype AuthError = AuthError(code: string, description: string, status: int)

  /** Exceptions the source does not catch where they arise. */
  datatype Fault =
    | EmptySplit         // IndexError: `parts[0]` of a header that is only whitespace
    | KeySetUnavailable  // the key-set fetch or its JSON parse raised
    | KeysEntryMissing   // reading the `keys` entry of the parsed key set raised
    | MalformedToken     // `jwt.get_unverified_header` raised
    | KeyFieldMissing    // KeyError reading a field of a key in the key set
    | NotIterable        // TypeError: `in` on a permissions claim that is a number, bool or null

  /** What a call of the source can end in: a value, a raised `AuthError`, or another exception. */
  datatype Outcome<+T> = Ok(value: T) | Fail(error: AuthError) | Crash(fault: Fault)

  // The errors the source raises, with their exact codes, descriptions and statuses.
  const HeaderMissing := AuthError("authorization_header_missing", "Auhtorization header is expected", 401)
  const SchemeNotBearer := AuthError("Invalid_header", "Authorization header must start with \"Bearer\".", 401)
  const TokenNotFound := AuthError("invalid_header", "Token not found", 401)
  const TooManyParts := AuthError("Invalid_header", "It must be a bearer token", 401)
  const PermissionsMissing := AuthError("invalid_claims", "Permissions not included in JWT", 400)
  const PermissionNotFound := AuthError("unauthorized", "Permission not found", 403)
  const KidMissing := AuthError("invalid_header", "Authorization malformed.", 401)
  const TokenExpired := AuthError("token_expired", "Token expired.", 401)
  const IncorrectClaims := AuthError("invalid_claims", "Incorrect claims. Please, check the audience and issuer.", 401)
  const UnparsableToken := AuthError("invalid_header", "Unable to parse authentication token.", 400)
  const KeyNotFound := AuthError("invalid_header", "Unable to find the appropriate key.", 400)

  const HeaderErrors: set<AuthError> := {HeaderMissing, SchemeNotBearer, TokenNotFound, TooManyParts}
  const PermissionErrors: set<AuthError> := {PermissionsMissing, PermissionNotFound}
  const VerifierErrors: set<AuthError> := {KidMissing, TokenExpired, IncorrectClaims, UnparsableToken, KeyNotFound}

  // ---------------------------------------------------------------------
  // get_token_auth_header

  /** The `Authorization` header (absent: `None`) to the bearer token. */
  function GetTokenAuthHeader(header: Option<string>): (r: Outcome<string>)
    ensures header.None? || header.value == "" <==> r == Fail(HeaderMissing)
    ensures r.Ok? ==> IsWord(r.value)
    ensures r.Fail? ==> r.error in HeaderErrors && r.error.status == 401
    ensures r.Crash? <==> header.Some? && header.value != [] && AllSpace(header.value)
  {
    if header.None? || header.value == "" then Fail(HeaderMissing)
    else
      var parts := Words(header.value);
      WordsAreWords(header.value);
      if parts == [] then Crash(EmptySplit)
      else if Lower(parts[0]) != "bearer" then Fail(SchemeNotBearer)
      else if |parts| == 1 then Fail(TokenNotFound)
      else if |parts| > 2 then Fail(TooManyParts)
      else Ok(parts[1])
  }

  /** On any header written as words separated by whitespace, the scheme test
      comes first, then the count of words; two words with a bearer scheme
      give back the second word unchanged. */
  lemma HeaderOfLayout(ws: seq<string>, gaps: seq<string>)
    requires Separates(ws, gaps) && ws != []
    ensures GetTokenAuthHeader(Some(Layout(ws, gaps))) ==
      if Lower(ws[0]) != "bearer" then Fail(SchemeNotBearer)
      else if |ws| == 1 then Fail(TokenNotFound)
      else if |ws| > 2 then Fail(TooManyParts)
      else Ok(ws[1])
  {
    WordsOfLayout(ws, gaps);
  }

  /** Conversely, a header is accepted only if it is a bearer scheme and the
      returned token, with whitespace around and between them. */
  lemma HeaderAccepted(header: Option<string>, token: string)
    requires GetTokenAuthHeader(header) == Ok(token)
    ensures header.Some?
    ensures var ws, gaps := Words(header.value), Gaps(header.value);
      && Separates(ws, gaps) && ws == [ws[0], token] && Lower(ws[0]) == "bearer"
      && header.value == Layout(ws, gaps)
  {
    SplitLayout(header.value);
  }

  /** "Basic" and "Basic a b" fail the scheme test whatever their word count. */
  lemma SchemeAloneNotBearer()
    ensures GetTokenAuthHeader(Some("Basic")) == Fail(SchemeNotBearer)
  {
    assert Lower("Basic")[1] == 'a';
    assert "Basic" == Layout(["Basic"], ["", ""]);
    HeaderOfLayout(["Basic"], ["", ""]);
  }

  lemma SchemeCheckedFirst()
    ensures GetTokenAuthHeader(Some("Basic a b")) == Fail(SchemeNotBearer)
  {
    assert Lower("Basic")[1] == 'a';
    assert "Basic a b" == Layout(["Basic", "a", "b"], ["", " ", " ", ""]);
    HeaderOfLayout(["Basic", "a", "b"], ["", " ", " ", ""]);
  }

  lemma BearerWithoutToken()
    ensures GetTokenAuthHeader(Some("Bearer")) == Fail(TokenNotFound)
  {
    assert Lower("Bearer") == "bearer";
    assert "Bearer" == Layout(["Bearer"], ["", ""]);
    HeaderOfLayout(["Bearer"], ["", ""]);
  }

  lemma BearerWithTwoTokens()
    ensures GetTokenAuthHeader(Some("Bearer a b")) == Fail(TooManyParts)
  {
    assert Lower("Bearer") == "bearer";
    assert "Bearer a b" == Layout(["Bearer", "a", "b"], ["", " ", " ", ""]);
    HeaderOfLayout(["Bearer", "a", "b"], ["", " ", " ", ""]);
  }

  /** The scheme is matched case-insensitively and extra whitespace is ignored. */
  lemma BearerMixedCase()
    ensures GetTokenAuthHeader(Some(" bEaReR  abc ")) == Ok("abc")
  {
    assert Lower("bEaReR") == "bearer";
    assert " bEaReR  abc " == Layout(["bEaReR", "abc"], [" ", "  ", " "]);
    HeaderOfLayout(["bEaReR", "abc"], [" ", "  ", " "]);
  }

  /** A header of whitespace only is not "missing": it ends in an IndexError. */
  lemma BlankHeaderCrashes()
    ensures GetTokenAuthHeader(Some(" \t ")) == Crash(EmptySplit)
  {
    assert AllSpace(" \t ");
  }

  // ---------------------------------------------------------------------
  // check_permissions

  /** A JSON value, as found in a decoded claim set. */
  datatype Json =
    | JNull
    | JBool(b: bool)
    | JNumber(n: int)
    | JString(s: string)
    | JArray(items: seq<Json>)
    | JObject(fields: map<string, Json>)

  type Claims = map<string, Json>

  predicate OccursAt(p: string, s: string, i: int) {
    0 <= i <= |s| - |p| && s[i..i + |p|] == p
  }

  predicate IsSubstring(p: string, s: string) {
    exists i | 0 <= i <= |s| - |p| :: OccursAt(p, s, i)
  }

  /** Python's `item in container` for a string item: element equality on a
      list, a substring test on a string, a key test on an object, and a
      TypeError (`None`) on anything else. */
  function Contains(container: Json, item: string): Option<bool> {
    match container
    case JArray(items) => Some(JString(item) in items)
    case JString(s) => Some(IsSubstring(item, s))
    case JObject(fields) => Some(item in fields)
    case _ => None
  }

  /** The claim value a token issuer sends for a list of permission strings. */
  function Strings(ps: seq<string>): Json {
    JArray(seq(|ps|, i requires 0 <= i < |ps| => JString(ps[i])))
  }

  /** Succeeds (with `true`, never `false`) only when the `permissions` claim
      holds `permission`; the claim set is read, never changed. */
  function CheckPermissions(permission: string, payload: Claims): (r: Outcome<bool>)
    ensures r.Ok? ==> r.value && "permissions" in payload
    ensures "permissions" !in payload <==> r == Fail(PermissionsMissing)
    ensures r.Fail? ==> r.error in PermissionErrors
  {
    if "permissions" !in payload then Fail(PermissionsMissing)
    else match Contains(payload["permissions"], permission)
      case None => Crash(NotIterable)
      case Some(false) => Fail(PermissionNotFound)
      case Some(true) => Ok(true)
  }

  /** For a permissions claim that is a list of strings, the check is exact
      string membership, and a miss is `unauthorized` with status 403. */
  lemma PermissionList(permission: string, payload: Claims, granted: seq<string>)
    requires "permissions" in payload && payload["permissions"] == Strings(granted)
    ensures CheckPermissions(permission, payload) ==
      if permission in granted then Ok(true) else Fail(PermissionNotFound)
  {
    var items := Strings(granted).items;
    if permission in granted {
      var i :| 0 <= i < |granted| && granted[i] == permission;
      assert items[i] == JString(permission);
    }
  }

  /** The gate's default permission is the empty string: a token whose
      permission list does not hold the empty string is refused with 403,
      however many permissions it carries. */
  lemma DefaultPermissionRefused(payload: Claims, granted: seq<string>)
    requires "permissions" in payload && payload["permissions"] == Strings(granted)
    requires "" !in granted
    ensures CheckPermissions("", payload) == Fail(PermissionNotFound)
  {
    PermissionList("", payload, granted);
  }

  // ---------------------------------------------------------------------
  // verify_decode_jwt: key selection

  /** One entry of the key set's `keys` array (a JSON Web Key). */
  type Jwk = map<string, string>

  /** The fields the source copies out of the matching key. */
  const RsaFields: set<string> := {"kty", "kid", "use", "n", "e"}

  datatype RsaKey = RsaKey(kty: string, kid: string, usage: string, n: string, e: string)

  function ToRsaKey(key: Jwk): RsaKey
    requires RsaFields <= key.Keys
  {
    RsaKey(key["kty"], key["kid"], key["use"], key["n"], key["e"])
  }

  predicate Matches(key: Jwk, kid: string) {
    "kid" in key && key["kid"] == kid
  }

  /** The selection loop reads every key's `kid` and every field of the
      matching keys; it raises KeyError unless all of these are present. */
  predicate Readable(keys: seq<Jwk>, kid: string) {
    forall i :: 0 <= i < |keys| ==> "kid" in keys[i] && (keys[i]["kid"] == kid ==> RsaFields <= keys[i].Keys)
  }

  /** The position of the last key whose `kid` is `kid`. */
  function LastMatch(keys: seq<Jwk>, kid: string): (r: Option<nat>)
    ensures r.Some? ==> r.value < |keys| && Matches(keys[r.value], kid)
    ensures r.Some? ==> forall j :: r.value < j < |keys| ==> !Matches(keys[j], kid)
    ensures r.None? ==> forall j :: 0 <= j < |keys| ==> !Matches(keys[j], kid)
  {
    if keys == [] then None
    else if Matches(keys[|keys| - 1], kid) then Some(|keys| - 1)
    else LastMatch(keys[..|keys| - 1], kid)
  }

  datatype Selection = Selected(key: RsaKey) | NoMatch | MissingField

  /** The key the source verifies with: the last match wins. */
  function SelectKey(keys: seq<Jwk>, kid: string): (s: Selection)
    ensures s.Selected? ==> s.key.kid == kid
    ensures s.NoMatch? <==> Readable(keys, kid) && forall j :: 0 <= j < |keys| ==> !Matches(keys[j], kid)
  {
    if !Readable(keys, kid) then MissingField
    else match LastMatch(keys, kid)
      case None => NoMatch
      case Some(i) => Selected(ToRsaKey(keys[i]))
  }

  /** When exactly one key carries the token's `kid`, that key is selected. */
  lemma SelectUnique(keys: seq<Jwk>, kid: string, i: nat)
    requires Readable(keys, kid)
    requires i < |keys| && Matches(keys[i], kid)
    requires forall j :: 0 <= j < |keys| && j != i ==> !Matches(keys[j], kid)
    ensures SelectKey(keys, kid) == Selected(ToRsaKey(keys[i]))
  {
    var r := LastMatch(keys, kid);
    assert r.Some?;
    assert r.value == i;
  }

  /** Of two keys with the same `kid`, the later one is selected. */
  lemma SelectLater(a: seq<Jwk>, k1: Jwk, b: seq<Jwk>, k2: Jwk, c: seq<Jwk>, kid: string)
    requires Readable(a + [k1] + b + [k2] + c, kid)
    requires Matches(k1, kid) && Matches(k2, kid)
    requires forall j :: 0 <= j < |c| ==> !Matches(c[j], kid)
    ensures RsaFields <= k2.Keys
    ensures SelectKey(a + [k1] + b + [k2] + c, kid) == Selected(ToRsaKey(k2))
  {
    var keys := a + [k1] + b + [k2] + c;
    var p := |a| + 1 + |b|;
    assert keys[p] == k2;
    assert forall j :: p < j < |keys| ==> keys[j] == c[j - p - 1];
    var r := LastMatch(keys, kid);
    assert r.Some? && r.value == p;
  }

  // ---------------------------------------------------------------------
  // verify_decode_jwt: decoding

  /** The source's configuration constants. */
  datatype Config = Config(domain: string, audience: string, algorithms: seq<string>)

  const CoffeeShop := Config("coffeeshopbo.us.auth0.com", "drink", ["RS256"])

  /** The keyword arguments passed to `jwt.decode`. */
  datatype DecodeOptions = DecodeOptions(algorithms: seq<string>, audience: string, issuer: string)

  function Options(config: Config): DecodeOptions {
    DecodeOptions(config.algorithms, config.audience, "https://" + config.domain + "/")
  }

  /** How `jwt.decode` ends: the payload, or the exception class it raises. */
  datatype DecodeOutcome =
    | Decoded(claims: Claims)
    | ExpiredSignature   // jwt.ExpiredSignatureError
    | ClaimsRejected     // jwt.JWTClaimsError (issuer or audience)
    | Undecodable        // any other exception

  /** The parsed key-set document; `keys` is `None` when reading its `keys`
      entry raises (no such entry, or the document is not an object). */
  datatype KeySet = KeySet(keys: Option<seq<Jwk>>)

  /** What verification depends on but cannot be modelled: the fetched key
      set (`None` when the fetch or its parse raised), the token's unverified
      header (`None` when reading it raised), and RS256 decoding. */
  datatype Jose = Jose(
    jwks: Option<KeySet>,
    unverifiedHeader: string -> Option<map<string, string>>,
    decode: (string, RsaKey, DecodeOptions) -> DecodeOutcome)

  /** The `except` clauses around `jwt.decode`, in their order. */
  function Classify(d: DecodeOutcome): (r: Outcome<Claims>)
    ensures r.Ok? <==> d.Decoded?
    ensures r.Ok? ==> r.value == d.claims
    ensures d.ExpiredSignature? <==> r == Fail(TokenExpired)
    ensures d.ClaimsRejected? <==> r == Fail(IncorrectClaims)
    ensures d.Undecodable? <==> r == Fail(UnparsableToken)
  {
    match d
    case Decoded(c) => Ok(c)
    case ExpiredSignature => Fail(TokenExpired)
    case ClaimsRejected => Fail(IncorrectClaims)
    case Undecodable => Fail(UnparsableToken)
  }

  /** `verify_decode_jwt(token)`. */
  function Verification(token: string, jose: Jose, config: Config): (r: Outcome<Claims>)
    ensures r.Fail? ==> r.error in VerifierErrors
  {
    match jose.jwks
    case None => Crash(KeySetUnavailable)
    case Some(keySet) =>
      match jose.unverifiedHeader(token)
      case None => Crash(MalformedToken)
      case Some(header) =>
        if "kid" !in header then Fail(KidMissing)
        else match keySet.keys
          case None => Crash(KeysEntryMissing)
          case Some(keys) =>
            match SelectKey(keys, header["kid"])
            case MissingField => Crash(KeyFieldMissing)
            case NoMatch => Fail(KeyNotFound)
            case Selected(key) => Classify(jose.decode(token, key, Options(config)))
  }

  /** A token verifies only through the last key carrying its `kid`, decoded
      under the configured algorithms, audience and issuer. */
  lemma VerificationAccepts(token: string, jose: Jose, config: Config)
    requires Verification(token, jose, config).Ok?
    ensures jose.jwks.Some? && jose.jwks.value.keys.Some? && jose.unverifiedHeader(token).Some?
    ensures var keys, header := jose.jwks.value.keys.value, jose.unverifiedHeader(token).value;
      && "kid" in header && Readable(keys, header["kid"])
      && LastMatch(keys, header["kid"]).Some?
      && var i := LastMatch(keys, header["kid"]).value;
         && keys[i]["kid"] == header["kid"]
         && jose.decode(token, ToRsaKey(keys[i]), Options(config)) == Decoded(Verification(token, jose, config).value)
  {
  }

  /** Once the last key carrying the token's `kid` is found, the result is
      what decoding with that key under the configured algorithms, audience
      and issuer gives: its payload, or the error for the exception it raises. */
  lemma VerificationDecodes(token: string, jose: Jose, config: Config, i: nat)
    requires jose.jwks.Some? && jose.jwks.value.keys.Some? && jose.unverifiedHeader(token).Some?
    requires var keys, header := jose.jwks.value.keys.value, jose.unverifiedHeader(token).value;
      "kid" in header && Readable(keys, header["kid"]) && LastMatch(keys, header["kid"]) == Some(i)
    ensures var key := ToRsaKey(jose.jwks.value.keys.value[i]);
      var d := jose.decode(token, key, DecodeOptions(config.algorithms, config.audience, "https://" + config.domain + "/"));
      var r := Verification(token, jose, config);
      && (d.Decoded? ==> r == Ok(d.claims))
      && (d.ExpiredSignature? ==> r == Fail(TokenExpired))
      && (d.ClaimsRejected? ==> r == Fail(IncorrectClaims))
      && (d.Undecodable? ==> r == Fail(UnparsableToken))
  {
  }

  /** Every way verification can fail before decoding, with its error. The
      `kid` test comes before the key set's `keys` entry is read. */
  lemma VerificationRejects(token: string, jose: Jose, config: Config)
    requires jose.jwks.Some? && jose.unverifiedHeader(token).Some?
    ensures var keySet, header := jose.jwks.value, jose.unverifiedHeader(token).value;
      var r := Verification(token, jose, config);
      && ("kid" !in header ==> r == Fail(KidMissing))
      && ("kid" in header && keySet.keys.None? ==> r == Crash(KeysEntryMissing))
      && ("kid" in header && keySet.keys.Some? ==>
            var keys := keySet.keys.value;
            && (!Readable(keys, header["kid"]) ==> r == Crash(KeyFieldMissing))
            && ((Readable(keys, header["kid"]) && forall j :: 0 <= j < |keys| ==> !Matches(keys[j], header["kid"]))
                ==> r == Fail(KeyNotFound)))
  {
  }

  /** A key-set document without `keys` and a token header without `kid`:
      the missing `kid` is reported, since the source tests it first. */
  lemma KidTestedBeforeKeys(token: string, jose: Jose, config: Config)
    requires jose.jwks == Some(KeySet(None))
    requires jose.unverifiedHeader(token) == Some(map["alg" := "RS256"])
    ensures Verification(token, jose, config) == Fail(KidMissing)
  {
  }

  /** The imperative form of `verify_decode_jwt`: the key set is scanned
      front to back and every match overwrites the selected key. */
  method VerifyDecodeJwt(token: string, jose: Jose, config: Config) returns (r: Outcome<Claims>)
    ensures r == Verification(token, jose, config)
  {
    if jose.jwks.None? {
      return Crash(KeySetUnavailable);
    }
    var keySet := jose.jwks.value;
    var header := jose.unverifiedHeader(token);
    if header.None? {
      return Crash(MalformedToken);
    }
    if "kid" !in header.value {
      return Fail(KidMissing);
    }
    if keySet.keys.None? {
      return Crash(KeysEntryMissing);
    }
    var keys := keySet.keys.value;
    var kid := header.value["kid"];
    var rsaKey: Option<RsaKey> := None;
    var i := 0;
    while i < |keys|
      invariant 0 <= i <= |keys|
      invariant Readable(keys[..i], kid)
      invariant rsaKey == match LastMatch(keys[..i], kid)
                          case None => None
                          case Some(j) => Some(ToRsaKey(keys[j]))
    {
      var key := keys[i];
      if "kid" !in key {
        assert !Readable(keys, kid);
        return Crash(KeyFieldMissing);
      }
      if key["kid"] == kid {
        if !(RsaFields <= key.Keys) {
          assert !Readable(keys, kid);
          return Crash(KeyFieldMissing);
        }
        rsaKey := Some(ToRsaKey(key));
      }
      assert keys[..i + 1][..i] == keys[..i];
      i := i + 1;
    }
    assert keys[..i] == keys;
    if rsaKey.Some? {
      var outcome := jose.decode(token, rsaKey.value, Options(config));
      match outcome {
        case Decoded(payload) => return Ok(payload);
        case ExpiredSignature => return Fail(TokenExpired);
        case ClaimsRejected => return Fail(IncorrectClaims);
        case Undecodable => return Fail(UnparsableToken);
      }
    }
    return Fail(KeyNotFound);
  }
}
