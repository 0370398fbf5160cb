// `requires_auth(permission)` of backend/src/auth/auth.py: the wrapper that
// parses the header, verifies the token, checks the permission and only then
// runs the protected handler.

module AuthGate {
  import opened PyStr
  import opened Auth

  /** The steps of the wrapper, in the order it runs them. */
  datatype Stage = ParseHeader | VerifyToken | CheckPermission | InvokeHandler

  const Pipeline: seq<Stage> := [ParseHeader, VerifyToken, CheckPermission, InvokeHandler]

  /** What the wrapped route answers with: the handler's own result, an
      `AuthError` rendered with its status, a bare `abort(status)`, or an
      exception that escapes the wrapper. */
  datatype Response<+R> =
    | Handled(result: R)
    | Rejected(error: AuthError)
    | Aborted(status: int)
    | ServerError(fault: Fault)

  /** The response, and the stages that ran to produce it. */
  datatype GateRun<+R> = GateRun(response: Response<R>, stages: seq<Stage>)

  /** One request through `requires_auth(permission)(handler)`. The header
      parse is outside the `try`, so its errors escape unchanged; the bare
      `except:` turns every verification failure into `abort(401)`; the
      permission check's errors escape unchanged. */
  function RequiresAuth<R>(permission: string, header: Option<string>, jose: Jose, config: Config,
                           handler: Claims -> R): (run: GateRun<R>)
    ensures 1 <= |run.stages| <= |Pipeline| && run.stages == Pipeline[..|run.stages|]
    ensures InvokeHandler in run.stages <==> run.response.Handled?
    ensures run.response.Aborted? ==> run.response.status == 401
    ensures run.response.Rejected? ==> run.response.error in HeaderErrors + PermissionErrors
    ensures GetTokenAuthHeader(header).Fail? ==> run.response == Rejected(GetTokenAuthHeader(header).error)
    ensures GetTokenAuthHeader(header).Crash? ==> run.response == ServerError(GetTokenAuthHeader(header).fault)
    ensures GetTokenAuthHeader(header).Ok? && Verification(GetTokenAuthHeader(header).value, jose, config).Ok? ==>
      var r := CheckPermissions(permission, Verification(GetTokenAuthHeader(header).value, jose, config).value);
      && (r.Fail? ==> run.response == Rejected(r.error))
      && (r.Crash? ==> run.response == ServerError(r.fault))
  {
    match GetTokenAuthHeader(header)
    case Crash(f) => GateRun(ServerError(f), Pipeline[..1])
    case Fail(e) => GateRun(Rejected(e), Pipeline[..1])
    case Ok(token) =>
      match Verification(token, jose, config)
      case Ok(claims) =>
        (match CheckPermissions(permission, claims)
         case Crash(f) => GateRun(ServerError(f), Pipeline[..3])
         case Fail(e) => GateRun(Rejected(e), Pipeline[..3])
         case Ok(_) => GateRun(Handled(handler(claims)), Pipeline))
      case _ => GateRun(Aborted(401), Pipeline[..2])
  }

  /** The handler runs exactly once, only when all three stages succeed, on
      the verified claim set, and its result is returned as it is. */
  lemma HandlerRunsOnlyOnSuccess<R>(permission: string, header: Option<string>, jose: Jose,
                                    config: Config, handler: Claims -> R)
    ensures var run := RequiresAuth(permission, header, jose, config, handler);
      && multiset(run.stages)[InvokeHandler] <= 1
      && (run.response.Handled? <==>
            && GetTokenAuthHeader(header).Ok?
            && Verification(GetTokenAuthHeader(header).value, jose, config).Ok?
            && CheckPermissions(permission, Verification(GetTokenAuthHeader(header).value, jose, config).value).Ok?)
      && (run.response.Handled? ==>
            run.response.result == handler(Verification(GetTokenAuthHeader(header).value, jose, config).value))
  {
    var run := RequiresAuth(permission, header, jose, config, handler);
    var k := |run.stages|;
    assert multiset(Pipeline)[InvokeHandler] == 1;
    assert Pipeline == Pipeline[..k] + Pipeline[k..];
  }

  /** Whatever went wrong during verification, the answer is a bare 401 and
      the verifier's own code, description and status are lost. */
  lemma VerificationFailureCollapses<R>(permission: string, header: Option<string>, jose: Jose,
                                        config: Config, handler: Claims -> R, token: string)
    requires GetTokenAuthHeader(header) == Ok(token)
    requires !Verification(token, jose, config).Ok?
    ensures RequiresAuth(permission, header, jose, config, handler) == GateRun(Aborted(401), [ParseHeader, VerifyToken])
  {
  }

  /** End to end: a bearer header, a key set holding the token's `kid`, a
      successful decode with that key and a permission list holding the
      required permission lead to the handler's result on the decoded claims. */
  lemma GateAdmits<R>(permission: string, scheme: string, token: string, gaps: seq<string>,
                      jose: Jose, config: Config, handler: Claims -> R,
                      kid: string, i: nat, claims: Claims, granted: seq<string>)
    requires Lower(scheme) == "bearer" && Separates([scheme, token], gaps)
    requires jose.jwks.Some? && jose.jwks.value.keys.Some?
    requires jose.unverifiedHeader(token).Some? && "kid" in jose.unverifiedHeader(token).value
    requires jose.unverifiedHeader(token).value["kid"] == kid
    requires var keys := jose.jwks.value.keys.value;
      && Readable(keys, kid) && i < |keys| && Matches(keys[i], kid)
      && (forall j :: i < j < |keys| ==> !Matches(keys[j], kid))
      && jose.decode(token, ToRsaKey(keys[i]), Options(config)) == Decoded(claims)
    requires "permissions" in claims && claims["permissions"] == Strings(granted) && permission in granted
    ensures RequiresAuth(permission, Some(Layout([scheme, token], gaps)), jose, config, handler)
      == GateRun(Handled(handler(claims)), Pipeline)
  {
    HeaderOfLayout([scheme, token], gaps);
    var keys := jose.jwks.value.keys.value;
    var r := LastMatch(keys, kid);
    assert r.Some? && r.value == i;
    assert SelectKey(keys, kid) == Selected(ToRsaKey(keys[i]));
    PermissionList(permission, claims, granted);
  }

  /** The same request without the permission in the token's list is refused
      with the permission check's own error, not the verifier's. */
  lemma GateRefusesMissingPermission<R>(permission: string, header: Option<string>, jose: Jose,
                                        config: Config, handler: Claims -> R,
                                        token: string, claims: Claims, granted: seq<string>)
    requires GetTokenAuthHeader(header) == Ok(token)
    requires Verification(token, jose, config) == Ok(claims)
    requires "permissions" in claims && claims["permissions"] == Strings(granted) && permission !in granted
    ensures RequiresAuth(permission, header, jose, config, handler)
      == GateRun(Rejected(PermissionNotFound), [ParseHeader, VerifyToken, CheckPermission])
  {
    PermissionList(permission, claims, granted);
  }

  /** A verified token without a `permissions` claim is refused with
      `invalid_claims`/400 through the gate, whatever the permission,
      the empty default included. */
  lemma GateRefusesMissingClaim<R>(permission: string, header: Option<string>, jose: Jose,
                                   config: Config, handler: Claims -> R, token: string, claims: Claims)
    requires GetTokenAuthHeader(header) == Ok(token)
    requires Verification(token, jose, config) == Ok(claims)
    requires "permissions" !in claims
    ensures RequiresAuth(permission, header, jose, config, handler)
      == GateRun(Rejected(PermissionsMissing), [ParseHeader, VerifyToken, CheckPermission])
  {
  }
}
