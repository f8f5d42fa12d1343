/**
 * The authentication middleware of package `middlewares` and its two token
 * extractors. The middleware only extends the context (immutably) and then
 * hands the operation on; the model returns the context it hands on and how
 * many times it calls `next`.
 */
module Middlewares {
  import opened Wrappers
  import opened Auth

  /**
   * `extractToken`: the strict, case-sensitive strip. The token is what
   * follows `"Bearer "`; any other header, including `"Bearer "` alone,
   * yields "".
   */
  function ExtractToken(r: Request): (token: string)
    ensures token == "" || r.Header() == BearerPrefix + token
    ensures r.Header() == "" ==> token == ""
  {
    var header := r.Header();
    if header == "" then ""
    else if HasBearerPrefix(header) then header[|BearerPrefix|..]
    else ""
  }

  /** Round trip: prefixing any non-empty token with `"Bearer "` and extracting gives the token back. */
  lemma ExtractTokenRoundTrip(r: Request, token: string)
    requires token != "" && r.Header() == BearerPrefix + token
    ensures ExtractToken(r) == token
  {
    assert r.Header()[..|BearerPrefix|] == BearerPrefix;
  }

  /**
   * The strict strip finds nothing exactly when the header lacks the
   * case-sensitive prefix followed by a byte; "bearer abcdefghij" and
   * "Bearer " alone are two such headers.
   */
  lemma ExtractTokenRejects(r: Request)
    ensures ExtractToken(r) == "" <==> !HasBearerPrefix(r.Header())
    ensures !HasBearerPrefix("bearer abcdefghij") && !HasBearerPrefix(BearerPrefix)
  {
    assert "bearer abcdefghij"[..|BearerPrefix|][0] == 'b' != BearerPrefix[0];
  }

  /**
   * `extractTokenFromGin`: a non-empty `Authorization` header wins and is
   * stripped leniently; otherwise a non-empty `token` query value; otherwise
   * the `auth_token` cookie.
   */
  function ExtractTokenFromGin(c: Request): (token: string)
    ensures token == "" <==> c.Header() == "" && c.Query() == "" && c.Cookie() == ""
    ensures token == TrimBearerLenient(c.Header()) || token == c.Query() || token == c.Cookie()
  {
    var header := c.Header();
    if header != "" then TrimBearerLenient(header)
    else if c.Query() != "" then c.Query()
    else c.Cookie()
  }

  /** Header over query over cookie: a non-empty earlier source always wins over a later one. */
  lemma ExtractTokenFromGinPrecedence(c: Request)
    ensures c.Header() != "" ==> ExtractTokenFromGin(c) == TrimBearerLenient(c.Header())
    ensures c.Header() == "" && c.Query() != "" ==> ExtractTokenFromGin(c) == c.Query()
    ensures c.Header() == "" && c.Query() == "" ==> ExtractTokenFromGin(c) == c.Cookie()
    ensures c.Header() != "" && !HasBearerPrefix(c.Header()) ==> ExtractTokenFromGin(c) == c.Header()
    ensures HasBearerPrefix(c.Header()) ==> BearerPrefix + ExtractTokenFromGin(c) == c.Header()
  {
  }

  /** The strict strip and the lenient strip agree whenever the strict one finds a token. */
  lemma StrictAgreesWithLenient(r: Request)
    requires ExtractToken(r) != ""
    ensures ExtractTokenFromGin(r) == ExtractToken(r)
    ensures TrimBearerLenient(r.Header()) == ExtractToken(r)
  {
  }

  /** They differ exactly on a non-empty header without the prefix: the strict strip yields "", the lenient one the header itself. */
  lemma StrictDiffersFromLenient(r: Request)
    requires r.Header() != "" && !HasBearerPrefix(r.Header())
    ensures ExtractToken(r) == "" && TrimBearerLenient(r.Header()) == r.Header()
  {
  }

  /** All three parses agree on a canonical header `"Bearer " + t` with a space-free token. */
  lemma ParsesAgreeOnCanonicalHeader(r: Request, token: string)
    requires token != "" && ' ' !in token && r.Header() == BearerPrefix + token
    ensures ExtractToken(r) == token
    ensures TrimBearerLenient(r.Header()) == token
    ensures ParseAuthorizationHeader(r.Header()) == token
  {
    ExtractTokenRoundTrip(r, token);
    ParseAuthorizationHeaderSpec(r.Header());
    assert r.Header()[..6] == "Bearer";
    assert IsBearerCredentials(r.Header(), token);
  }

  /** The strict strip keeps spaces in the token while the split parse rejects them. */
  lemma ParsesDisagreeOnSpaces(r: Request)
    requires r.Header() == "Bearer  x"
    ensures ExtractToken(r) == " x"
    ensures ParseAuthorizationHeader(r.Header()) == ""
  {
    ParseRejectsDoubleSpace();
    assert r.Header()[..|BearerPrefix|] == BearerPrefix;
  }

  /** What `AuthMiddleware` passes on: the context given to `next`, and how many times `next` was called. */
  datatype Handoff = Handoff(ctx: Context, nextCalls: nat)

  /** The token the middleware looks at: from the Gin context if present, else from the stored HTTP request, else none. */
  function PresentedToken(ctx: Context): (token: string)
    ensures GetGinContext(ctx).Some? ==> token == ExtractTokenFromGin(GetGinContext(ctx).value)
    ensures GetGinContext(ctx).None? && GetRequestFromContext(ctx).Some? ==> token == ExtractToken(GetRequestFromContext(ctx).value)
    ensures GetGinContext(ctx).None? && GetRequestFromContext(ctx).None? ==> token == ""
  {
    match GetGinContext(ctx)
    case Some(gin) => ExtractTokenFromGin(gin)
    case None =>
      match GetRequestFromContext(ctx)
      case Some(request) => ExtractToken(request)
      case None => ""
  }

  /** The request authenticates when the presented token is non-empty and verifies. */
  predicate Authenticates(ctx: Context)
    ensures Authenticates(ctx) ==> VerifyToken(PresentedToken(ctx)) == Verification(MockUserId, None)
  {
    PresentedToken(ctx) != "" && VerifyToken(PresentedToken(ctx)).err == None
  }

  /** A token is accepted exactly when it is at least ten bytes long. */
  lemma AuthenticatesIffLongToken(ctx: Context)
    ensures Authenticates(ctx) <==> |PresentedToken(ctx)| >= MinTokenLength
  {
  }

  /**
   * `AuthMiddleware`: attach the verified user id under `UserIdContextKey`
   * when the presented token verifies; on the non-Gin path re-store the
   * request under `RequestContextKey`; then call `next` once in every case.
   */
  function AuthMiddleware(ctx: Context): (h: Handoff)
    ensures h.nextCalls == 1
    ensures Authenticates(ctx) ==>
              h.ctx == ctx[UserIdContextKey := StringValue(VerifyToken(PresentedToken(ctx)).userId)]
              && GetUserIdFromContext(h.ctx) == Some(MockUserId)
    ensures !Authenticates(ctx) ==> h.ctx == ctx
    ensures GetGinContext(ctx).None? && GetRequestFromContext(ctx).Some? ==>
              RequestContextKey in h.ctx && h.ctx[RequestContextKey] == HttpRequest(GetRequestFromContext(ctx).value)
  {
    var ctx' :=
      match GetGinContext(ctx)
      case Some(gin) =>
        var token := ExtractTokenFromGin(gin);
        if token != "" then
          var v := VerifyToken(token);
          if v.err == None then ctx[UserIdContextKey := StringValue(v.userId)] else ctx
        else ctx
      case None =>
        match GetRequestFromContext(ctx)
        case None => ctx
        case Some(request) =>
          var withRequest := ctx[RequestContextKey := HttpRequest(request)];
          var token := ExtractToken(request);
          if token != "" then
            var v := VerifyToken(token);
            if v.err == None then withRequest[UserIdContextKey := StringValue(v.userId)] else withRequest
          else withRequest;
    Handoff(ctx', 1)
  }

  /** Authentication never blocks: the other context entries are carried over and only the user id entry can be added or replaced. */
  lemma AuthMiddlewareOnlyAddsUserId(ctx: Context)
    ensures AuthMiddleware(ctx).ctx.Keys <= ctx.Keys + {UserIdContextKey}
    ensures forall k :: k in ctx && k != UserIdContextKey ==> k in AuthMiddleware(ctx).ctx && AuthMiddleware(ctx).ctx[k] == ctx[k]
    ensures GetUserIdFromContext(AuthMiddleware(ctx).ctx).Some? ==>
              Authenticates(ctx) || GetUserIdFromContext(ctx) == GetUserIdFromContext(AuthMiddleware(ctx).ctx)
  {
  }
}
