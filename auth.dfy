/**
 * Bearer-token extraction and the stub token verifier of package `auth`,
 * with the request and the request context it reads them from.
 *
 * A Go `context.Context` is modelled as a map from context keys to values:
 * `context.WithValue(ctx, k, v)` is `ctx[k := v]`, and a typed lookup
 * `ctx.Value(k).(T)` succeeds only when the value under `k` has type `T`.
 */
module Auth {
  import opened Wrappers
  import opened GoStrings

  /**
   * An inbound HTTP request, reduced to what token extraction reads: the
   * `Authorization` header, the `token` query parameter and the `auth_token`
   * cookie. Go reads an absent value and an empty one alike, as "".
   */
  datatype Request = Request(authorization: Option<string>, tokenQuery: Option<string>, authTokenCookie: Option<string>)
  {
    /** `r.Header.Get("Authorization")` */
    function Header(): string { authorization.GetOr("") }

    /** `c.Query("token")` */
    function Query(): string { tokenQuery.GetOr("") }

    /** `c.Cookie("auth_token")`, ignoring the not-found error */
    function Cookie(): string { authTokenCookie.GetOr("") }
  }

  /** The context keys that token extraction and the middleware use. */
  datatype ContextKey = GinContextKey | RequestContextKey | UserIdContextKey

  /** The values stored under them: a Gin context (with its request), an HTTP request, or a string. */
  datatype ContextValue = GinContext(ginRequest: Request) | HttpRequest(request: Request) | StringValue(text: string)

  type Context = map<ContextKey, ContextValue>

  /** `GetGinContext`: the Gin context stored under `GinContextKey`, if one is there. */
  function GetGinContext(ctx: Context): (g: Option<Request>)
    ensures g.Some? <==> GinContextKey in ctx && ctx[GinContextKey].GinContext?
    ensures g.Some? ==> ctx[GinContextKey] == GinContext(g.value)
  {
    if GinContextKey in ctx && ctx[GinContextKey].GinContext? then Some(ctx[GinContextKey].ginRequest) else None
  }

  /** `GetRequestFromContext`: the HTTP request stored under `RequestContextKey`, if one is there. */
  function GetRequestFromContext(ctx: Context): (r: Option<Request>)
    ensures r.Some? <==> RequestContextKey in ctx && ctx[RequestContextKey].HttpRequest?
    ensures r.Some? ==> ctx[RequestContextKey] == HttpRequest(r.value)
  {
    if RequestContextKey in ctx && ctx[RequestContextKey].HttpRequest? then Some(ctx[RequestContextKey].request) else None
  }

  /** `GetUserIDFromContext`: the string stored under `UserIdContextKey`, if one is there. */
  function GetUserIdFromContext(ctx: Context): (id: Option<string>)
    ensures id.Some? <==> UserIdContextKey in ctx && ctx[UserIdContextKey].StringValue?
    ensures id.Some? ==> ctx[UserIdContextKey] == StringValue(id.value)
  {
    if UserIdContextKey in ctx && ctx[UserIdContextKey].StringValue? then Some(ctx[UserIdContextKey].text) else None
  }

  const BearerPrefix: string := "Bearer "

  /** The header starts with `"Bearer "` (case-sensitive) and has at least one byte after it. */
  predicate HasBearerPrefix(header: string)
  {
    |header| > |BearerPrefix| && header[..|BearerPrefix|] == BearerPrefix
  }

  /**
   * The lenient prefix strip of the Gin branches: the text after `"Bearer "`
   * when the header has that prefix and more, the header verbatim otherwise.
   */
  function TrimBearerLenient(header: string): (token: string)
    ensures token != header <==> HasBearerPrefix(header)
    ensures HasBearerPrefix(header) ==> token != "" && header == BearerPrefix + token
  {
    if HasBearerPrefix(header) then header[|BearerPrefix|..] else header
  }

  /**
   * The fallback parse of `ExtractTokenFromContext`: split the header on
   * single spaces; accept only exactly two parts whose first lowercases to
   * `"bearer"`, and return the second.
   */
  function ParseAuthorizationHeader(header: string): (token: string)
    ensures header == "" ==> token == ""
    ensures ' ' !in token
  {
    if header == "" then ""
    else
      var parts := Split(header, ' ');
      if |parts| != 2 || ToLower(parts[0]) != "bearer" then "" else parts[1]
  }

  /** The header has the shape `<scheme> <token>` with one space, a scheme spelling "bearer" in any case, and no other space. */
  predicate IsBearerCredentials(header: string, token: string)
  {
    |header| == 7 + |token| && header[6] == ' ' && header[7..] == token
    && ToLower(header[..6]) == "bearer" && ' ' !in token
  }

  /** The fallback parse returns `token` exactly for a header of shape `<bearer, any case> <token>`; every other header gives "". */
  lemma ParseAuthorizationHeaderSpec(header: string)
    ensures var token := ParseAuthorizationHeader(header);
            (token != "" ==> IsBearerCredentials(header, token))
            && (forall t :: IsBearerCredentials(header, t) ==> token == t)
  {
    if header != "" {
      var parts := Split(header, ' ');
      if |parts| == 2 {
        SplitInTwo(header, ' ', parts[0], parts[1]);
        assert header[..|parts[0]|] == parts[0];
        assert header[|parts[0]| + 1..] == parts[1];
      }
    }
    forall t | IsBearerCredentials(header, t) ensures ParseAuthorizationHeader(header) == t {
      var scheme := header[..6];
      assert header == scheme + [' '] + t;
      assert ' ' !in scheme by {
        forall i | 0 <= i < 6 ensures scheme[i] != ' ' { assert LowerAscii(scheme[i]) == "bearer"[i]; }
      }
      SplitInTwo(header, ' ', scheme, t);
    }
  }

  /** The fallback parse ignores the case of the scheme: "bearer x" yields "x". */
  lemma ParseAcceptsLowerCaseScheme()
    ensures ParseAuthorizationHeader("bearer x") == "x"
  {
    ParseAuthorizationHeaderSpec("bearer x");
    assert IsBearerCredentials("bearer x", "x");
  }

  /** The fallback parse splits on single spaces: a second space after the scheme rejects the header. */
  lemma ParseRejectsDoubleSpace()
    ensures ParseAuthorizationHeader("Bearer  x") == ""
  {
    var header := "Bearer  x";
    ParseAuthorizationHeaderSpec(header);
  }

  /** A header of only "Bearer " splits into "Bearer" and an empty token. */
  lemma ParseBareScheme()
    ensures ParseAuthorizationHeader(BearerPrefix) == ""
  {
    ParseAuthorizationHeaderSpec(BearerPrefix);
  }

  /** Go's result of `VerifyToken`: a user id and an error (None for nil). */
  datatype Verification = Verification(userId: string, err: Option<string>)

  const ErrEmptyToken: string := "empty token provided"
  const ErrTokenTooShort: string := "token too short"
  const MinTokenLength: nat := 10
  const MockUserId: string := "user-123"

  /** `VerifyToken`: the stub verifier. It rejects empty, then short tokens, and maps any other token to the same mock identity. */
  function VerifyToken(token: string): (v: Verification)
    ensures v.err == None <==> |token| >= MinTokenLength
    ensures v.err == None ==> v.userId == MockUserId
    ensures v.err != None ==> v.userId == ""
    ensures token == "" ==> v.err == Some(ErrEmptyToken)
    ensures 0 < |token| < MinTokenLength ==> v.err == Some(ErrTokenTooShort)
  {
    if token == "" then Verification("", Some(ErrEmptyToken))
    else if |token| < MinTokenLength then Verification("", Some(ErrTokenTooShort))
    else Verification(MockUserId, None)
  }

  /** Any two accepted tokens are the same identity. */
  lemma VerifyTokenConstantIdentity(t1: string, t2: string)
    requires VerifyToken(t1).err == None && VerifyToken(t2).err == None
    ensures VerifyToken(t1) == VerifyToken(t2)
  {
  }

  /**
   * `ExtractTokenFromContext`: the Gin context's `Authorization` header
   * (leniently stripped) when it is non-empty; otherwise the fallback parse
   * of the stored HTTP request's header; "" when there is no request.
   */
  function ExtractTokenFromContext(ctx: Context): (token: string)
    ensures GetGinContext(ctx).Some? && GetGinContext(ctx).value.Header() != "" ==>
              var header := GetGinContext(ctx).value.Header();
              token != "" && token == TrimBearerLenient(header)
    ensures (GetGinContext(ctx).None? || GetGinContext(ctx).value.Header() == "") && token != "" ==>
              GetRequestFromContext(ctx).Some? && IsBearerCredentials(GetRequestFromContext(ctx).value.Header(), token)
    ensures (GetGinContext(ctx).None? || GetGinContext(ctx).value.Header() == "") && GetRequestFromContext(ctx).Some? ==>
              forall t :: IsBearerCredentials(GetRequestFromContext(ctx).value.Header(), t) ==> token == t
    ensures GetGinContext(ctx).None? && GetRequestFromContext(ctx).None? ==> token == ""
  {
    match GetGinContext(ctx)
    case Some(gin) =>
      if gin.Header() != "" then TrimBearerLenient(gin.Header()) else Fallback(ctx)
    case None => Fallback(ctx)
  }

  /** The standard-request half of `ExtractTokenFromContext`. */
  function Fallback(ctx: Context): (token: string)
    ensures token != "" ==> GetRequestFromContext(ctx).Some? && IsBearerCredentials(GetRequestFromContext(ctx).value.Header(), token)
    ensures GetRequestFromContext(ctx).Some? ==>
              forall t :: IsBearerCredentials(GetRequestFromContext(ctx).value.Header(), t) ==> token == t
  {
    match GetRequestFromContext(ctx)
    case None => ""
    case Some(request) =>
      ParseAuthorizationHeaderSpec(request.Header());
      ParseAuthorizationHeader(request.Header())
  }
}
