/** `authenticateToken`: reading the bearer token out of the `Authorization` header and
    admitting the request only when the token verifies. */
module Auth {
  import opened Wrappers
  import opened Text

  /** The payload the server signs into its tokens. */
  datatype Claims = Claims(userId: int, username: string)

  /** `jwt.verify` with the server's secret: the payload of a valid token, `None` otherwise.
      Signature checking is a parameter of the model. */
  type Verifier = string -> Option<Claims>

  /** The token the middleware reads from the header, kept only when truthy: the second
      space-separated part of a non-empty header, when there is one and it is non-empty. */
  function BearerToken(header: Option<string>): (r: Option<string>)
    ensures r.Some? ==> r.value != "" && ' ' !in r.value
  {
    if header.None? || header.value == "" then None
    else
      var parts := Split(header.value, ' ');
      if |parts| < 2 || parts[1] == "" then None else Some(parts[1])
  }

  /** `Bearer <token>` yields the token; so does any other single-word scheme. */
  lemma BearerTokenOfScheme(scheme: string, token: string)
    requires ' ' !in scheme && ' ' !in token && token != ""
    ensures BearerToken(Some(scheme + " " + token)) == Some(token)
  {
    assert scheme + " " + token == scheme + ([' '] + token);
    SplitPrefix(scheme, token, ' ');
    SplitFree(token, ' ');
  }

  /** A header without a space, or with two spaces after the scheme, has no token. */
  lemma BearerTokenMissing(header: string, scheme: string, rest: string)
    ensures ' ' !in header ==> BearerToken(Some(header)).None?
    ensures ' ' !in scheme ==> BearerToken(Some(scheme + "  " + rest)).None?
  {
    if ' ' !in header && header != "" {
      SplitFree(header, ' ');
    }
    if ' ' !in scheme {
      assert scheme + "  " + rest == scheme + ([' '] + ([' '] + rest));
      SplitPrefix(scheme, [' '] + rest, ' ');
      assert [] + ([' '] + rest) == [' '] + rest;
      SplitPrefix([], rest, ' ');
    }
  }

  datatype AuthResult = Unauthorized | Forbidden | Authenticated(claims: Claims)

  /** The HTTP status of a rejected request. */
  function Status(r: AuthResult): int
    requires !r.Authenticated?
  {
    if r.Unauthorized? then 401 else 403
  }

  /** No token is 401; a token that fails verification is 403; otherwise the request carries
      the verified payload. */
  function AuthenticateToken(header: Option<string>, verify: Verifier): (r: AuthResult)
    ensures r.Unauthorized? <==> BearerToken(header).None?
    ensures r.Forbidden? <==> BearerToken(header).Some? && verify(BearerToken(header).value).None?
    ensures r.Authenticated? ==> verify(BearerToken(header).value) == Some(r.claims)
  {
    match BearerToken(header)
    case None => Unauthorized
    case Some(token) =>
      (match verify(token)
       case None => Forbidden
       case Some(claims) => Authenticated(claims))
  }

  /** What the pages send, `Bearer ${token}`, admits the holder of a valid stored token. */
  lemma StoredTokenAuthenticates(token: string, verify: Verifier)
    requires ' ' !in token && token != ""
    requires verify(token).Some?
    ensures AuthenticateToken(Some("Bearer " + token), verify) == Authenticated(verify(token).value)
  {
    assert "Bearer" + " " + token == "Bearer " + token;
    assert ' ' !in "Bearer";
    BearerTokenOfScheme("Bearer", token);
  }
}
