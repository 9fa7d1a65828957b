/** The bearer-token guard placed in front of the protected routes. */
module AuthGuard {
  import opened Common
  import opened Text
  import opened Session
  import opened Http

  const BearerPrefix: string := "Bearer "

  const MissingHeader: Response := Error(401, "Authorization header missing")
  const InvalidToken: Response := Error(403, "Invalid token")

  /** The token inside an `Authorization` header: what follows a leading
      `"Bearer "` (case-sensitive, seven characters), or else the whole header. */
  function ExtractToken(header: string): (t: Token)
    ensures StartsWith(header, BearerPrefix) ==> header == BearerPrefix + t
    ensures !StartsWith(header, BearerPrefix) ==> t == header
  {
    if StartsWith(header, BearerPrefix) then
      assert header == header[..7] + header[7..];
      header[7..]
    else header
  }

  /** A header built as `Bearer <t>` gives back `t`. */
  lemma ExtractBearer(t: Token)
    ensures ExtractToken(BearerPrefix + t) == t
  {
    assert (BearerPrefix + t)[..7] == BearerPrefix;
  }

  /** The guard either answers the request itself or lets the next handler
      run with the decoded payload as the caller's identity. */
  datatype Outcome = Reject(response: Response) | Proceed(identity: Claims)

  /** `authenticateUser`: no header (or an empty one) is 401; a token the
      verifier refuses is 403; otherwise the payload becomes the identity. */
  function Authenticate(header: Option<string>, verify: Token -> Option<Claims>): (o: Outcome)
    ensures (header == None || header == Some("")) <==> o == Reject(MissingHeader)
    ensures o == Reject(InvalidToken) <==>
      header.Some? && header.value != "" && verify(ExtractToken(header.value)).None?
    ensures o.Proceed? <==>
      header.Some? && header.value != "" && verify(ExtractToken(header.value)).Some?
    ensures o.Proceed? ==> Some(o.identity) == verify(ExtractToken(header.value))
  {
    if header.None? || header.value == "" then Reject(MissingHeader)
    else
      match verify(ExtractToken(header.value))
      case None => Reject(InvalidToken)
      case Some(claims) => Proceed(claims)
  }
}
