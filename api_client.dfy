/** What the browser client puts on requests and reads back from responses. */
module ApiClient {
  import opened Common
  import opened Session
  import opened Http
  import opened AuthGuard

  /** `getAuthHeaders`: a stored, non-empty token is sent as `Bearer <token>`;
      otherwise no `Authorization` header is sent at all. */
  function AuthHeader(stored: Option<Token>): (h: Option<string>)
    ensures h.Some? <==> stored.Some? && stored.value != ""
    ensures h.Some? ==> h.value == BearerPrefix + stored.value
  {
    if stored.Some? && stored.value != "" then Some(BearerPrefix + stored.value) else None
  }

  /** The header the client builds carries the very token the guard extracts,
      and a client without a token is turned away with 401. */
  lemma HeaderRoundTrip(stored: Option<Token>)
    ensures stored.Some? && stored.value != "" ==> ExtractToken(AuthHeader(stored).value) == stored.value
    ensures !(stored.Some? && stored.value != "") ==>
      forall verify: Token -> Option<Claims> :: Authenticate(AuthHeader(stored), verify) == Reject(MissingHeader)
  {
    if stored.Some? && stored.value != "" {
      ExtractBearer(stored.value);
    }
  }

  /** A token the server signed, sent back by the client, authenticates as
      exactly the payload it was signed with. */
  lemma SignedTokenAuthenticates(crypto: Crypto, claims: Claims)
    requires TokensVerify(crypto)
    ensures crypto.sign(claims, TokenLifetime) != "" ==>
      Authenticate(AuthHeader(Some(crypto.sign(claims, TokenLifetime))), crypto.verify) == Proceed(claims)
  {
    var t := crypto.sign(claims, TokenLifetime);
    ExtractBearer(t);
    assert crypto.verify(t) == Some(claims);
  }

  /** `response._id`: the body is a bare blog document. */
  predicate HasTopLevelId(b: Body) {
    b.BlogViewBody?
  }

  /** `response.blog`: the body carries a saved blog. */
  predicate HasBlog(b: Body) {
    b.BlogBody?
  }

  /** `response.message` is truthy: the body carries a non-empty message. */
  predicate HasMessage(b: Body) {
    (b.MessageBody? || b.BlogBody? || b.AuthBody?) && b.message != ""
  }

  /** `response.error || fallback`. */
  function ErrorOr(b: Body, fallback: string): (e: string)
    ensures e != "" || fallback == ""
    ensures b.ErrorBody? && b.error != "" ==> e == b.error
    ensures !(b.ErrorBody? && b.error != "") ==> e == fallback
  {
    if b.ErrorBody? && b.error != "" then b.error else fallback
  }
}
