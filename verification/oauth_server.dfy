/** The identifiers, stored code details and error kinds of the OAuth2
    authorization server that the token exchange works with. */
module OAuthServer {
  import opened Wrappers
  import opened Security

  /** The identifier of a registered OAuth client. */
  datatype ClientId = ClientId(value: string)

  /** An authorization code issued by the authorization endpoint. */
  datatype AuthorizationCode = AuthorizationCode(value: string)

  /** A URI, compared as a whole; its inner structure plays no part in the exchange. */
  datatype Uri = Uri(text: string)

  /** A point in time, as a count of clock ticks since some fixed epoch. */
  type Instant = int

  /** `a.isBefore(b)`: `a` is strictly earlier than `b`. */
  predicate IsBefore(a: Instant, b: Instant)
  {
    a < b
  }

  /** What the code store remembers about the authorization request a code was issued for. */
  datatype AuthorizationCodeDetails = AuthorizationCodeDetails(
    clientId: ClientId,
    redirectUri: Uri,
    expiresAt: Instant,
    responseType: ResponseType)

  /** The failures of the exchange: the three binding checks of the generator,
      and whatever the access-token issuer reports. */
  datatype AccessTokenError =
    | AuthorizationCodeExpired
    | ClientIdMismatch
    | RedirectUriMismatch
    | IssuerError(description: string)

  /** What the access-token issuer returns: a token, or a failure of its own
      kind, kept apart from the binding-check failures so that callers can
      report the two differently. */
  type IssuerResult = r: Result<AccessTokenContainer, AccessTokenError> | r.Failure? ==> r.reason.IssuerError?
    witness Failure(IssuerError(""))
}
