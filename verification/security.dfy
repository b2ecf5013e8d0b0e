/** The token value types handed back by the exchange, and the field shape of
    the token response written on the wire (section 5.1 of RFC 6749). */
module Security {
  import opened Wrappers

  /** A bearer access token: a value wrapper around one string. */
  datatype AccessTokenContainer = AccessTokenContainer(value: string)

  /** An OpenID Connect ID token: a value wrapper around one string. */
  datatype IdTokenContainer = IdTokenContainer(value: string)

  /** The response type requested when the code was issued. */
  datatype ResponseType = Code | CodeIdToken

  /** What a successful exchange yields: always an access token, an ID token
      only for the OpenID Connect "code id_token" flow. */
  datatype AccessTokenDetails =
    AccessTokenDetails(accessToken: AccessTokenContainer, idToken: Option<IdTokenContainer>)

  /** The JSON token response: `access_token` is mandatory, `id_token` optional. */
  datatype AccessTokenResponse = AccessTokenResponse(accessToken: string, idToken: Option<string>)

  /** `AccessTokenDetails(token)`: the constructor with the ID token left at its default. */
  function DetailsOf(token: AccessTokenContainer): AccessTokenDetails
  {
    AccessTokenDetails(token, None)
  }

  /** `AccessTokenResponse(accessToken)`: the response with `id_token` left at its default. */
  function ResponseOf(accessToken: string): AccessTokenResponse
  {
    AccessTokenResponse(accessToken, None)
  }

  /** The wire response carrying the strings of `d`. Nothing is lost: reading
      the response back gives `d` again. */
  function ToResponse(d: AccessTokenDetails): (w: AccessTokenResponse)
    ensures FromResponse(w) == d
  {
    match d.idToken
    case None => ResponseOf(d.accessToken.value)
    case Some(id) => AccessTokenResponse(d.accessToken.value, Some(id.value))
  }

  /** The details a token response denotes: each string wrapped in its container. */
  function FromResponse(w: AccessTokenResponse): AccessTokenDetails
  {
    match w.idToken
    case None => DetailsOf(AccessTokenContainer(w.accessToken))
    case Some(id) => AccessTokenDetails(AccessTokenContainer(w.accessToken), Some(IdTokenContainer(id)))
  }

  /** The other half of the round trip: every wire response is the image of
      exactly the details it denotes, so the two shapes carry the same fields. */
  lemma ResponseRoundTrip(w: AccessTokenResponse)
    ensures ToResponse(FromResponse(w)) == w
    ensures FromResponse(w).idToken.Some? <==> w.idToken.Some?
  {
  }

  /** A response built from an access token alone has no `id_token`. */
  lemma ResponseIdTokenDefaultsToAbsent(accessToken: string)
    ensures ResponseOf(accessToken).accessToken == accessToken
    ensures ResponseOf(accessToken).idToken == None
    ensures FromResponse(ResponseOf(accessToken)) == DetailsOf(AccessTokenContainer(accessToken))
  {
  }

  /** Containers are compared by their string and nothing else. */
  lemma ContainerEqualityIsValueEquality(a: AccessTokenContainer, b: AccessTokenContainer)
    ensures a == b <==> a.value == b.value
  {
  }

  /** Details always hold an access token; when only the token is supplied the
      ID token is absent, and the same token with an ID token is a different value. */
  lemma DetailsIdTokenDefaultsToAbsent(token: AccessTokenContainer, id: IdTokenContainer)
    ensures DetailsOf(token).accessToken == token
    ensures DetailsOf(token).idToken == None
    ensures DetailsOf(token) != AccessTokenDetails(token, Some(id))
  {
  }

  /** Details are equal exactly when both the access token and the ID token agree. */
  lemma DetailsEqualityIsStructural(a: AccessTokenDetails, b: AccessTokenDetails)
    ensures a == b <==> a.accessToken == b.accessToken && a.idToken == b.idToken
  {
  }
}
