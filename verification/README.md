# Authorization-code token exchange, modelled in Dafny

This project models the token-exchange step of the OAuth2 Authorization Code
grant (section 4.1.3 of RFC 6749) as http4k's `AuthorizationCodeAccessTokenGenerator`
implements it, including the OpenID Connect "code id_token" flow (section 3.3
of OpenID Connect Core 1.0).

An exchange request names an authorization code, a client id, a client secret
and a redirect URI. The generator looks up the stored details of the code. It
then applies three binding checks in a fixed order, and the first failing check
decides the result:
1. the code has expired;
2. the client id differs from the stored one;
3. the redirect URI differs from the stored one.

Only when all three pass does it ask the access-token issuer for a token. An
ID token is attached exactly when the stored response type is `CodeIdToken`.
Every outcome is a value: `Success(AccessTokenDetails)` or `Failure(AccessTokenError)`.
A form extractor decodes the request from the four required form fields.

Files:
- `wrappers.dfy`: `Option` and `Result` (Success/Failure with a reason).
- `security.dfy`: module `Security`. It holds the token containers,
  `AccessTokenDetails`, `ResponseType` and the wire shape `AccessTokenResponse`.
- `oauth_server.dfy`: module `OAuthServer`. It holds client ids, codes,
  URIs, instants, the stored code details and the error kinds.
- `authorization_code_access_tokens.dfy`: module `AuthorizationCodeAccessTokens`.
  It holds the request record, the generator, the extractor and their properties.

The collaborators are uninterpreted total functions held in a `Generator`
value: the code store (`authorizationCodes`), the access-token issuer
(`accessTokens`) and the ID-token issuer (`idTokens`). The clock becomes
an integer `now` passed to `Generate`. `Instant.isBefore` is strict `<`.

The lemmas in `Security` about equality and default arguments record the
promises of the value types. They follow directly from how Dafny datatypes
and the two constructor helpers are defined, so they state facts rather than
carry proofs.

The binding checks also have an independent, declarative definition. It is
the list `BindingChecks` in the order applied, with `Violates` saying when
each check fails. `GenerateReportsFirstViolation` proves that the generator
returns the earliest failing check's error, and issues only when none fails.

## Model

| member | source | states |
|---|---|---|
| `AuthorizationCodeAccessTokens.Generate` | http4k-security-oauth/src/main/kotlin/org/http4k/security/oauth/server/accesstoken/AuthorizationCodeAccessTokenGenerator.kt:25-41 | A success means all three binding checks passed. Its access token is the issuer's token for the request's own code. It carries an ID token exactly when the stored response type is `CodeIdToken`, and that ID token is minted for the same code. |
| `AuthorizationCodeAccessTokens.ExpiredCodeFails` | http4k-security-oauth/src/main/kotlin/org/http4k/security/oauth/server/accesstoken/AuthorizationCodeAccessTokenGenerator.kt:30 | If the stored `expiresAt` is strictly before `now`, the result is `Failure(AuthorizationCodeExpired)`, whatever the client id and redirect URI. |
| `AuthorizationCodeAccessTokens.ExpiryIsStrict` | http4k-security-oauth/src/main/kotlin/org/http4k/security/oauth/server/accesstoken/AuthorizationCodeAccessTokenGenerator.kt:29-30 | Any two instants at or before `expiresAt` give the same result. At exactly `expiresAt`, a request with matching client and redirect goes on to issuance. |
| `AuthorizationCodeAccessTokens.ClientIdCheckedBeforeRedirectUri` | http4k-security-oauth/src/main/kotlin/org/http4k/security/oauth/server/accesstoken/AuthorizationCodeAccessTokenGenerator.kt:29-32 | For a live code, a different client id gives `Failure(ClientIdMismatch)` even when the redirect URI differs too. |
| `AuthorizationCodeAccessTokens.RedirectUriMismatchFails` | http4k-security-oauth/src/main/kotlin/org/http4k/security/oauth/server/accesstoken/AuthorizationCodeAccessTokenGenerator.kt:32 | For a live code with a matching client id, a different redirect URI gives `Failure(RedirectUriMismatch)`. |
| `AuthorizationCodeAccessTokens.FailedCheckConsultsNoIssuer` | http4k-security-oauth/src/main/kotlin/org/http4k/security/oauth/server/accesstoken/AuthorizationCodeAccessTokenGenerator.kt:26-33 | When any check fails the result is a failure. Two generators whose stores agree on the code give the same result, whatever their issuers return. |
| `AuthorizationCodeAccessTokens.IssuanceWhenChecksPass` | http4k-security-oauth/src/main/kotlin/org/http4k/security/oauth/server/accesstoken/AuthorizationCodeAccessTokenGenerator.kt:33-39 | When all checks pass, an issuer failure is returned unchanged. With `Code`, success is `AccessTokenDetails(token)` with no ID token. With `CodeIdToken`, success carries the ID token issued for the request's code. |
| `AuthorizationCodeAccessTokens.GenerateReportsFirstViolation` | http4k-security-oauth/src/main/kotlin/org/http4k/security/oauth/server/accesstoken/AuthorizationCodeAccessTokenGenerator.kt:29-40 | The result is the issuance exactly when no binding check fails. Otherwise it is the failure of the earliest failing check in the fixed order. |
| `AuthorizationCodeAccessTokens.BindingErrorMeansViolation` | http4k-security-oauth/src/main/kotlin/org/http4k/security/oauth/server/accesstoken/AuthorizationCodeAccessTokenGenerator.kt:29-32 | The converse of the check order: a failure that is not an issuer error is the error of the earliest binding check that really fails, so `ClientIdMismatch` means the code was live and the client ids differ. |
| `AuthorizationCodeAccessTokens.FirstViolationIsUnique` | http4k-security-oauth/src/main/kotlin/org/http4k/security/oauth/server/accesstoken/AuthorizationCodeAccessTokenGenerator.kt:29-32 | At most one error is the first failing check, so the order decides the failure uniquely. |
| `AuthorizationCodeAccessTokens.ClientSecretIsIgnored` | http4k-security-oauth/src/main/kotlin/org/http4k/security/oauth/server/accesstoken/AuthorizationCodeAccessTokenGenerator.kt:25-41 | Two requests that differ only in `clientSecret` give the same result. |
| `AuthorizationCodeAccessTokens.MissingFields` | http4k-security-oauth/src/main/kotlin/org/http4k/security/oauth/server/accesstoken/AuthorizationCodeAccessTokenGenerator.kt:62-64 | A name is reported missing exactly when it is one of the required names and the form lacks it. |
| `AuthorizationCodeAccessTokens.MissingFieldsOnlyReadsNames` | http4k-security-oauth/src/main/kotlin/org/http4k/security/oauth/server/accesstoken/AuthorizationCodeAccessTokenGenerator.kt:62-64 | Forms that agree on which required names are present report the same missing fields. |
| `AuthorizationCodeAccessTokens.Extract` | http4k-security-oauth/src/main/kotlin/org/http4k/security/oauth/server/accesstoken/AuthorizationCodeAccessTokenGenerator.kt:55-73 | A request is produced exactly when `code`, `redirect_uri`, `client_id` and `client_secret` are all present. Each request field equals its form field. |
| `AuthorizationCodeAccessTokens.ExtractFormOf` | http4k-security-oauth/src/main/kotlin/org/http4k/security/oauth/server/accesstoken/AuthorizationCodeAccessTokenGenerator.kt:48-73 | Extracting the four-field form of any request gives back that request. |
| `AuthorizationCodeAccessTokens.ExtractIgnoresOtherFields` | http4k-security-oauth/src/main/kotlin/org/http4k/security/oauth/server/accesstoken/AuthorizationCodeAccessTokenGenerator.kt:62-73 | Forms that agree on the four required fields, in presence and value, decode to the same result whatever other fields they carry. |
| `AuthorizationCodeAccessTokens.GenerateFromForm` | http4k-security-oauth/src/main/kotlin/org/http4k/security/oauth/server/accesstoken/AuthorizationCodeAccessTokenGenerator.kt:22-23 | The raw exchange fails before any lookup exactly when a required field is missing. A success means the code's stored client id and redirect URI equal the form's, the code had not expired, and the token is the issuer's token for the form's code. |
| `AuthorizationCodeAccessTokens.ScenarioOutcomes` | http4k-security-oauth/src/main/kotlin/org/http4k/security/oauth/server/accesstoken/AuthorizationCodeAccessTokenGenerator.kt:29-37 | Worked cases for code `abc123` valid until tick 60. A matching request at tick 0 succeeds with no ID token. Another client gets `ClientIdMismatch`. Tick 61 gets `AuthorizationCodeExpired`. |
| `Security.ContainerEqualityIsValueEquality` | http4k-security-oauth/src/main/kotlin/org/http4k/security/AccessTokenContainer.kt:8 | Two access-token containers are equal exactly when their strings are equal. |
| `Security.DetailsIdTokenDefaultsToAbsent` | http4k-security-oauth/src/main/kotlin/org/http4k/security/AccessTokenContainer.kt:10 | Details built from a token alone hold that token and no ID token. The same token with an ID token is a different value. |
| `Security.DetailsEqualityIsStructural` | http4k-security-oauth/src/main/kotlin/org/http4k/security/AccessTokenContainer.kt:10 | Details are equal exactly when both the access token and the ID token agree. |
| `Security.ToResponse` | http4k-security-oauth/src/main/kotlin/org/http4k/security/AccessTokenContainer.kt:10-15 | Reading the wire response built from any details gives those details back. |
| `Security.ResponseRoundTrip` | http4k-security-oauth/src/main/kotlin/org/http4k/security/AccessTokenContainer.kt:12-15 | Every wire response is the image of the details it denotes. It has an `id_token` exactly when those details have an ID token. |
| `Security.ResponseIdTokenDefaultsToAbsent` | http4k-security-oauth/src/main/kotlin/org/http4k/security/AccessTokenContainer.kt:12-15 | A response built from an access token alone has that `access_token` and no `id_token`. |

## Left out

- JSON serialisation of the token response (the Jackson body lens) is not modelled; `AccessTokenResponse` is kept only as a field shape. `ToResponse` and `FromResponse` are not functions of the source: they relate that shape to `AccessTokenDetails`.
- HTTP requests and web-form decoding are not modelled: a form is a map from field names to a single string value. Repeated fields and the library's handling of empty values are out of scope.
- Extraction failure is a thrown lens exception in the source (`extract` always wraps its result in `Success`); here it is `None` from `Extract` and `GenerateFromForm`. The strict validator that collects missing fields is library code. `MissingFields` represents only its outcome over the four required fields.
- `AuthorizationCodeAccessTokens.Extract`: a `redirect_uri` value that the URI lens would reject still decodes here, because URI parsing is not modelled.
- URI parsing is not modelled: `Uri` is an opaque value compared as a whole, built from the form string unchanged. Two spellings that the library would parse to equal URIs are distinct here.
- `AuthorizationCodeDetails` keeps only the four fields the generator reads. The declarations of `AuthorizationCodeDetails`, `ClientId`, `AuthorizationCode`, `IdTokenContainer`, `Uri` and the `AccessTokenError` hierarchy are rebuilt from how the generator and the value types use them. `IdTokenContainer` (an OpenID Connect type) is placed in `Security` and `Uri` (an HTTP core type) in `OAuthServer`, beside the types that use them. The access-token issuer's failures are restricted to `IssuerError` by the type `IssuerResult`, keeping them apart from the binding-check failures.
- The code store, access-token store and ID-token issuer are uninterpreted total functions. The code store always returns details, as in the source. Single-use consumption of codes and replay protection belong to the store and do not appear in the generator.
- Client-secret verification does not happen in the generator. The secret is extracted and then ignored (`ClientSecretIsIgnored`).
- `java.time.Clock` is replaced by an integer instant `now`. Instants are unbounded integers, so nanosecond precision and range limits are not modelled.
- Concurrency is not modelled: the generator is stateless and each call is independent.
