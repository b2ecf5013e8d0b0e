/** The token-exchange step of the OAuth2 Authorization Code grant (section
    4.1.3 of RFC 6749), with the OpenID Connect "code id_token" variant
    (section 3.3 of OpenID Connect Core 1.0): a decoded request is checked
    against the stored details of its code and, only if every check passes,
    exchanged for an access token and, where due, an ID token. */
module AuthorizationCodeAccessTokens {
  import opened Wrappers
  import opened Security
  import opened OAuthServer

  /** The decoded token request. */
  datatype AuthorizationCodeAccessTokenRequest = AuthorizationCodeAccessTokenRequest(
    clientId: ClientId,
    clientSecret: string,
    redirectUri: Uri,
    authorizationCode: AuthorizationCode)

  /** The collaborators the generator is built from: the code store, the
      access-token issuer and the ID-token issuer. The clock is not here; the
      instant it reads is passed to `Generate` as `now`. */
  datatype Generator = Generator(
    authorizationCodes: AuthorizationCode -> AuthorizationCodeDetails,
    accessTokens: AuthorizationCode -> IssuerResult,
    idTokens: AuthorizationCode -> IdTokenContainer)

  /** The stored details of the code a request presents. */
  function DetailsFor(g: Generator, request: AuthorizationCodeAccessTokenRequest): AuthorizationCodeDetails
  {
    g.authorizationCodes(request.authorizationCode)
  }

  // ---------------------------------------------------------------------
  // The binding checks, as an independent, declarative reference
  // ---------------------------------------------------------------------

  /** The binding checks, named by the error each one reports, in the order the generator applies them. */
  const BindingChecks: seq<AccessTokenError> := [AuthorizationCodeExpired, ClientIdMismatch, RedirectUriMismatch]

  /** Whether `check` fails for a request presented at `now` against stored details `d`. */
  predicate Violates(check: AccessTokenError, d: AuthorizationCodeDetails, now: Instant,
                     request: AuthorizationCodeAccessTokenRequest)
  {
    match check
    case AuthorizationCodeExpired => IsBefore(d.expiresAt, now)
    case ClientIdMismatch => d.clientId != request.clientId
    case RedirectUriMismatch => d.redirectUri != request.redirectUri
    case IssuerError(_) => false
  }

  /** Every binding check passes. */
  predicate BindingsHold(d: AuthorizationCodeDetails, now: Instant, request: AuthorizationCodeAccessTokenRequest)
  {
    forall i :: 0 <= i < |BindingChecks| ==> !Violates(BindingChecks[i], d, now, request)
  }

  /** `e` is the failure of the earliest binding check that fails. */
  predicate FirstViolation(e: AccessTokenError, d: AuthorizationCodeDetails, now: Instant,
                           request: AuthorizationCodeAccessTokenRequest)
  {
    exists i :: 0 <= i < |BindingChecks| && BindingChecks[i] == e && Violates(e, d, now, request)
      && forall j :: 0 <= j < i ==> !Violates(BindingChecks[j], d, now, request)
  }

  // ---------------------------------------------------------------------
  // The generator
  // ---------------------------------------------------------------------

  /** The details of a successful issuance: the ID token is attached exactly
      for the "code id_token" response type, and is minted for the same code. */
  function Issued(g: Generator, code: AuthorizationCode, responseType: ResponseType,
                  token: AccessTokenContainer): AccessTokenDetails
  {
    match responseType
    case Code => DetailsOf(token)
    case CodeIdToken => AccessTokenDetails(token, Some(g.idTokens(code)))
  }

  /** Asks the access-token issuer for a token for `code` and, on success,
      completes the details; an issuer failure is passed on unchanged. */
  function Issue(g: Generator, code: AuthorizationCode, responseType: ResponseType)
    : Result<AccessTokenDetails, AccessTokenError>
  {
    match g.accessTokens(code)
    case Failure(e) => Failure(e)
    case Success(token) => Success(Issued(g, code, responseType, token))
  }

  /** Exchanges an authorization code for tokens at time `now`. */
  function Generate(g: Generator, now: Instant, request: AuthorizationCodeAccessTokenRequest)
    : (r: Result<AccessTokenDetails, AccessTokenError>)
    ensures r.Success? ==> BindingsHold(DetailsFor(g, request), now, request)
    ensures r.Success? ==> g.accessTokens(request.authorizationCode) == Success(r.value.accessToken)
    ensures r.Success? ==> (r.value.idToken.Some? <==> DetailsFor(g, request).responseType == CodeIdToken)
    ensures r.Success? && r.value.idToken.Some? ==> r.value.idToken.value == g.idTokens(request.authorizationCode)
  {
    var code := request.authorizationCode;
    var codeDetails := g.authorizationCodes(code);
    if IsBefore(codeDetails.expiresAt, now) then Failure(AuthorizationCodeExpired)
    else if codeDetails.clientId != request.clientId then Failure(ClientIdMismatch)
    else if codeDetails.redirectUri != request.redirectUri then Failure(RedirectUriMismatch)
    else Issue(g, code, codeDetails.responseType)
  }

  // ---------------------------------------------------------------------
  // Properties of the generator
  // ---------------------------------------------------------------------

  /** An expired code fails as expired, whatever the client id and redirect URI. */
  lemma ExpiredCodeFails(g: Generator, now: Instant, request: AuthorizationCodeAccessTokenRequest)
    requires IsBefore(DetailsFor(g, request).expiresAt, now)
    ensures Generate(g, now, request) == Failure(AuthorizationCodeExpired)
  {
  }

  /** Expiry is strict: at the very instant `expiresAt` the code is still good,
      and the clock matters only through which side of `expiresAt` it is on. */
  lemma ExpiryIsStrict(g: Generator, now: Instant, later: Instant, request: AuthorizationCodeAccessTokenRequest)
    requires now <= DetailsFor(g, request).expiresAt
    requires later <= DetailsFor(g, request).expiresAt
    ensures Generate(g, now, request) == Generate(g, later, request)
    ensures DetailsFor(g, request).clientId == request.clientId
            && DetailsFor(g, request).redirectUri == request.redirectUri
            ==> Generate(g, DetailsFor(g, request).expiresAt, request)
                == Issue(g, request.authorizationCode, DetailsFor(g, request).responseType)
  {
  }

  /** A live code presented by another client fails as a client mismatch, even
      if the redirect URI differs too: the client check comes first. */
  lemma ClientIdCheckedBeforeRedirectUri(g: Generator, now: Instant, request: AuthorizationCodeAccessTokenRequest)
    requires !IsBefore(DetailsFor(g, request).expiresAt, now)
    requires DetailsFor(g, request).clientId != request.clientId
    ensures Generate(g, now, request) == Failure(ClientIdMismatch)
  {
  }

  /** A live code presented by its own client with another redirect URI fails as a redirect mismatch. */
  lemma RedirectUriMismatchFails(g: Generator, now: Instant, request: AuthorizationCodeAccessTokenRequest)
    requires !IsBefore(DetailsFor(g, request).expiresAt, now)
    requires DetailsFor(g, request).clientId == request.clientId
    requires DetailsFor(g, request).redirectUri != request.redirectUri
    ensures Generate(g, now, request) == Failure(RedirectUriMismatch)
  {
  }

  /** When a binding check fails, neither issuer is consulted: two generators
      whose stores agree on the code give the same result, whatever their issuers do. */
  lemma FailedCheckConsultsNoIssuer(g1: Generator, g2: Generator, now: Instant,
                                    request: AuthorizationCodeAccessTokenRequest)
    requires DetailsFor(g1, request) == DetailsFor(g2, request)
    requires !BindingsHold(DetailsFor(g1, request), now, request)
    ensures Generate(g1, now, request) == Generate(g2, now, request)
    ensures Generate(g1, now, request).Failure?
  {
  }

  /** When every check passes, an issuer failure comes back unchanged, and a
      success holds the issuer's token for the request's own code, with an ID
      token for that code exactly when the stored response type asks for one. */
  lemma IssuanceWhenChecksPass(g: Generator, now: Instant, request: AuthorizationCodeAccessTokenRequest)
    requires BindingsHold(DetailsFor(g, request), now, request)
    ensures g.accessTokens(request.authorizationCode).Failure? ==>
              Generate(g, now, request) == Failure(g.accessTokens(request.authorizationCode).reason)
    ensures g.accessTokens(request.authorizationCode).Success? &&
            DetailsFor(g, request).responseType == Code ==>
              Generate(g, now, request)
              == Success(DetailsOf(g.accessTokens(request.authorizationCode).value))
    ensures g.accessTokens(request.authorizationCode).Success? &&
            DetailsFor(g, request).responseType == CodeIdToken ==>
              Generate(g, now, request)
              == Success(AccessTokenDetails(g.accessTokens(request.authorizationCode).value,
                                            Some(g.idTokens(request.authorizationCode))))
  {
    assert !Violates(BindingChecks[0], DetailsFor(g, request), now, request);
    assert !Violates(BindingChecks[1], DetailsFor(g, request), now, request);
    assert !Violates(BindingChecks[2], DetailsFor(g, request), now, request);
  }

  /** The reference reading of the check order: the result is the issuance
      exactly when no check fails, and otherwise the failure of the first
      check, in the fixed order, that fails. */
  lemma GenerateReportsFirstViolation(g: Generator, now: Instant, request: AuthorizationCodeAccessTokenRequest)
    ensures BindingsHold(DetailsFor(g, request), now, request) ==>
              Generate(g, now, request)
              == Issue(g, request.authorizationCode, DetailsFor(g, request).responseType)
    ensures !BindingsHold(DetailsFor(g, request), now, request) ==>
              Generate(g, now, request).Failure?
              && FirstViolation(Generate(g, now, request).reason, DetailsFor(g, request), now, request)
  {
    var d := DetailsFor(g, request);
    if BindingsHold(d, now, request) {
      IssuanceWhenChecksPass(g, now, request);
    } else if IsBefore(d.expiresAt, now) {
      assert BindingChecks[0] == AuthorizationCodeExpired;
    } else if d.clientId != request.clientId {
      assert BindingChecks[1] == ClientIdMismatch;
      assert !Violates(BindingChecks[0], d, now, request);
    } else {
      assert BindingChecks[2] == RedirectUriMismatch;
      assert !Violates(BindingChecks[0], d, now, request);
      assert !Violates(BindingChecks[1], d, now, request);
    }
  }

  /** At most one error is the first violation, so the check order decides the failure uniquely. */
  lemma FirstViolationIsUnique(e1: AccessTokenError, e2: AccessTokenError, d: AuthorizationCodeDetails,
                               now: Instant, request: AuthorizationCodeAccessTokenRequest)
    requires FirstViolation(e1, d, now, request)
    requires FirstViolation(e2, d, now, request)
    ensures e1 == e2
  {
  }

  /** The converse of the check order: a failure that is not the issuer's is
      the error of the earliest binding check that really fails. */
  lemma BindingErrorMeansViolation(g: Generator, now: Instant, request: AuthorizationCodeAccessTokenRequest)
    requires Generate(g, now, request).Failure?
    requires !Generate(g, now, request).reason.IssuerError?
    ensures FirstViolation(Generate(g, now, request).reason, DetailsFor(g, request), now, request)
  {
    GenerateReportsFirstViolation(g, now, request);
  }

  /** The client secret is never read: requests differing only in it give the same result. */
  lemma ClientSecretIsIgnored(g: Generator, now: Instant, request: AuthorizationCodeAccessTokenRequest, secret: string)
    ensures Generate(g, now, request.(clientSecret := secret)) == Generate(g, now, request)
  {
  }

  // ---------------------------------------------------------------------
  // The form extractor
  // ---------------------------------------------------------------------

  /** A decoded web form: each field name present maps to its value. */
  type Form = map<string, string>

  /** The required form fields, in the order the form lens declares them. */
  const RequiredFields: seq<string> := ["code", "redirect_uri", "client_id", "client_secret"]

  /** The names among `names` that `form` lacks, in the order of `names`: the
      failures a strict form validator collects before rejecting the form. */
  function MissingFields(names: seq<string>, form: Form): (missing: seq<string>)
    ensures forall n :: n in missing <==> n in names && n !in form
    ensures |missing| <= |names|
  {
    if names == [] then []
    else (if names[0] in form then [] else [names[0]]) + MissingFields(names[1..], form)
  }

  /** The missing fields depend only on which of the named fields are present. */
  lemma {:induction false} MissingFieldsOnlyReadsNames(names: seq<string>, f1: Form, f2: Form)
    requires forall n :: n in names ==> (n in f1 <==> n in f2)
    ensures MissingFields(names, f1) == MissingFields(names, f2)
  {
    if names != [] {
      assert names[0] in names;
      MissingFieldsOnlyReadsNames(names[1..], f1, f2);
    }
  }

  /** Decodes the token request from a form; `None` stands for the lens failure
      raised when a required field is missing. */
  function Extract(form: Form): (r: Option<AuthorizationCodeAccessTokenRequest>)
    ensures r.Some? <==> forall n :: n in RequiredFields ==> n in form
    ensures r.Some? ==> r.value.authorizationCode.value == form["code"]
    ensures r.Some? ==> r.value.redirectUri.text == form["redirect_uri"]
    ensures r.Some? ==> r.value.clientId.value == form["client_id"]
    ensures r.Some? ==> r.value.clientSecret == form["client_secret"]
  {
    var missing := MissingFields(RequiredFields, form);
    if missing != [] then
      assert missing[0] in missing;
      None
    else
      assert "code" in RequiredFields && "redirect_uri" in RequiredFields;
      assert "client_id" in RequiredFields && "client_secret" in RequiredFields;
      Some(AuthorizationCodeAccessTokenRequest(
        ClientId(form["client_id"]),
        form["client_secret"],
        Uri(form["redirect_uri"]),
        AuthorizationCode(form["code"])))
  }

  /** The form a client submits for a request: the four required fields. */
  function FormOf(request: AuthorizationCodeAccessTokenRequest): Form
  {
    map["code" := request.authorizationCode.value,
        "redirect_uri" := request.redirectUri.text,
        "client_id" := request.clientId.value,
        "client_secret" := request.clientSecret]
  }

  /** Extraction recovers every request from its form. */
  lemma ExtractFormOf(request: AuthorizationCodeAccessTokenRequest)
    ensures Extract(FormOf(request)) == Some(request)
  {
  }

  /** Extraction reads only the four required fields: forms that agree on them
      (presence and value) decode alike, whatever other fields they carry. */
  lemma ExtractIgnoresOtherFields(f1: Form, f2: Form)
    requires forall n :: n in RequiredFields ==> (n in f1 <==> n in f2)
    requires forall n :: n in RequiredFields && n in f1 ==> f1[n] == f2[n]
    ensures Extract(f1) == Extract(f2)
  {
    MissingFieldsOnlyReadsNames(RequiredFields, f1, f2);
  }

  /** The exchange of a raw form: extraction, then generation. `None` is the
      extraction failure, which stops the exchange before any code lookup. */
  function GenerateFromForm(g: Generator, now: Instant, form: Form)
    : (r: Option<Result<AccessTokenDetails, AccessTokenError>>)
    ensures r.None? <==> exists n :: n in RequiredFields && n !in form
    ensures r.Some? && r.value.Success? ==>
              var d := g.authorizationCodes(AuthorizationCode(form["code"]));
              && !IsBefore(d.expiresAt, now)
              && d.clientId == ClientId(form["client_id"])
              && d.redirectUri == Uri(form["redirect_uri"])
              && g.accessTokens(AuthorizationCode(form["code"])) == Success(r.value.value.accessToken)
  {
    match Extract(form)
    case None => None
    case Some(request) => Some(Generate(g, now, request))
  }

  // ---------------------------------------------------------------------
  // Worked scenarios
  // ---------------------------------------------------------------------

  const ScenarioCode := AuthorizationCode("abc123")
  const ScenarioClient := ClientId("client1")
  const ScenarioRedirect := Uri("https://app.example/cb")

  /** A store that gives every code the same details: issued for `client1`,
      valid up to tick 60, with response type `Code`. */
  function ScenarioGenerator(token: AccessTokenContainer, id: IdTokenContainer): Generator
  {
    Generator(
      (c: AuthorizationCode) => AuthorizationCodeDetails(ScenarioClient, ScenarioRedirect, 60, Code),
      (c: AuthorizationCode) => var r: IssuerResult := Success(token); r,
      (c: AuthorizationCode) => id)
  }

  /** A matching request inside the validity window succeeds, without an ID
      token; another client or a late request fails with the matching error. */
  lemma ScenarioOutcomes(token: AccessTokenContainer, id: IdTokenContainer)
    ensures Generate(ScenarioGenerator(token, id), 0,
              AuthorizationCodeAccessTokenRequest(ScenarioClient, "secret", ScenarioRedirect, ScenarioCode))
            == Success(AccessTokenDetails(token, None))
    ensures Generate(ScenarioGenerator(token, id), 0,
              AuthorizationCodeAccessTokenRequest(ClientId("other-client"), "secret", ScenarioRedirect, ScenarioCode))
            == Failure(ClientIdMismatch)
    ensures Generate(ScenarioGenerator(token, id), 61,
              AuthorizationCodeAccessTokenRequest(ScenarioClient, "secret", ScenarioRedirect, ScenarioCode))
            == Failure(AuthorizationCodeExpired)
  {
  }
}
