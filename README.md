# Authentication front door of the Minio object-storage server

A Dafny model of `auth-handler.go`, the layer that sits in front of the
object-storage HTTP handlers. It covers three things:

- **The classifier.** Five predicates look at a request:
  - an `Authorization` value starting with `AWS4-HMAC-SHA256`;
  - an `Authorization` value starting with `Bearer`;
  - an `X-Amz-Credential` query key;
  - a `POST` whose `Content-Type` contains `multipart/form-data`;
  - an absent `Authorization` header.

  `getRequestAuthType` turns them, first match wins, into one of six
  authentication types. The companion predicate `isRequestAnonymous` is
  modelled too.
- **The verdict mapper.** `isSignV4ReqAuthenticated` sends a request to the
  SigV4 header check or to the presigned-URL check. It turns the verifier's
  answer into a `(match, errorCode)` pair.
- **The dispatch middleware.** `authHandler.ServeHTTP` forwards the request to
  the next handler, answers 401, or writes a `SignatureVersionNotSupported`
  error that carries the request path.

The code is pure, so the model is made of datatypes, functions and lemmas:

- `strings.dfy` (module `Strings`) models Go's `strings.HasPrefix` and
  `strings.Contains`. `Contains` is proved equal to a declarative "occurs
  somewhere" predicate.
- `http_request.dfy` (module `HttpRequest`) is the request view:
  - the method;
  - the header map, from canonical key to its list of values;
  - the parsed query map;
  - the path.

  `HeaderGet` is Go's `Header.Get`: the first value, or `""`.
- `auth_handler.dfy` (module `AuthHandler`) holds the constants, the
  predicates, the classifier, the mapper and the middleware.
  - The external signature checks are parameters. The header check is a
    function from the payload hash to a `Verdict`. The presigned check is a
    `Verdict`.
  - The JWT check is a parameter of type `Request -> bool`.
  - `ServeHTTP` returns an `Outcome`: `Forward`, `WriteStatus(401)` or
    `WriteError(code, path)`.

An ordered rule table, `Rules` with `FirstClaim`/`FirstMatch`, is an
independent reference for the classifier. It is proved to agree with the
if/else chain on every request.

The `Bearer` test is a bare prefix test, as in the code. `Authorization:
Bearerxyz` counts as a bearer token, although section 2.1 of RFC 6750 asks
for a space after the scheme name (`BarePrefixIsBearer`).

A request without an `Authorization` header is Anonymous only when it has no
`X-Amz-Credential` query and is not a form POST. Otherwise it is Presigned or
PostPolicy (`AnonymousCharacterized`).

## Model

| member | source | states |
|---|---|---|
| Strings.Contains | auth-handler.go:64 | `strings.Contains` holds exactly when the pattern occurs at some position of the string; a contained pattern is never longer than the string |
| Strings.ContainsInContext | auth-handler.go:64 | text added before or after a string keeps every pattern it contains, so `multipart/form-data` anywhere in the `Content-Type` counts |
| Strings.DistinctPrefixesExclude | auth-handler.go:29-30 | no string starts with two prefixes whose first characters differ |
| Strings.HasPrefixPointwise | auth-handler.go:36 | `strings.HasPrefix` holds exactly when the prefix is no longer than the string and agrees with it character by character |
| HttpRequest.HeaderGet | auth-handler.go:36 | `Header.Get` gives the key's first value when the key has values, and `""` when the key is absent or has no values |
| AuthHandler.JwtHeaderCharacterized | auth-handler.go:34-41 | the bearer predicate holds exactly when the `Authorization` header has a first value beginning with `Bearer`; a header present with no values does not qualify |
| AuthHandler.SignatureV4HeaderCharacterized | auth-handler.go:44-51 | the SigV4 predicate holds exactly when the `Authorization` header has a first value beginning with `AWS4-HMAC-SHA256` |
| AuthHandler.PresignedIgnoresCredentialValue | auth-handler.go:54-59 | the presigned predicate depends only on the `X-Amz-Credential` key: any value list under it, even an empty one, makes the request presigned, and without the key it is not |
| AuthHandler.AnonymousPredicateCharacterized | auth-handler.go:72-77 | `isRequestAnonymous` holds exactly when there is no credential query, no form POST, and either no `Authorization` header or one whose first value starts with neither `Bearer` nor `AWS4-HMAC-SHA256` |
| AuthHandler.GetRequestAuthType | auth-handler.go:93-106 | a SigV4 header gives Signed whatever else the request holds; otherwise a credential query gives Presigned; Anonymous only without an `Authorization` header; Unknown exactly when the header is present and no scheme predicate holds; `isRequestAnonymous` holds exactly for Anonymous or Unknown |
| AuthHandler.FirstClaim | auth-handler.go:93-106 | the position it returns is the first rule the request claims: every earlier rule fails and the rule at that position holds |
| AuthHandler.ClassifierMatchesRuleTable | auth-handler.go:93-106 | the if/else chain equals the first-match result of the ordered rule table Signed, Presigned, JWT, PostPolicy, Anonymous, Unknown |
| AuthHandler.ClassificationIsFirstClaim | auth-handler.go:93-106 | the request gets type number i exactly when it claims rule i and none of the rules before it, so exactly one type is chosen |
| AuthHandler.JwtExcludesSignatureV4 | auth-handler.go:29-51 | the bearer and SigV4 predicates never both hold |
| AuthHandler.PostPolicyCharacterized | auth-handler.go:62-69 | the form-POST predicate holds exactly when `Content-Type` is present, `multipart/form-data` occurs in its first value and the method is exactly `POST` |
| AuthHandler.AnonymousCharacterized | auth-handler.go:93-106 | Anonymous exactly when there is no `Authorization` header, no credential query and no form POST |
| AuthHandler.AnonymousAgreementWithoutHeader | auth-handler.go:72-77 | without an `Authorization` header, `isRequestAnonymous` agrees with the classifier's Anonymous |
| AuthHandler.CheckOf | auth-handler.go:114-131 | a verifier error gives InternalError, a mismatch gives SignatureDoesNotMatch, a match gives None; the match flag is true exactly with None |
| AuthHandler.IsSignV4ReqAuthenticated | auth-handler.go:109-134 | match only with None; a SigV4 header is checked first, against the empty-payload hash; otherwise a credential query uses the presigned verdict; AccessDenied exactly when neither path applies |
| AuthHandler.AccessDeniedOutsideSignaturePaths | auth-handler.go:109-134 | the mapper answers AccessDenied exactly for requests the classifier does not call Signed or Presigned |
| AuthHandler.HeaderPathIgnoresPresignedVerdict | auth-handler.go:111-122 | with a SigV4 header the presigned verdict cannot change the mapper's answer |
| AuthHandler.ServeHTTP | auth-handler.go:148-166 | Anonymous, Presigned, Signed and PostPolicy are forwarded; JWT is forwarded exactly when the token checks out and otherwise gets status 401; an error response is written exactly for an `Authorization` header of no known shape, and it carries SignatureVersionNotSupported and the request path |
| AuthHandler.DispatchIgnoresTokenCheckOutsideJWT | auth-handler.go:149-154 | outside the JWT type the token check is not consulted: any two token checks give the same outcome |
| AuthHandler.ForwardOnlyWhenAccepted | auth-handler.go:148-166 | a forwarded request has no unrecognised `Authorization` header and, if it is JWT, a valid token |
| AuthHandler.SignedHeaderBeatsPresignedQuery | auth-handler.go:93-97 | a SigV4 header plus an `X-Amz-Credential` query is Signed |
| AuthHandler.BasicHeaderIsUnknown | auth-handler.go:72-106 | `Authorization: Basic xyz` is Unknown to the classifier but anonymous to `isRequestAnonymous`, and is rejected with SignatureVersionNotSupported and the path |
| AuthHandler.BearerTokenRejected | auth-handler.go:155-160 | `Authorization: Bearer abc.def.ghi` is JWT, and a failed token check gives status 401 |
| AuthHandler.BarePrefixIsBearer | auth-handler.go:34-41 | `Authorization: Bearerxyz` is JWT: only the bare prefix is tested |
| AuthHandler.FormPostForwarded | auth-handler.go:62-69 | a `POST` with `multipart/form-data` in its `Content-Type` and no `Authorization` header is PostPolicy and is forwarded |
| AuthHandler.PresignedGetForwarded | auth-handler.go:53-59 | a `GET` with an `X-Amz-Credential` query and no `Authorization` header is Presigned and is forwarded |

## Left out

- SHA-256 and hex encoding of the empty payload are foreign crypto calls. The result is the constant `EmptyPayloadSha256`, handed to the header check.
- `signature4.Sign`, `SetHTTPRequestToVerify`, `DoesSignatureMatch` and `DoesPresignedSignatureMatch` belong to an external package that is not part of this model. They are uninterpreted verdicts (`Verified(ok)` or `VerifyError`).
- `isJWTReqAuthenticated` is not part of this model. It is a `Request -> bool` parameter.
- `errorIf` logging, `writeErrorResponse` serialisation and `http.ResponseWriter` writes are I/O. They are the returned `Outcome`.
- `setAuthHandler` and the `http.Handler` plumbing only wrap a handler. A call to the downstream handler is the `Forward` outcome, so it happens at most once by construction.
- Go's header-key canonicalisation and URL query parsing are framework behaviour. The request holds canonical header keys and an already parsed query map.
- Go strings are byte strings. The model uses character sequences. Every pattern tested here is ASCII, so prefix and substring tests agree.
