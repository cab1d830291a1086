/** The authentication front door of the object-storage server: it classifies
    each request by the authentication scheme it claims, maps the verdict of
    the AWS Signature Version 4 verifier to an error code, and decides whether
    a request is forwarded to the next handler or rejected. */
module AuthHandler {

  import opened Strings
  import opened HttpRequest

  // ---------------------------------------------------------------------------
  // Vocabulary
  // ---------------------------------------------------------------------------

  const SignV4Algorithm: string := "AWS4-HMAC-SHA256"
  const JwtAlgorithm: string := "Bearer"

  const AuthorizationHeader: string := "Authorization"
  const ContentTypeHeader: string := "Content-Type"
  const CredentialQuery: string := "X-Amz-Credential"
  const MultipartFormData: string := "multipart/form-data"
  const MethodPost: string := "POST"

  /** Lower-case hex SHA-256 digest of the empty payload, the payload hash the
      header path hands to the signature verifier. */
  const EmptyPayloadSha256: string := "e3b0c44298fc1c149afbf4c8996fb92427ae41e4649b934ca495991b7852b855"

  /** HTTP status written when a bearer token is rejected. */
  const StatusUnauthorized: int := 401

  /** The authentication scheme a request claims, one per request. */
  datatype AuthType = Unknown | Anonymous | Presigned | PostPolicy | Signed | JWT

  /** The error codes this layer itself can produce. */
  datatype ErrorCode = None | SignatureDoesNotMatch | InternalError | AccessDenied | SignatureVersionNotSupported

  // ---------------------------------------------------------------------------
  // Request predicates
  // ---------------------------------------------------------------------------

  /** The `Authorization` header is present and its first value starts with `Bearer`.
      Only the bare prefix is tested: no space after it is required. */
  predicate IsRequestJWT(r: Request)
  {
    HasHeader(r, AuthorizationHeader) && HasPrefix(HeaderGet(r, AuthorizationHeader), JwtAlgorithm)
  }

  /** The `Authorization` header is present and its first value starts with `AWS4-HMAC-SHA256`. */
  predicate IsRequestSignatureV4(r: Request)
  {
    HasHeader(r, AuthorizationHeader) && HasPrefix(HeaderGet(r, AuthorizationHeader), SignV4Algorithm)
  }

  /** The query carries an `X-Amz-Credential` key, whatever its value. */
  predicate IsRequestPresignedSignatureV4(r: Request)
  {
    HasQuery(r, CredentialQuery)
  }

  /** A `POST` whose `Content-Type` header is present and contains `multipart/form-data`. */
  predicate IsRequestPostPolicySignatureV4(r: Request)
  {
    HasHeader(r, ContentTypeHeader) && Contains(HeaderGet(r, ContentTypeHeader), MultipartFormData) && r.httpMethod == MethodPost
  }

  /** None of the four scheme predicates holds. */
  predicate IsRequestAnonymous(r: Request)
  {
    !(IsRequestJWT(r) || IsRequestSignatureV4(r) || IsRequestPresignedSignatureV4(r) || IsRequestPostPolicySignatureV4(r))
  }

  // ---------------------------------------------------------------------------
  // Classifier
  // ---------------------------------------------------------------------------

  /** The classifier: the first predicate that holds, in the order SigV4 header,
      presigned query, bearer header, form POST, no `Authorization` header;
      `Unknown` when an `Authorization` header of no known shape is present. */
  function GetRequestAuthType(r: Request): (t: AuthType)
    // the SigV4 header wins over the query, the method and the content type
    ensures IsRequestSignatureV4(r) ==> t == Signed
    // the presigned query wins over a bearer header and a form POST
    ensures !IsRequestSignatureV4(r) && IsRequestPresignedSignatureV4(r) ==> t == Presigned
    ensures t == Anonymous ==> !HasHeader(r, AuthorizationHeader)
    ensures t == Unknown <==> HasHeader(r, AuthorizationHeader) && IsRequestAnonymous(r)
    // the companion predicate lumps Unknown in with Anonymous
    ensures IsRequestAnonymous(r) <==> t == Anonymous || t == Unknown
  {
    if IsRequestSignatureV4(r) then Signed
    else if IsRequestPresignedSignatureV4(r) then Presigned
    else if IsRequestJWT(r) then JWT
    else if IsRequestPostPolicySignatureV4(r) then PostPolicy
    else if !HasHeader(r, AuthorizationHeader) then Anonymous
    else Unknown
  }

  // ---------------------------------------------------------------------------
  // Reference classifier: an ordered rule table, first match wins
  // ---------------------------------------------------------------------------

  /** The condition under which a request claims scheme `t`; `Unknown` is the
      catch-all. */
  predicate Claims(t: AuthType, r: Request)
  {
    match t
    case Signed => IsRequestSignatureV4(r)
    case Presigned => IsRequestPresignedSignatureV4(r)
    case JWT => IsRequestJWT(r)
    case PostPolicy => IsRequestPostPolicySignatureV4(r)
    case Anonymous => !HasHeader(r, AuthorizationHeader)
    case Unknown => true
  }

  /** The schemes in order of priority. */
  const Rules: seq<AuthType> := [Signed, Presigned, JWT, PostPolicy, Anonymous, Unknown]

  /** The position of the first rule the request claims, `|rules|` if none. */
  function FirstClaim(rules: seq<AuthType>, r: Request): (k: nat)
    ensures k <= |rules|
    ensures k < |rules| ==> Claims(rules[k], r)
    ensures forall j :: 0 <= j < k ==> !Claims(rules[j], r)
  {
    if |rules| == 0 || Claims(rules[0], r) then 0
    else 1 + FirstClaim(rules[1..], r)
  }

  /** The scheme of the first rule the request claims, `Unknown` if none. */
  function FirstMatch(rules: seq<AuthType>, r: Request): AuthType
  {
    var k := FirstClaim(rules, r);
    if k < |rules| then rules[k] else Unknown
  }

  // ---------------------------------------------------------------------------
  // Signature verdict mapper
  // ---------------------------------------------------------------------------

  /** What an external signature check reports: a match result, or an error. */
  datatype Verdict = Verified(ok: bool) | VerifyError

  /** `(match, errorCode)` as returned by `isSignV4ReqAuthenticated`. */
  datatype SignCheck = SignCheck(matched: bool, code: ErrorCode)

  /** Turns one verifier verdict into `(match, errorCode)`. */
  function CheckOf(v: Verdict): (c: SignCheck)
    ensures c.matched <==> c.code == None
    ensures c.matched <==> v == Verified(true)
    ensures c.code == InternalError <==> v == VerifyError
    ensures c.code == SignatureDoesNotMatch <==> v == Verified(false)
  {
    match v
    case VerifyError => SignCheck(false, InternalError)
    case Verified(ok) => if !ok then SignCheck(false, SignatureDoesNotMatch) else SignCheck(ok, None)
  }

  /** `isSignV4ReqAuthenticated`. `doesSignatureMatch` stands for the header
      signature check, given the hex payload hash; `doesPresignedSignatureMatch`
      for the verdict of the presigned-URL check. */
  function IsSignV4ReqAuthenticated(r: Request, doesSignatureMatch: string -> Verdict,
                                    doesPresignedSignatureMatch: Verdict): (c: SignCheck)
    ensures c.matched <==> c.code == None
    // the header path is tried first, with the hash of the empty payload
    ensures IsRequestSignatureV4(r) ==>
              (c.matched <==> doesSignatureMatch(EmptyPayloadSha256) == Verified(true)) &&
              (c.code == InternalError <==> doesSignatureMatch(EmptyPayloadSha256) == VerifyError)
    ensures !IsRequestSignatureV4(r) && IsRequestPresignedSignatureV4(r) ==>
              (c.matched <==> doesPresignedSignatureMatch == Verified(true)) &&
              (c.code == InternalError <==> doesPresignedSignatureMatch == VerifyError)
    ensures c.code == AccessDenied <==> !IsRequestSignatureV4(r) && !IsRequestPresignedSignatureV4(r)
    ensures c.code != SignatureVersionNotSupported
  {
    if IsRequestSignatureV4(r) then CheckOf(doesSignatureMatch(EmptyPayloadSha256))
    else if IsRequestPresignedSignatureV4(r) then CheckOf(doesPresignedSignatureMatch)
    else SignCheck(false, AccessDenied)
  }

  // ---------------------------------------------------------------------------
  // Dispatch middleware
  // ---------------------------------------------------------------------------

  /** What `authHandler.ServeHTTP` does with a request: hand it to the
      downstream handler, write a bare status, or write an error response
      carrying the request path. */
  datatype Outcome = Forward | WriteStatus(status: int) | WriteError(code: ErrorCode, resource: string)

  /** `authHandler.ServeHTTP`; `isJWTReqAuthenticated` stands for the token check. */
  function ServeHTTP(r: Request, isJWTReqAuthenticated: Request -> bool): (o: Outcome)
    // known schemes other than the bearer token pass through
    ensures GetRequestAuthType(r) in {Anonymous, Presigned, Signed, PostPolicy} ==> o == Forward
    // the bearer token gate
    ensures GetRequestAuthType(r) == JWT ==> (o == Forward <==> isJWTReqAuthenticated(r))
    ensures o.WriteStatus? <==> GetRequestAuthType(r) == JWT && !isJWTReqAuthenticated(r)
    ensures o.WriteStatus? ==> o.status == StatusUnauthorized
    // an Authorization header of no known shape is never forwarded
    ensures o.WriteError? <==> HasHeader(r, AuthorizationHeader) && IsRequestAnonymous(r)
    ensures o.WriteError? ==> o == WriteError(SignatureVersionNotSupported, r.path)
  {
    match GetRequestAuthType(r)
    case Anonymous | Presigned | Signed | PostPolicy => Forward
    case JWT => if !isJWTReqAuthenticated(r) then WriteStatus(StatusUnauthorized) else Forward
    case Unknown => WriteError(SignatureVersionNotSupported, r.path)
  }

  // ---------------------------------------------------------------------------
  // Properties
  // ---------------------------------------------------------------------------

  /** The if/else chain and the rule table agree on every request. */
  lemma ClassifierMatchesRuleTable(r: Request)
    ensures GetRequestAuthType(r) == FirstMatch(Rules, r)
  {
    var k := FirstClaim(Rules, r);
    assert Claims(Rules[5], r);
    if k > 0 { assert !Claims(Rules[0], r); }
    if k > 1 { assert !Claims(Rules[1], r); }
    if k > 2 { assert !Claims(Rules[2], r); }
    if k > 3 { assert !Claims(Rules[3], r); }
    if k > 4 { assert !Claims(Rules[4], r); }
  }

  /** Exactly one scheme is chosen and it is the first one, in priority order,
      that the request claims. */
  lemma {:induction false} ClassificationIsFirstClaim(r: Request, i: nat)
    requires i < |Rules|
    ensures GetRequestAuthType(r) == Rules[i] <==> Claims(Rules[i], r) && forall j :: 0 <= j < i ==> !Claims(Rules[j], r)
  {
    ClassifierMatchesRuleTable(r);
    var k := FirstClaim(Rules, r);
    assert k < |Rules| by { assert Claims(Rules[5], r); }
    // the rules are pairwise distinct, so the chosen scheme is Rules[i] exactly when k == i
    assert forall a, b :: 0 <= a < b < |Rules| ==> Rules[a] != Rules[b];
  }

  /** A bearer header and a SigV4 header never coexist. */
  lemma JwtExcludesSignatureV4(r: Request)
    ensures !(IsRequestJWT(r) && IsRequestSignatureV4(r))
  {
    DistinctPrefixesExclude(HeaderGet(r, AuthorizationHeader), JwtAlgorithm, SignV4Algorithm);
  }

  /** The bearer predicate reads only the first `Authorization` value: it holds
      exactly when that header has a first value and the value begins with
      `Bearer`; a header present with no values is not a bearer header. */
  lemma JwtHeaderCharacterized(r: Request)
    ensures IsRequestJWT(r) <==>
              AuthorizationHeader in r.header && |r.header[AuthorizationHeader]| > 0 &&
              HasPrefix(r.header[AuthorizationHeader][0], "Bearer")
  {
  }

  /** The SigV4 predicate reads only the first `Authorization` value, and
      holds exactly when that value begins with `AWS4-HMAC-SHA256`. */
  lemma SignatureV4HeaderCharacterized(r: Request)
    ensures IsRequestSignatureV4(r) <==>
              AuthorizationHeader in r.header && |r.header[AuthorizationHeader]| > 0 &&
              HasPrefix(r.header[AuthorizationHeader][0], "AWS4-HMAC-SHA256")
  {
  }

  /** Only the presence of `X-Amz-Credential` matters: any value list under
      that key, even an empty one, makes the request presigned, and removing
      the key undoes it. */
  lemma PresignedIgnoresCredentialValue(r: Request, values: seq<string>)
    ensures IsRequestPresignedSignatureV4(r.(query := r.query[CredentialQuery := values]))
    ensures !IsRequestPresignedSignatureV4(r.(query := r.query - {CredentialQuery}))
  {
  }

  /** The companion predicate spelled out on the raw request: no credential
      query, no form POST, and either no `Authorization` header or one whose
      first value starts with neither scheme name. */
  lemma AnonymousPredicateCharacterized(r: Request)
    ensures IsRequestAnonymous(r) <==>
              !IsRequestPresignedSignatureV4(r) && !IsRequestPostPolicySignatureV4(r) &&
              (AuthorizationHeader !in r.header ||
               !(HasPrefix(HeaderGet(r, AuthorizationHeader), JwtAlgorithm) ||
                 HasPrefix(HeaderGet(r, AuthorizationHeader), SignV4Algorithm)))
  {
  }

  /** The form-POST predicate in terms of an occurrence of `multipart/form-data`. */
  lemma PostPolicyCharacterized(r: Request)
    ensures IsRequestPostPolicySignatureV4(r) <==>
              HasHeader(r, ContentTypeHeader) && Occurs(HeaderGet(r, ContentTypeHeader), MultipartFormData) && r.httpMethod == "POST"
  {
  }

  /** Classified as Anonymous exactly when there is no `Authorization` header and
      neither a credential query nor a form POST. */
  lemma AnonymousCharacterized(r: Request)
    ensures GetRequestAuthType(r) == Anonymous <==>
              !HasHeader(r, AuthorizationHeader) && !IsRequestPresignedSignatureV4(r) && !IsRequestPostPolicySignatureV4(r)
  {
  }

  /** Without an `Authorization` header the companion predicate and the
      classifier's Anonymous agree. */
  lemma AnonymousAgreementWithoutHeader(r: Request)
    requires !HasHeader(r, AuthorizationHeader)
    ensures IsRequestAnonymous(r) <==> GetRequestAuthType(r) == Anonymous
  {
  }

  /** The verifier mapper reports AccessDenied exactly for requests that the
      classifier does not send down a signature path. */
  lemma AccessDeniedOutsideSignaturePaths(r: Request, doesSignatureMatch: string -> Verdict, p: Verdict)
    ensures IsSignV4ReqAuthenticated(r, doesSignatureMatch, p).code == AccessDenied <==>
              GetRequestAuthType(r) !in {Signed, Presigned}
  {
  }

  /** On the header path the presigned verdict is never consulted. */
  lemma HeaderPathIgnoresPresignedVerdict(r: Request, doesSignatureMatch: string -> Verdict, p1: Verdict, p2: Verdict)
    requires IsRequestSignatureV4(r)
    ensures IsSignV4ReqAuthenticated(r, doesSignatureMatch, p1) == IsSignV4ReqAuthenticated(r, doesSignatureMatch, p2)
  {
  }

  /** Outside the bearer-token class, the token check is never consulted. */
  lemma DispatchIgnoresTokenCheckOutsideJWT(r: Request, v1: Request -> bool, v2: Request -> bool)
    requires GetRequestAuthType(r) != JWT
    ensures ServeHTTP(r, v1) == ServeHTTP(r, v2)
  {
  }

  /** A request is forwarded only if its Authorization header, when present, is
      of a known shape and, when it is the bearer class, its token checks out. */
  lemma ForwardOnlyWhenAccepted(r: Request, isJWTReqAuthenticated: Request -> bool)
    requires ServeHTTP(r, isJWTReqAuthenticated) == Forward
    ensures HasHeader(r, AuthorizationHeader) ==> !IsRequestAnonymous(r)
    ensures GetRequestAuthType(r) == JWT ==> isJWTReqAuthenticated(r)
  {
  }

  // ---------------------------------------------------------------------------
  // Scenarios
  // ---------------------------------------------------------------------------

  /** A request with both a SigV4 header and a credential query is Signed. */
  lemma SignedHeaderBeatsPresignedQuery(credential: string, rest: string, verb: string, path: string)
    ensures var r := Request(verb, map[AuthorizationHeader := [SignV4Algorithm + rest]],
                             map[CredentialQuery := [credential]], path);
            GetRequestAuthType(r) == Signed
  {
  }

  /** `Authorization: Basic xyz` with no credential query is Unknown, and is
      rejected with SignatureVersionNotSupported carrying the path, while the
      companion predicate calls it anonymous. */
  lemma BasicHeaderIsUnknown(verb: string, path: string, isJWTReqAuthenticated: Request -> bool)
    ensures var r := Request(verb, map[AuthorizationHeader := ["Basic xyz"]], map[], path);
            && GetRequestAuthType(r) == Unknown
            && IsRequestAnonymous(r)
            && ServeHTTP(r, isJWTReqAuthenticated) == WriteError(SignatureVersionNotSupported, path)
  {
    var r := Request(verb, map[AuthorizationHeader := ["Basic xyz"]], map[], path);
    assert HeaderGet(r, AuthorizationHeader) == "Basic xyz";
    assert !HasPrefix("Basic xyz", JwtAlgorithm) by { assert "Basic xyz"[..6][1] != JwtAlgorithm[1]; }
    assert !HasPrefix("Basic xyz", SignV4Algorithm) by { assert "Basic xyz"[0] != SignV4Algorithm[0]; }
  }

  /** `Authorization: Bearer abc.def.ghi` is JWT; a failed token check yields 401. */
  lemma BearerTokenRejected(verb: string, path: string, isJWTReqAuthenticated: Request -> bool)
    ensures var r := Request(verb, map[AuthorizationHeader := ["Bearer abc.def.ghi"]], map[], path);
            && GetRequestAuthType(r) == JWT
            && (!isJWTReqAuthenticated(r) ==> ServeHTTP(r, isJWTReqAuthenticated) == WriteStatus(401))
  {
    var r := Request(verb, map[AuthorizationHeader := ["Bearer abc.def.ghi"]], map[], path);
    assert HeaderGet(r, AuthorizationHeader) == "Bearer abc.def.ghi";
    assert HasPrefix("Bearer abc.def.ghi", JwtAlgorithm) by { assert "Bearer abc.def.ghi"[..6] == JwtAlgorithm; }
    assert !HasPrefix("Bearer abc.def.ghi", SignV4Algorithm) by { assert "Bearer abc.def.ghi"[0] != SignV4Algorithm[0]; }
  }

  /** The bearer test is a bare prefix test: `Authorization: Bearerxyz`, with no
      space after the scheme name, is classified as a bearer token too. */
  lemma BarePrefixIsBearer(verb: string, path: string)
    ensures GetRequestAuthType(Request(verb, map[AuthorizationHeader := ["Bearerxyz"]], map[], path)) == JWT
  {
    var r := Request(verb, map[AuthorizationHeader := ["Bearerxyz"]], map[], path);
    assert HeaderGet(r, AuthorizationHeader) == "Bearerxyz";
    assert HasPrefix("Bearerxyz", JwtAlgorithm) by { assert "Bearerxyz"[..6] == JwtAlgorithm; }
    assert !HasPrefix("Bearerxyz", SignV4Algorithm) by { assert "Bearerxyz"[0] != SignV4Algorithm[0]; }
  }

  /** A browser form POST with no Authorization header is PostPolicy and
      forwarded, wherever `multipart/form-data` sits in its `Content-Type`. */
  lemma FormPostForwarded(front: string, back: string, path: string, isJWTReqAuthenticated: Request -> bool)
    ensures var r := Request(MethodPost, map[ContentTypeHeader := [front + MultipartFormData + back]], map[], path);
            && GetRequestAuthType(r) == PostPolicy
            && ServeHTTP(r, isJWTReqAuthenticated) == Forward
  {
    var ct := front + MultipartFormData + back;
    var r := Request(MethodPost, map[ContentTypeHeader := [ct]], map[], path);
    assert HeaderGet(r, ContentTypeHeader) == ct;
    assert HasPrefix(MultipartFormData, MultipartFormData);
    ContainsInContext(front, MultipartFormData, back, MultipartFormData);
  }

  /** A GET carrying `X-Amz-Credential` and no Authorization header is Presigned and forwarded. */
  lemma PresignedGetForwarded(credential: string, path: string, isJWTReqAuthenticated: Request -> bool)
    ensures var r := Request("GET", map[], map[CredentialQuery := [credential]], path);
            && GetRequestAuthType(r) == Presigned
            && ServeHTTP(r, isJWTReqAuthenticated) == Forward
  {
  }
}
