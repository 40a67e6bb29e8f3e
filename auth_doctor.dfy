/**
 * The doctor authentication middleware: it takes the token from the
 * Authorization header, strips one "Bearer " prefix, verifies it and hands
 * the doctor id on to the next handler.
 */
module AuthDoctor {
  import opened Wrappers
  import opened Text

  const BearerPrefix: string := "Bearer "

  /** The token in a header: the text after an exact, case-sensitive "Bearer " prefix, or the whole header. */
  function ExtractToken(header: string): (token: string)
    ensures StartsWith(header, BearerPrefix) ==> header == BearerPrefix + token
    ensures !StartsWith(header, BearerPrefix) ==> token == header
  {
    if StartsWith(header, BearerPrefix) then header[7..] else header
  }

  /** Prefixing a token with "Bearer " and extracting it gives the token back. */
  lemma {:induction false} ExtractBearer(token: string)
    ensures ExtractToken(BearerPrefix + token) == token
  {
    assert (BearerPrefix + token)[..7] == BearerPrefix;
  }

  /** Only one prefix is stripped: a doubled prefix leaves the second one in the token. */
  lemma OnePrefixStripped(token: string)
    ensures ExtractToken(BearerPrefix + (BearerPrefix + token)) == BearerPrefix + token
  {
    ExtractBearer(BearerPrefix + token);
  }

  /** The prefix match is case-sensitive and needs the trailing space. */
  lemma PrefixIsExact(token: string)
    ensures ExtractToken("bearer " + token) == "bearer " + token
    ensures ExtractToken("Bearer") == "Bearer"
  {
    assert ("bearer " + token)[0] == 'b';
  }

  /** The claims `jwt.verify` decodes; `id` is absent when the token carries none. */
  datatype Claims = Claims(id: Option<string>)

  /** What the middleware does: refuse with 401, or call the next handler with the doctor id. */
  datatype Outcome = Rejected(code: int, message: string) | Next(docId: Option<string>)

  /**
   * `authDoctor` as a function of the header ("" when absent) and of
   * verification, which yields the claims or `None` when it throws.
   */
  function AuthOutcome(header: string, verify: string -> Option<Claims>): (r: Outcome)
  {
    if header == "" then Rejected(401, "Unauthorized: No token provided")
    else
      var decoded := verify(ExtractToken(header));
      if decoded.None? then Rejected(401, "Invalid or expired token")
      else Next(decoded.value.id)
  }

  /**
   * The next handler runs exactly when a header is present and its token
   * verifies, and then with the id the token carries; every refusal is 401.
   */
  lemma AuthMeaning(header: string, verify: string -> Option<Claims>)
    ensures AuthOutcome(header, verify).Next? <==> header != "" && verify(ExtractToken(header)).Some?
    ensures AuthOutcome(header, verify).Next? ==> AuthOutcome(header, verify).docId == verify(ExtractToken(header)).value.id
    ensures AuthOutcome(header, verify).Rejected? ==> AuthOutcome(header, verify).code == 401
    ensures header == "" ==> AuthOutcome(header, verify) == Rejected(401, "Unauthorized: No token provided")
  {
  }

  /** A "Bearer " header is verified on the bare token. */
  lemma BearerHeaderVerifiesToken(token: string, verify: string -> Option<Claims>)
    ensures AuthOutcome(BearerPrefix + token, verify) ==
      (if verify(token).Some? then Next(verify(token).value.id) else Rejected(401, "Invalid or expired token"))
  {
    ExtractBearer(token);
  }

  /** The request object the middleware annotates. */
  class Request {
    var authorization: string
    var docId: Option<string>

    constructor (authorization: string)
      ensures this.authorization == authorization && docId == None
    {
      this.authorization := authorization;
      docId := None;
    }
  }

  /**
   * `authDoctor`: on success it sets `req.docId` and reports that `next`
   * is called (`rejection == None`); otherwise the request is left as it was.
   */
  method Authenticate(req: Request, verify: string -> Option<Claims>) returns (rejection: Option<(int, string)>)
    modifies req
    ensures req.authorization == old(req.authorization)
    ensures var outcome := AuthOutcome(old(req.authorization), verify);
      match outcome
      case Rejected(code, message) => rejection == Some((code, message)) && req.docId == old(req.docId)
      case Next(id) => rejection == None && req.docId == id
  {
    var authHeader := req.authorization;
    if authHeader == "" {
      return Some((401, "Unauthorized: No token provided"));
    }
    var token := ExtractToken(authHeader);
    var decoded := verify(token);
    if decoded.None? {
      return Some((401, "Invalid or expired token"));
    }
    req.docId := decoded.value.id;
    rejection := None;
  }
}
