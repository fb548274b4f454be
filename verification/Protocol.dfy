/** The OAuth 2.1 grant protocol: what each handler does between two database statements.

    A handler is a sequence of atomic steps, one database statement each, together with
    the checks that follow it. A step takes the tables, the request and what the outside
    world supplies (clock readings, random secrets, LinkedIn's answer, whether the database
    works) and yields the new tables and either the answer or the handler that goes on.
  */
module Protocol {
  import opened Base
  import opened Tables
  import Jwt
  import L = Logins

  const AUTH_CODE_TTL := 5 * MINUTE
  const LOGIN_STATE_TTL := 10 * MINUTE
  const MAX_REDIRECT_URIS := 10
  const MIN_VERIFIER := 43
  const MAX_VERIFIER := 128

  /** The base64url SHA-256 is both the S256 challenge of a verifier and the stored form of a refresh token. */
  datatype Config = Config(
    signer: Jwt.Signer, refreshTtl: int,
    digest: string -> string, validRedirect: string -> bool, allow: string -> bool)

  datatype Response =
    | OAuthError(status: nat, code: string)
    | Registered(clientId: string)
    | ToLogin(state: string)
    | ToClientError(redirectUri: string, clientState: string, code: string)
    | ToClient(redirectUri: string, clientState: string, authCode: string)
    | Page(status: nat)
    | Link(state: string)
    | NoLink
    | Tokens(claims: Jwt.Claims, expiresIn: int, refreshToken: string)
    | Silent

  const INVALID_REQUEST := OAuthError(400, "invalid_request")
  const INVALID_GRANT := OAuthError(400, "invalid_grant")
  const SERVER_ERROR := OAuthError(500, "server_error")

  /** Where a pair of tokens comes from: a code and the verifier that opened it, or a refresh token's hash. */
  datatype Origin = FromCode(code: string, verifier: string) | FromToken(hash: string)
  {
    predicate SameSource(o: Origin) {
      (FromCode? && o.FromCode? && code == o.code) || (FromToken? && this == o)
    }
  }

  /** An authorize or callback handler between two of its database statements. */
  datatype Browser =
    | Parking(request: OAuthRequest)
    | LoggingIn(state: string, request: OAuthRequest)
    | Storing(state: string, request: OAuthRequest, tenant: Tenant)
    | Coding(state: string, request: OAuthRequest, tenantId: string)

  /** A token handler that has consumed its code or rotated its token, and has yet to store the next one. */
  datatype Issuer = Issuing(tenantId: string, clientId: string, origin: Origin)

  datatype Next = Reply(response: Response) | Go(browser: Browser) | Mint(issuer: Issuer)

  datatype Outcome = Outcome(db: Db, next: Next)

  datatype AuthorizeQuery = AuthorizeQuery(
    clientId: string, redirectUri: string, responseType: string, codeChallenge: string,
    codeChallengeMethod: string, resource: string, state: string)

  datatype CallbackQuery = CallbackQuery(state: string, error: string, code: string)

  datatype CodeForm = CodeForm(code: string, verifier: string, redirectUri: string, clientId: string, resource: string)

  datatype RefreshForm = RefreshForm(refreshToken: string, clientId: string)

  const NO_CLIENT := OAuthRequest("", "", "", "", "")

  // ----- POST /oauth/register -----

  function RegisterStep(cfg: Config, db: Db, name: string, uris: seq<string>, clientId: string, read: int,
                        ok: bool): Outcome {
    if uris == [] || |uris| > MAX_REDIRECT_URIS || !(forall i :: 0 <= i < |uris| ==> cfg.validRedirect(uris[i])) then
      Outcome(db, Reply(OAuthError(400, "invalid_client_metadata")))
    else if !ok then Outcome(db, Reply(SERVER_ERROR))
    else match RegisterClient(db, clientId, ClientRow(name, uris, Unix(read)))
      case Some(after) => Outcome(after, Reply(Registered(clientId)))
      case None => Outcome(db, Reply(SERVER_ERROR))
  }

  // ----- GET /oauth/authorize -----

  /** The checks in their order; the first that fails decides the answer. */
  function AuthorizeStep(cfg: Config, db: Db, q: AuthorizeQuery, ok: bool): Next {
    if q.clientId == "" then Reply(INVALID_REQUEST)
    else if !ok then Reply(SERVER_ERROR)
    else if q.clientId !in db.clients then Reply(OAuthError(401, "invalid_client"))
    else if q.redirectUri == "" || q.redirectUri !in db.clients[q.clientId].redirectUris then Reply(INVALID_REQUEST)
    else if q.responseType != "code" || q.codeChallenge == "" || q.codeChallengeMethod != "S256"
            || (q.resource != "" && q.resource != cfg.signer.resource)
    then Reply(ToClientError(q.redirectUri, q.state, "invalid_request"))
    else Go(Parking(OAuthRequest(q.clientId, q.redirectUri, q.codeChallenge, q.state, q.resource)))
  }

  function ParkStep(db: Db, r: OAuthRequest, state: string, read: int, ok: bool): Outcome {
    match if ok then CreateLoginState(db, state, StateRow(r, Unix(read + LOGIN_STATE_TTL))) else None
    case Some(after) => Outcome(after, Reply(ToLogin(state)))
    case None => Outcome(db, Reply(ToClientError(r.redirectUri, r.clientState, "server_error")))
  }

  /** As ParkStep, for NO_CLIENT. */
  function ReconnectStep(db: Db, state: string, read: int, ok: bool): Outcome {
    match if ok then CreateLoginState(db, state, StateRow(NO_CLIENT, Unix(read + LOGIN_STATE_TTL))) else None
    case Some(after) => Outcome(after, Reply(Link(state)))
    case None => Outcome(db, Reply(NoLink))
  }

  // ----- GET /linkedin/callback -----

  /** With a state in the query the statement runs first, so every later exit leaves the table without it. */
  function CallbackStep(db: Db, q: CallbackQuery, read: int, ok: bool): Outcome {
    if q.state == "" then Outcome(db, Reply(Page(400)))
    else if !ok then Outcome(db, Reply(Page(500)))
    else if q.state !in db.loginStates then Outcome(db, Reply(Page(400)))
    else
      var row := db.loginStates[q.state];
      var after := ConsumeLoginState(db, q.state);
      if !(read < row.expiresAt * SECOND) then Outcome(after, Reply(Page(400)))
      else if q.error != "" then
        Outcome(after, Reply(if row.request.clientId == "" then Page(200)
                             else ToClientError(row.request.redirectUri, row.request.clientState, "access_denied")))
      else if q.code == "" then Outcome(after, Reply(Page(400)))
      else Outcome(after, Go(LoggingIn(q.state, row.request)))
  }

  /** The tenant to be stored is fixed here, from the table as it is at this statement. */
  ghost function LookUpStep(cfg: Config, db: Db, state: string, r: OAuthRequest, identity: L.Identity,
                            newId: string, read: int, ok: bool): Next
  {
    match identity
    case Unavailable => Reply(Page(502))
    case Identified(token, member) =>
      if !cfg.allow(member.id) then Reply(Page(403))
      else if !ok then Reply(Page(502))
      else Go(Storing(state, r, L.Adopt(db.tenants, L.Proposed(token, member, newId, read))))
  }

  ghost function StoreStep(db: Db, state: string, r: OAuthRequest, t: Tenant, ok: bool): Outcome {
    match if ok then UpsertTenant(db.tenants, t.id, ToRow(t)) else None
    case None => Outcome(db, Reply(Page(502)))
    case Some(tenants) =>
      Outcome(db.(tenants := tenants), if r.clientId == "" then Reply(Page(200)) else Go(Coding(state, r, t.id)))
  }

  function CodeRowOf(r: OAuthRequest, tenantId: string, read: int): CodeRow {
    CodeRow(r.clientId, tenantId, r.redirectUri, r.codeChallenge, r.resource, Unix(read + AUTH_CODE_TTL))
  }

  function IssueCodeStep(db: Db, r: OAuthRequest, tenantId: string, code: string, read: int, ok: bool): Outcome {
    match if ok then CreateAuthCode(db, code, CodeRowOf(r, tenantId, read)) else None
    case Some(after) => Outcome(after, Reply(ToClient(r.redirectUri, r.clientState, code)))
    case None => Outcome(db, Reply(Page(500)))
  }

  // ----- POST /oauth/token -----

  /** Redeeming a code (RFC 6749 section 4.1.3, RFC 7636 section 4.6): the code is gone whatever the later checks
      say. */
  function ExchangeStep(cfg: Config, db: Db, f: CodeForm, read: int, ok: bool): Outcome {
    if f.code == "" || f.verifier == "" || f.clientId == "" then Outcome(db, Reply(INVALID_REQUEST))
    else if |f.verifier| < MIN_VERIFIER || |f.verifier| > MAX_VERIFIER then Outcome(db, Reply(INVALID_REQUEST))
    else if !ok then Outcome(db, Reply(SERVER_ERROR))
    else if f.code !in db.codes then Outcome(db, Reply(INVALID_GRANT))
    else
      var row := db.codes[f.code];
      var after := ConsumeAuthCode(db, f.code);
      if !(read < row.expiresAt * SECOND) then Outcome(after, Reply(INVALID_GRANT))
      else if row.clientId != f.clientId then Outcome(after, Reply(INVALID_GRANT))
      else if row.redirectUri != f.redirectUri then Outcome(after, Reply(INVALID_GRANT))
      else if cfg.digest(f.verifier) != row.codeChallenge then Outcome(after, Reply(INVALID_GRANT))
      else if f.resource != "" && f.resource != cfg.signer.resource then Outcome(after, Reply(INVALID_REQUEST))
      else Outcome(after, Mint(Issuing(row.tenantId, row.clientId, FromCode(f.code, f.verifier))))
  }

  /** Rotating a refresh token (RFC 6749 section 6): it is revoked whatever the client check says. */
  function RefreshStep(cfg: Config, db: Db, f: RefreshForm, read: int, ok: bool): Outcome {
    var hash := cfg.digest(f.refreshToken);
    if f.refreshToken == "" || f.clientId == "" then Outcome(db, Reply(INVALID_REQUEST))
    else if !ok then Outcome(db, Reply(SERVER_ERROR))
    else if !Rotatable(db, hash, read) then Outcome(db, Reply(INVALID_GRANT))
    else
      var row := db.refreshTokens[hash];
      var after := RotateRefreshToken(db, hash, read);
      if row.clientId != f.clientId then Outcome(after, Reply(OAuthError(400, "unauthorized_client")))
      else Outcome(after, Mint(Issuing(row.tenantId, row.clientId, FromToken(hash))))
  }

  /** The claims are fixed before the statement; the answer carries them only if the statement ran. */
  function IssueStep(cfg: Config, db: Db, tenantId: string, clientId: string, secret: string, jti: string,
                     minted: int, read: int, answered: int, ok: bool): Outcome
  {
    var claims := Jwt.NewClaims(cfg.signer, tenantId, clientId, jti, minted);
    var row := RefreshRow(clientId, tenantId, Unix(read + cfg.refreshTtl), false);
    match if ok then CreateRefreshToken(db, cfg.digest(secret), row) else None
    case Some(after) =>
      Outcome(after, Reply(Tokens(claims, Jwt.WholeSeconds(minted + cfg.signer.accessTtl - answered), secret)))
    case None => Outcome(db, Reply(SERVER_ERROR))
  }

  // ----- what a request can come to -----

  /** An authorization request is parked exactly when the client is registered, with this redirect URI, and asks for
      a code with an S256 challenge for this server; and an error is redirected only to a URI registered for the
      client. */
  lemma AuthorizeOutcome(cfg: Config, db: Db, q: AuthorizeQuery, ok: bool)
    ensures var next := AuthorizeStep(cfg, db, q, ok);
            var trusted := q.clientId in db.clients && q.redirectUri in db.clients[q.clientId].redirectUris;
            && (next.Go? <==>
                  && ok && q.clientId != "" && q.redirectUri != "" && trusted
                  && q.responseType == "code" && q.codeChallengeMethod == "S256" && q.codeChallenge != ""
                  && q.resource in {"", cfg.signer.resource})
            && (next.Go? ==>
                  next.browser == Parking(OAuthRequest(q.clientId, q.redirectUri, q.codeChallenge, q.state,
                      q.resource)))
            && !next.Mint?
            && (next.Reply? && (next.response.ToClientError? || next.response.ToClient?) ==>
                  next.response.ToClientError? && trusted && next.response.redirectUri == q.redirectUri)
  {
  }

  /** Which refusal: only what is wrong with a trusted request is told to its redirect URI. */
  lemma AuthorizeRefusals(cfg: Config, db: Db, q: AuthorizeQuery, ok: bool)
    ensures var next := AuthorizeStep(cfg, db, q, ok);
            var trusted := q.redirectUri != "" && q.clientId in db.clients
                && q.redirectUri in db.clients[q.clientId].redirectUris;
            && (next == Reply(OAuthError(500, "server_error")) <==> q.clientId != "" && !ok)
            && (next == Reply(OAuthError(401, "invalid_client")) <==>
                  q.clientId != "" && ok && q.clientId !in db.clients)
            && (next == Reply(OAuthError(400, "invalid_request")) <==>
                  q.clientId == "" || (ok && q.clientId in db.clients && !trusted))
            && (next == Reply(ToClientError(q.redirectUri, q.state, "invalid_request")) <==>
                  && q.clientId != "" && ok && trusted
                  && (q.responseType != "code" || q.codeChallenge == "" || q.codeChallengeMethod != "S256"
                      || q.resource !in {"", cfg.signer.resource}))
  {
  }

  /** The state is there and its deadline lies after the reading. */
  predicate FindsAlive(db: Db, q: CallbackQuery, read: int, ok: bool) {
    ok && q.state != "" && q.state in db.loginStates && read < db.loginStates[q.state].expiresAt * SECOND
  }

  /** A callback burns its state whenever it finds it, and goes on exactly when the state is alive and LinkedIn sent a
      code. It redirects exactly a refusal by LinkedIn for a live state of a waiting client, as access_denied at that
      client. */
  lemma CallbackOutcome(db: Db, q: CallbackQuery, read: int, ok: bool)
    ensures var o := CallbackStep(db, q, read, ok);
            var found := ok && q.state != "" && q.state in db.loginStates;
            && o.db == (if found then db.(loginStates := db.loginStates - {q.state}) else db)
            && (o.next.Go? <==> FindsAlive(db, q, read, ok) && q.error == "" && q.code != "")
            && (o.next.Go? ==> o.next.browser == LoggingIn(q.state, db.loginStates[q.state].request))
            && !o.next.Mint?
            && (o.next.Reply? && !o.next.response.Page? <==>
                  FindsAlive(db, q, read, ok) && q.error != "" && db.loginStates[q.state].request.clientId != "")
            && (o.next.Reply? && !o.next.response.Page? ==>
                  o.next.response == ToClientError(db.loginStates[q.state].request.redirectUri,
                                                   db.loginStates[q.state].request.clientState, "access_denied"))
  {
  }

  /** Which page: the server's failure, a refusal during a reconnection, or a state or code that is missing or too
      late. */
  lemma CallbackPages(db: Db, q: CallbackQuery, read: int, ok: bool)
    ensures var next := CallbackStep(db, q, read, ok).next;
            && (next == Reply(Page(500)) <==> q.state != "" && !ok)
            && (next == Reply(Page(200)) <==>
                  FindsAlive(db, q, read, ok) && q.error != "" && db.loginStates[q.state].request.clientId == "")
            && (next == Reply(Page(400)) <==>
                  || q.state == ""
                  || (ok && !(FindsAlive(db, q, read, ok) && (q.error != "" || q.code != ""))))
  {
  }

  /** A client is registered exactly with one to ten URIs that all pass, under an unused id; it is stored with its
      name, its URIs in order and the second of the reading, and nothing else changes. */
  lemma RegisterOutcome(cfg: Config, db: Db, name: string, uris: seq<string>, clientId: string, read: int, ok: bool)
    ensures var o := RegisterStep(cfg, db, name, uris, clientId, read, ok);
            var formed := 1 <= |uris| <= 10 && forall u :: u in uris ==> cfg.validRedirect(u);
            && (o.next == Reply(Registered(clientId)) <==> formed && ok && clientId !in db.clients)
            && (o.next == Reply(OAuthError(400, "invalid_client_metadata")) <==> !formed)
            && (o.next == Reply(OAuthError(500, "server_error")) <==> formed && !(ok && clientId !in db.clients))
            && o.db == (if o.next == Reply(Registered(clientId))
                        then db.(clients := db.clients[clientId := ClientRow(name, uris, read / 1_000_000_000)])
                        else db)
  {
    assert (forall i :: 0 <= i < |uris| ==> cfg.validRedirect(uris[i])) <==>
           forall u :: u in uris ==> cfg.validRedirect(u);
  }

  /** The claims an access token of this server must carry, cut to whole seconds. */
  predicate MadeFor(cfg: Config, c: Jwt.Claims, tenantId: string, clientId: string, jti: string, minted: int) {
    && c.issuer == cfg.signer.issuer && c.audience == cfg.signer.resource
    && c.subject == tenantId && c.clientId == clientId && c.jti == jti
    && 0 <= minted - c.issuedAt * SECOND < SECOND
    && 0 <= minted + cfg.signer.accessTtl - c.expiresAt * SECOND < SECOND
  }

  /** Tokens go out exactly when their refresh token was stored, under its hash, live, for the same tenant and
      client; and nothing else changes. */
  lemma IssueOutcome(cfg: Config, db: Db, tenantId: string, clientId: string, secret: string, jti: string,
                     minted: int, read: int, answered: int, ok: bool)
    ensures var o := IssueStep(cfg, db, tenantId, clientId, secret, jti, minted, read, answered, ok);
            var h := cfg.digest(secret);
            if ok && h !in db.refreshTokens
            then
              && o.next.Reply? && o.next.response.Tokens? && o.next.response.refreshToken == secret
              && MadeFor(cfg, o.next.response.claims, tenantId, clientId, jti, minted)
              && o.db == db.(refreshTokens := o.db.refreshTokens) && h in o.db.refreshTokens
              && o.db.refreshTokens[h] == RefreshRow(clientId, tenantId, Unix(read + cfg.refreshTtl), false)
              && o.db.refreshTokens - {h} == db.refreshTokens
            else o == Outcome(db, Reply(SERVER_ERROR))
  {
  }

  /** The answer's expires_in is what is left at the answer of the lifetime begun at the minting, cut towards zero; so
      for one that is not negative, the end the client computes is less than a second off the deadline in the claims
      exactly when the answer leaves no later than the second of that deadline. */
  lemma AnswerLifetime(cfg: Config, db: Db, tenantId: string, clientId: string, secret: string, jti: string,
                       minted: int, read: int, answered: int, ok: bool)
    requires ok && cfg.digest(secret) !in db.refreshTokens
    ensures var r := IssueStep(cfg, db, tenantId, clientId, secret, jti, minted, read, answered, ok).next.response;
            var left := minted + cfg.signer.accessTtl - answered;
            && (left >= 0 ==> 0 <= left - r.expiresIn * SECOND < SECOND)
            && (left <= 0 ==> 0 <= r.expiresIn * SECOND - left < SECOND)
            && (r.expiresIn >= 0 ==>
                  (-SECOND < answered + r.expiresIn * SECOND - r.claims.expiresAt * SECOND < SECOND
                   <==> Unix(answered) <= r.claims.expiresAt))
  {
    var expiry := minted + cfg.signer.accessTtl;
    Jwt.WholeSecondsCuts(expiry - answered);
    if Jwt.WholeSeconds(expiry - answered) >= 0 {
      Jwt.AdvertisedLifetime(expiry, answered);
    }
  }

  /** The request gets as far as the statement. */
  predicate Presents(f: CodeForm, ok: bool) {
    ok && f.code != "" && f.verifier != "" && f.clientId != "" && 43 <= |f.verifier| <= 128
  }

  /** Once the statement runs, the code is gone and nothing else, whatever the answer; before that nothing changes.
      Tokens are issued exactly when the code was there, not expired, this client's, for this redirect URI, opened by
      this verifier and asked for this server. */
  lemma ExchangeOutcome(cfg: Config, db: Db, f: CodeForm, read: int, ok: bool)
    ensures var o := ExchangeStep(cfg, db, f, read, ok);
            && !o.next.Go?
            && o.db == (if Presents(f, ok) then db.(codes := db.codes - {f.code}) else db)
            && (o.next.Mint? <==>
                  && Presents(f, ok) && f.code in db.codes && f.clientId == db.codes[f.code].clientId
                  && read < db.codes[f.code].expiresAt * SECOND
                  && f.redirectUri == db.codes[f.code].redirectUri
                  && cfg.digest(f.verifier) == db.codes[f.code].codeChallenge
                  && f.resource in {"", cfg.signer.resource})
            && (o.next.Mint? ==>
                  o.next.issuer == Issuing(db.codes[f.code].tenantId, db.codes[f.code].clientId,
                                           FromCode(f.code, f.verifier)))
  {
    assert f.code !in db.codes ==> db.codes - {f.code} == db.codes;
  }

  /** Which refusal: the server's failure, the request's own faults (its form, and last of all the resource), or the
      grant's. */
  lemma ExchangeRefusals(cfg: Config, db: Db, f: CodeForm, read: int, ok: bool)
    ensures var next := ExchangeStep(cfg, db, f, read, ok).next;
            && (next == Reply(OAuthError(500, "server_error")) <==> Presents(f, true) && !ok)
            && (next == Reply(OAuthError(400, "invalid_request")) <==>
                  || !Presents(f, true)
                  || (ExchangeStep(cfg, db, f.(resource := ""), read, ok).next.Mint?
                      && f.resource !in {"", cfg.signer.resource}))
            && (next.Reply? ==> next.response in {OAuthError(500, "server_error"), OAuthError(400, "invalid_request"),
                                                  OAuthError(400, "invalid_grant")})
  {
  }

  /** The request gets as far as the statement, and the token is there, not revoked, and its deadline in a later
      second. */
  predicate FindsLive(cfg: Config, db: Db, f: RefreshForm, read: int, ok: bool) {
    var h := cfg.digest(f.refreshToken);
    && ok && f.refreshToken != "" && f.clientId != ""
    && h in db.refreshTokens && !db.refreshTokens[h].revoked && Unix(read) < db.refreshTokens[h].expiresAt
  }

  /** A live token that is presented is revoked and nothing else changes, whoever presents it; otherwise nothing
      changes at all. Tokens are issued exactly to the client the token was issued to. */
  lemma RefreshOutcome(cfg: Config, db: Db, f: RefreshForm, read: int, ok: bool)
    ensures var o := RefreshStep(cfg, db, f, read, ok);
            var h := cfg.digest(f.refreshToken);
            && !o.next.Go?
            && o.db == (if FindsLive(cfg, db, f, read, ok)
                        then db.(refreshTokens := db.refreshTokens[h := db.refreshTokens[h].(revoked := true)]) else db)
            && (o.next.Mint? <==> FindsLive(cfg, db, f, read, ok) && f.clientId == db.refreshTokens[h].clientId)
            && (o.next.Mint? ==>
                  o.next.issuer == Issuing(db.refreshTokens[h].tenantId, db.refreshTokens[h].clientId, FromToken(h)))
  {
  }

  /** Which refusal. */
  lemma RefreshRefusals(cfg: Config, db: Db, f: RefreshForm, read: int, ok: bool)
    ensures var next := RefreshStep(cfg, db, f, read, ok).next;
            var formed := f.refreshToken != "" && f.clientId != "";
            && (next == Reply(OAuthError(400, "invalid_request")) <==> !formed)
            && (next == Reply(OAuthError(500, "server_error")) <==> formed && !ok)
            && (next == Reply(OAuthError(400, "unauthorized_client")) <==>
                  && FindsLive(cfg, db, f, read, ok)
                  && f.clientId != db.refreshTokens[cfg.digest(f.refreshToken)].clientId)
            && (next == Reply(OAuthError(400, "invalid_grant")) <==> formed && ok && !FindsLive(cfg, db, f, read, ok))
  {
  }
}
