/** From the step that creates a short-lived row to the step that accepts it: how long it is good for, and that once
    is all. */
module Lifetimes {
  import opened Base
  import opened Tables
  import opened Protocol

  /** A parked login is accepted exactly until the whole second of its deadline, with the request it was parked for,
      and the second callback finds nothing. */
  lemma ParkedLoginLives(db: Db, r: OAuthRequest, state: string, parked: int, q: CallbackQuery, read: int, later: int)
    requires state !in db.loginStates && q.state == state != "" && q.error == "" && q.code != ""
    ensures var created := ParkStep(db, r, state, parked, true);
            var first := CallbackStep(created.db, q, read, true);
            && created.next == Reply(ToLogin(state))
            && (first.next == Go(LoggingIn(state, r)) <==> read < Unix(parked + LOGIN_STATE_TTL) * SECOND)
            && first.db == db
            && CallbackStep(first.db, q, later, true) == Outcome(db, Reply(Page(400)))
  {
  }

  /** So is a reconnection link, which leads nowhere but to a login of no client; and no other link is handed out. */
  lemma LinkLives(db: Db, state: string, made: int, ok: bool, q: CallbackQuery, read: int)
    requires q.state == state != "" && q.error == "" && q.code != ""
    ensures var created := ReconnectStep(db, state, made, ok);
            if ok && state !in db.loginStates
            then
              && created.next == Reply(Link(state)) && state in created.db.loginStates
              && JustShort(created.db.loginStates[state].expiresAt, made + 600 * SECOND)
              && (CallbackStep(created.db, q, read, true).next == Go(LoggingIn(state, OAuthRequest("", "", "", "", "")))
                  <==> read < created.db.loginStates[state].expiresAt * SECOND)
              && CallbackStep(created.db, q, read, true).db == db
            else created == Outcome(db, Reply(NoLink))
  {
    assert state !in db.loginStates ==> db.loginStates == db.loginStates - {state};
  }

  /** A login, a code or a request that could not be stored leaves nothing behind, and its client hears of it at most
      at the URI it asked for. */
  lemma NotStored(db: Db, r: OAuthRequest, tenantId: string, key: string, read: int, ok: bool)
    ensures !ok || key in db.loginStates ==>
              ParkStep(db, r, key, read, ok)
              == Outcome(db, Reply(ToClientError(r.redirectUri, r.clientState, "server_error")))
    ensures !ok || key in db.codes ==>
              IssueCodeStep(db, r, tenantId, key, read, ok) == Outcome(db, Reply(Page(500)))
  {
  }

  /** The form that redeems a code as its client should. */
  predicate Redeems(cfg: Config, r: OAuthRequest, code: string, f: CodeForm) {
    && f.code == code != "" && f.clientId == r.clientId != "" && f.redirectUri == r.redirectUri
    && 43 <= |f.verifier| <= 128 && cfg.digest(f.verifier) == r.codeChallenge
    && f.resource in {"", cfg.signer.resource}
  }

  /** So is a code, for the tenant it was issued to; a replay is refused. */
  lemma CodeLives(cfg: Config, db: Db, r: OAuthRequest, tenantId: string, code: string, issued: int, f: CodeForm,
                  read: int, later: int)
    requires code !in db.codes && Redeems(cfg, r, code, f)
    ensures var created := IssueCodeStep(db, r, tenantId, code, issued, true);
            var first := ExchangeStep(cfg, created.db, f, read, true);
            && created.next == Reply(ToClient(r.redirectUri, r.clientState, code))
            && (first.next == Mint(Issuing(tenantId, r.clientId, FromCode(code, f.verifier)))
                <==> read < Unix(issued + AUTH_CODE_TTL) * SECOND)
            && first.db == db
            && ExchangeStep(cfg, first.db, f, later, true) == Outcome(db, Reply(INVALID_GRANT))
  {
  }

  /** And a refresh token: good for one rotation, in an earlier second than its deadline's. */
  lemma RefreshTokenLives(cfg: Config, db: Db, tenantId: string, clientId: string, secret: string, jti: string,
                          minted: int, read: int, answered: int, at: int, later: int)
    requires cfg.digest(secret) !in db.refreshTokens && secret != "" && clientId != ""
    ensures var f := RefreshForm(secret, clientId);
            var created := IssueStep(cfg, db, tenantId, clientId, secret, jti, minted, read, answered, true);
            var first := RefreshStep(cfg, created.db, f, at, true);
            && created.next.Reply? && created.next.response.Tokens? && created.next.response.refreshToken == secret
            && (first.next == Mint(Issuing(tenantId, clientId, FromToken(cfg.digest(secret))))
                <==> at < Unix(read + cfg.refreshTtl) * SECOND)
            && RefreshStep(cfg, first.db, f, later, true).next ==
               (if first.next.Mint? then Reply(INVALID_GRANT) else RefreshStep(cfg, created.db, f, later, true).next)
  {
  }

  /** The deadline a row keeps is less than one second short of the lifetime, and never beyond it. */
  predicate JustShort(expiresAt: int, end: int) {
    0 <= end - expiresAt * SECOND < SECOND
  }

  lemma DeadlineRounding(cfg: Config, db: Db, r: OAuthRequest, tenantId: string, key: string, jti: string, read: int,
                         answered: int)
    ensures key !in db.loginStates ==>
              var after := ParkStep(db, r, key, read, true).db;
              key in after.loginStates && JustShort(after.loginStates[key].expiresAt, read + 600 * SECOND)
    ensures key !in db.codes ==>
              var after := IssueCodeStep(db, r, tenantId, key, read, true).db;
              key in after.codes && JustShort(after.codes[key].expiresAt, read + 300 * SECOND)
    ensures var h := cfg.digest(key);
            h !in db.refreshTokens ==>
              var after := IssueStep(cfg, db, tenantId, r.clientId, key, jti, read, read, answered, true).db;
              h in after.refreshTokens && JustShort(after.refreshTokens[h].expiresAt, read + cfg.refreshTtl)
  {
  }

  /** A client that registered with a URI may ask for a code at that URI, and at no other. */
  lemma RegisteredClientMayAsk(cfg: Config, db: Db, name: string, uris: seq<string>, clientId: string, read: int,
                               q: AuthorizeQuery)
    requires RegisterStep(cfg, db, name, uris, clientId, read, true).next == Reply(Registered(clientId))
    requires q.clientId == clientId != "" && q.redirectUri != "" && q.responseType == "code" && q.codeChallenge != ""
    requires q.codeChallengeMethod == "S256" && q.resource in {"", cfg.signer.resource}
    ensures var next := AuthorizeStep(cfg, RegisterStep(cfg, db, name, uris, clientId, read, true).db, q, true);
            if q.redirectUri in uris
            then next == Go(Parking(OAuthRequest(clientId, q.redirectUri, q.codeChallenge, q.state, q.resource)))
            else next == Reply(INVALID_REQUEST)
  {
  }

  /** However a code was presented first, by whomever and with whatever verifier: once it has been, no request for it
      gets anywhere. */
  lemma CodeIsSpent(cfg: Config, db: Db, first: CodeForm, read: int, second: CodeForm, later: int)
    requires Presents(first, true) && Presents(second, true) && second.code == first.code
    ensures var spent := ExchangeStep(cfg, db, first, read, true).db;
            ExchangeStep(cfg, spent, second, later, true) == Outcome(spent, Reply(OAuthError(400, "invalid_grant")))
  {
    var spent := ExchangeStep(cfg, db, first, read, true).db;
    ExchangeOutcome(cfg, db, first, read, true);
    ExchangeOutcome(cfg, spent, second, later, true);
    ExchangeRefusals(cfg, spent, second, later, true);
    ExchangeRefusals(cfg, spent, second.(resource := ""), later, true);
  }

  /** However a live refresh token was presented: once it has been, no rotation of it gets anywhere. */
  lemma TokenIsSpent(cfg: Config, db: Db, first: RefreshForm, read: int, second: RefreshForm, later: int)
    requires first.refreshToken != "" && first.clientId != "" && second.refreshToken != "" && second.clientId != ""
    requires cfg.digest(second.refreshToken) == cfg.digest(first.refreshToken)
    requires FindsLive(cfg, db, first, read, true)
    ensures var spent := RefreshStep(cfg, db, first, read, true).db;
            RefreshStep(cfg, spent, second, later, true) == Outcome(spent, Reply(OAuthError(400, "invalid_grant")))
  {
    var spent := RefreshStep(cfg, db, first, read, true).db;
    RefreshOutcome(cfg, db, first, read, true);
    RefreshOutcome(cfg, spent, second, later, true);
    RefreshRefusals(cfg, spent, second, later, true);
  }
}
