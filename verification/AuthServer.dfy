/** The HTTP handlers themselves, statement by statement against the store.

    Each handler is proved to do what its steps in Protocol say when nothing runs in between;
    Machine then interleaves those very steps. Clock readings, random secrets and whether the
    database works come in as parameters.
  */
module AuthServer {
  import opened Base
  import opened Tables
  import opened Protocol
  import opened Machine
  import Jwt
  import Lifetimes
  import L = Logins
  import S = Store

  /** What one token request meets: two statements, four clock readings, two random secrets. */
  datatype TokenWorld = TokenWorld(
    first: int, firstOk: bool, minted: int, read: int, answered: int, secondOk: bool, secret: string, jti: string)

  /** The second half of a token request, when there is one. */
  function IssueAfter(cfg: Config, o: Outcome, w: TokenWorld): (Db, Response) {
    match o.next
    case Reply(r) => (o.db, r)
    case Go(_) => (o.db, SERVER_ERROR)
    case Mint(i) =>
      var last := IssueStep(cfg, o.db, i.tenantId, i.clientId, w.secret, w.jti, w.minted, w.read, w.answered,
          w.secondOk);
      (last.db, if last.next.Reply? then last.next.response else SERVER_ERROR)
  }

  /** An undisturbed token request is two neighbouring events of the machine. */
  lemma CodeGrantIsTwoEvents(cfg: Config, s: Sys, thread: nat, f: CodeForm, w: TokenWorld, first: Event, second: Event)
    requires first.action == Exchange(thread, f, w.first, w.firstOk)
    requires second.action == Issue(thread, w.secret, w.jti, w.minted, w.read, w.answered, w.secondOk)
    requires AtStep(s, first.action)
    ensures var mid := Apply(cfg, s, first);
            match Answer(cfg, s, first.action)
            case Some(r) => IssueAfter(cfg, ExchangeStep(cfg, s.db, f, w.first, w.firstOk), w) == (mid.db, r)
            case None =>
              && AtStep(mid, second.action) && Answer(cfg, mid, second.action).Some?
              && IssueAfter(cfg, ExchangeStep(cfg, s.db, f, w.first, w.firstOk), w) ==
                 (Apply(cfg, mid, second).db, Answer(cfg, mid, second.action).value)
  {
  }

  lemma RefreshGrantIsTwoEvents(cfg: Config, s: Sys, thread: nat, f: RefreshForm, w: TokenWorld, first: Event,
                                second: Event)
    requires first.action == Refresh(thread, f, w.first, w.firstOk)
    requires second.action == Issue(thread, w.secret, w.jti, w.minted, w.read, w.answered, w.secondOk)
    requires AtStep(s, first.action)
    ensures var mid := Apply(cfg, s, first);
            match Answer(cfg, s, first.action)
            case Some(r) => IssueAfter(cfg, RefreshStep(cfg, s.db, f, w.first, w.firstOk), w) == (mid.db, r)
            case None =>
              && AtStep(mid, second.action) && Answer(cfg, mid, second.action).Some?
              && IssueAfter(cfg, RefreshStep(cfg, s.db, f, w.first, w.firstOk), w) ==
                 (Apply(cfg, mid, second).db, Answer(cfg, mid, second.action).value)
  {
  }

  /** PKCE with S256 (RFC 7636 section 4.6). */
  predicate VerifyPKCE(cfg: Config, verifier: string, challenge: string) {
    cfg.digest(verifier) == challenge
  }

  class AuthServer {
    const store: S.Store
    const cfg: Config

    constructor (store: S.Store, cfg: Config)
      ensures this.store == store && this.cfg == cfg
    {
      this.store, this.cfg := store, cfg;
    }

    /** One RegisterStep of the model: a client is stored exactly with one to ten URIs that all pass, under an unused
        id. */
    method Register(name: string, uris: seq<string>, clientId: string, now: int, ok: bool) returns (r: Response)
      requires store.Valid()
      modifies store
      ensures store.Valid()
      ensures Outcome(store.Snapshot(), Reply(r)) ==
          RegisterStep(cfg, old(store.Snapshot()), name, uris, clientId, now, ok)
      ensures r == Registered(clientId) <==>
              && 1 <= |uris| <= 10 && (forall u :: u in uris ==> cfg.validRedirect(u))
              && ok && clientId !in old(store.clients)
      ensures store.clients ==
              if r == Registered(clientId) then old(store.clients)[clientId := ClientRow(name, uris, Unix(now))]
              else old(store.clients)
    {
      RegisterOutcome(cfg, store.Snapshot(), name, uris, clientId, now, ok);
      if uris == [] || |uris| > MAX_REDIRECT_URIS {
        return OAuthError(400, "invalid_client_metadata");
      }
      for i := 0 to |uris|
        invariant forall j :: 0 <= j < i ==> cfg.validRedirect(uris[j])
        invariant store.Snapshot() == old(store.Snapshot())
      {
        if !cfg.validRedirect(uris[i]) {
          return OAuthError(400, "invalid_client_metadata");
        }
      }
      var done := store.RegisterClient(clientId, ClientRow(name, uris, Unix(now)), ok);
      return if done then Registered(clientId) else SERVER_ERROR;
    }

    /** True exactly for the members of the list. */
    method AllowsRedirectURI(client: ClientRow, uri: string) returns (allowed: bool)
      ensures allowed <==> uri in client.redirectUris
    {
      for i := 0 to |client.redirectUris|
        invariant uri !in client.redirectUris[..i]
      {
        if client.redirectUris[i] == uri {
          return true;
        }
      }
      return false;
    }

    /** AuthorizeStep and, when it goes on, ParkStep: the way to the login is open exactly for a request of a
        registered client that is right in every respect and now parked as it came; an error is told to no URI but a
        registered one. */
    method Authorize(q: AuthorizeQuery, readOk: bool, state: string, now: int, writeOk: bool) returns (r: Response)
      requires store.Valid()
      modifies store
      ensures store.Valid()
      ensures match AuthorizeStep(cfg, old(store.Snapshot()), q, readOk)
              case Reply(x) => r == x && store.Snapshot() == old(store.Snapshot())
              case Go(b) => Outcome(store.Snapshot(), Reply(r)) ==
                  ParkStep(old(store.Snapshot()), b.request, state, now, writeOk)
              case Mint(_) => false
      ensures r == ToLogin(state) <==>
              && readOk && q.clientId != "" && q.redirectUri != "" && q.clientId in old(store.clients)
              && q.redirectUri in old(store.clients)[q.clientId].redirectUris && q.responseType == "code"
              && q.codeChallenge != "" && q.codeChallengeMethod == "S256" && q.resource in {"", cfg.signer.resource}
              && writeOk && state !in old(store.loginStates)
      ensures r.ToClientError? ==>
                && q.clientId in old(store.clients) && q.redirectUri in old(store.clients)[q.clientId].redirectUris
                && r.redirectUri == q.redirectUri && r.clientState == q.state
      ensures store.loginStates ==
              if r == ToLogin(state)
              then old(store.loginStates)[state := StateRow(
                     OAuthRequest(q.clientId, q.redirectUri, q.codeChallenge, q.state, q.resource),
                     Unix(now + LOGIN_STATE_TTL))]
              else old(store.loginStates)
      ensures store.Snapshot() == old(store.Snapshot()).(loginStates := store.loginStates)
    {
      if q.clientId == "" {
        return INVALID_REQUEST;
      }
      var client := store.ClientById(q.clientId, readOk);
      if client.NotFound? {
        return OAuthError(401, "invalid_client");
      }
      if client.Broken? {
        return SERVER_ERROR;
      }
      var allowed := AllowsRedirectURI(client.value, q.redirectUri);
      if q.redirectUri == "" || !allowed {
        return INVALID_REQUEST;
      }
      if q.responseType != "code" {
        return ToClientError(q.redirectUri, q.state, "invalid_request");
      }
      if q.codeChallenge == "" {
        return ToClientError(q.redirectUri, q.state, "invalid_request");
      }
      if q.codeChallengeMethod != "S256" {
        return ToClientError(q.redirectUri, q.state, "invalid_request");
      }
      if q.resource != "" && q.resource != cfg.signer.resource {
        return ToClientError(q.redirectUri, q.state, "invalid_request");
      }
      var request := OAuthRequest(q.clientId, q.redirectUri, q.codeChallenge, q.state, q.resource);
      var done := store.CreateLoginState(state, StateRow(request, Unix(now + LOGIN_STATE_TTL)), writeOk);
      if !done {
        return ToClientError(q.redirectUri, q.state, "server_error");
      }
      return ToLogin(state);
    }

    /** Parks the request of no client: whatever callback comes back with this state ends on a page, never at a
        client. */
    method ReconnectURL(state: string, now: int, ok: bool) returns (r: Response)
      requires store.Valid()
      modifies store
      ensures store.Valid()
      ensures Outcome(store.Snapshot(), Reply(r)) == ReconnectStep(old(store.Snapshot()), state, now, ok)
      ensures r.Link? ==>
                forall q: CallbackQuery, w :: q.state == state ==> EndsOnAPage(CallbackRun(cfg, store.Snapshot(), q, w))
    {
      var done := store.CreateLoginState(state, StateRow(NO_CLIENT, Unix(now + LOGIN_STATE_TTL)), ok);
      if !done {
        return NoLink;
      }
      forall q: CallbackQuery, w | q.state == state ensures EndsOnAPage(CallbackRun(cfg, store.Snapshot(), q, w)) {
        ReconnectionEndsOnAPage(cfg, store.Snapshot(), q, w);
      }
      return Link(state);
    }

    /** Sends the client a code that it can redeem, for this tenant, exactly until the whole second of its deadline. */
    method IssueAuthCode(request: OAuthRequest, tenantId: string, code: string, now: int,
                         ok: bool) returns (r: Response)
      requires store.Valid()
      modifies store
      ensures store.Valid()
      ensures Outcome(store.Snapshot(), Reply(r)) ==
          IssueCodeStep(old(store.Snapshot()), request, tenantId, code, now, ok)
      ensures r == (if ok && code !in old(store.codes) then ToClient(request.redirectUri, request.clientState, code)
                    else Page(500))
      ensures r.ToClient? ==>
                store.codes == old(store.codes)[code := CodeRow(request.clientId, tenantId, request.redirectUri,
                                                                request.codeChallenge, request.resource,
                                                                Unix(now + AUTH_CODE_TTL))]
      ensures r.ToClient? ==>
                forall f, read :: Lifetimes.Redeems(cfg, request, code, f) ==>
                  (ExchangeStep(cfg, store.Snapshot(), f, read, true).next
                   == Mint(Issuing(tenantId, request.clientId, FromCode(code, f.verifier)))
                   <==> read < Unix(now + AUTH_CODE_TTL) * SECOND)
    {
      var before := store.Snapshot();
      var done := store.CreateAuthCode(code, CodeRowOf(request, tenantId, now), ok);
      if !done {
        return Page(500);
      }
      forall f, read | Lifetimes.Redeems(cfg, request, code, f)
        ensures ExchangeStep(cfg, store.Snapshot(), f, read, true).next
                == Mint(Issuing(tenantId, request.clientId, FromCode(code, f.verifier)))
                <==> read < Unix(now + AUTH_CODE_TTL) * SECOND
      {
        Lifetimes.CodeLives(cfg, before, request, tenantId, code, now, f, read, read);
      }
      return ToClient(request.redirectUri, request.clientState, code);
    }

    /** Tokens come out exactly when every condition holds. The code is gone once the statement runs, whatever the
        answer, and nothing else changes but for the new refresh token. */
    method GrantAuthorizationCode(f: CodeForm, w: TokenWorld) returns (r: Response)
      requires store.Valid()
      modifies store
      ensures store.Valid()
      ensures (store.Snapshot(), r) == IssueAfter(cfg,
          ExchangeStep(cfg, old(store.Snapshot()), f, w.first, w.firstOk), w)
      ensures r.Tokens? <==>
              && w.firstOk && f.code != "" && f.code in old(store.codes)
              && MIN_VERIFIER <= |f.verifier| <= MAX_VERIFIER
              && var row := old(store.codes)[f.code];
                 && f.clientId != "" && f.clientId == row.clientId && f.redirectUri == row.redirectUri
                 && w.first < row.expiresAt * SECOND && VerifyPKCE(cfg, f.verifier, row.codeChallenge)
                 && f.resource in {"", cfg.signer.resource}
                 && w.secondOk && cfg.digest(w.secret) !in old(store.refreshTokens)
      ensures store.codes == if Presents(f, w.firstOk) then old(store.codes) - {f.code} else old(store.codes)
      ensures store.Snapshot() == old(store.Snapshot()).(codes := store.codes, refreshTokens := store.refreshTokens)
      ensures if r.Tokens?
              then Issued(old(store.refreshTokens), store.refreshTokens, old(store.codes)[f.code].tenantId,
                          f.clientId, w, r)
              else store.refreshTokens == old(store.refreshTokens)
    {
      ExchangeOutcome(cfg, store.Snapshot(), f, w.first, w.firstOk);
      if f.code == "" || f.verifier == "" || f.clientId == "" {
        return INVALID_REQUEST;
      }
      if |f.verifier| < MIN_VERIFIER || |f.verifier| > MAX_VERIFIER {
        return INVALID_REQUEST;
      }
      var consumed := store.ConsumeAuthCode(f.code, w.firstOk);
      if consumed.NotFound? {
        assert store.codes == old(store.codes);
        return INVALID_GRANT;
      }
      if consumed.Broken? {
        return SERVER_ERROR;
      }
      var row := consumed.value;
      if !(w.first < row.expiresAt * SECOND) {
        return INVALID_GRANT;
      }
      if row.clientId != f.clientId {
        return INVALID_GRANT;
      }
      if f.redirectUri != row.redirectUri {
        return INVALID_GRANT;
      }
      if !VerifyPKCE(cfg, f.verifier, row.codeChallenge) {
        return INVALID_GRANT;
      }
      if f.resource != "" && f.resource != cfg.signer.resource {
        return INVALID_REQUEST;
      }
      r := IssueTokens(row.tenantId, row.clientId, w);
    }

    /** Tokens come out exactly when every condition holds. A live token that is presented is revoked, whatever the
        answer, and nothing else changes but for the new refresh token. */
    method GrantRefreshToken(f: RefreshForm, w: TokenWorld) returns (r: Response)
      requires store.Valid()
      modifies store
      ensures store.Valid()
      ensures (store.Snapshot(), r) == IssueAfter(cfg,
          RefreshStep(cfg, old(store.Snapshot()), f, w.first, w.firstOk), w)
      ensures var h := cfg.digest(f.refreshToken);
              r.Tokens? <==>
                && w.firstOk && f.refreshToken != "" && h in old(store.refreshTokens)
                && var row := old(store.refreshTokens)[h];
                   && !row.revoked && Unix(w.first) < row.expiresAt && f.clientId != "" && f.clientId == row.clientId
                   && w.secondOk && cfg.digest(w.secret) !in old(store.refreshTokens)
      ensures store.Snapshot() == old(store.Snapshot()).(refreshTokens := store.refreshTokens)
      ensures var (h, was) := (cfg.digest(f.refreshToken), old(store.refreshTokens));
              var rotated := if FindsLive(cfg, old(store.Snapshot()), f, w.first, w.firstOk)
                             then was[h := was[h].(revoked := true)] else was;
              if r.Tokens?
              then h in was && Issued(rotated, store.refreshTokens, was[h].tenantId, f.clientId, w, r)
              else store.refreshTokens == rotated
    {
      RefreshOutcome(cfg, store.Snapshot(), f, w.first, w.firstOk);
      if f.refreshToken == "" || f.clientId == "" {
        return INVALID_REQUEST;
      }
      var rotated := store.RotateRefreshToken(cfg.digest(f.refreshToken), w.first, w.firstOk);
      if rotated.NotFound? {
        return INVALID_GRANT;
      }
      if rotated.Broken? {
        return SERVER_ERROR;
      }
      if rotated.value.clientId != f.clientId {
        return OAuthError(400, "unauthorized_client");
      }
      r := IssueTokens(rotated.value.tenantId, rotated.value.clientId, w);
    }

    /** What the issued pair promises: claims made for this tenant and client, a refresh token stored live under its
        hash and no other change, and as many seconds left as the claims have when the answer leaves, cut towards
        zero. */
    ghost predicate Issued(before: map<string, RefreshRow>, after: map<string, RefreshRow>, tenantId: string,
                           clientId: string, w: TokenWorld, r: Response)
      requires r.Tokens?
    {
      && MadeFor(cfg, r.claims, tenantId, clientId, w.jti, w.minted) && r.refreshToken == w.secret
      && cfg.digest(w.secret) !in before
      && after == before[cfg.digest(w.secret) := RefreshRow(clientId, tenantId, Unix(w.read + cfg.refreshTtl), false)]
      && var left := w.minted + cfg.signer.accessTtl - w.answered;
         && (left >= 0 ==> 0 <= left - r.expiresIn * SECOND < SECOND)
         && (left <= 0 ==> 0 <= r.expiresIn * SECOND - left < SECOND)
    }

    /** One IssueStep of the model: a pair leaves exactly when its refresh token was stored; for an expires_in that is
        not negative the client's deadline is less than a second off the claims' exactly when the answer leaves no
        later than the second of the expiry. */
    method IssueTokens(tenantId: string, clientId: string, w: TokenWorld) returns (r: Response)
      requires store.Valid()
      modifies store
      ensures store.Valid()
      ensures Outcome(store.Snapshot(), Reply(r)) ==
              IssueStep(cfg, old(store.Snapshot()), tenantId, clientId, w.secret, w.jti, w.minted, w.read,
                  w.answered, w.secondOk)
      ensures r.Tokens? <==> w.secondOk && cfg.digest(w.secret) !in old(store.refreshTokens)
      ensures if r.Tokens? then Issued(old(store.refreshTokens), store.refreshTokens, tenantId, clientId, w, r)
              else r == SERVER_ERROR && store.refreshTokens == old(store.refreshTokens)
      ensures store.Snapshot() == old(store.Snapshot()).(refreshTokens := store.refreshTokens)
      ensures r.Tokens? && r.expiresIn >= 0 ==>
                (-SECOND < w.answered + r.expiresIn * SECOND - r.claims.expiresAt * SECOND < SECOND
                 <==> Unix(w.answered) <= r.claims.expiresAt)
    {
      if w.secondOk && cfg.digest(w.secret) !in store.refreshTokens {
        AnswerLifetime(cfg, store.Snapshot(), tenantId, clientId, w.secret, w.jti, w.minted, w.read, w.answered, true);
      }
      var claims := Jwt.NewClaims(cfg.signer, tenantId, clientId, w.jti, w.minted);
      var expiry := w.minted + cfg.signer.accessTtl;
      var row := RefreshRow(clientId, tenantId, Unix(w.read + cfg.refreshTtl), false);
      var done := store.CreateRefreshToken(cfg.digest(w.secret), row, w.secondOk);
      if !done {
        return SERVER_ERROR;
      }
      return Tokens(claims, Jwt.WholeSeconds(expiry - w.answered), w.secret);
    }
  }

  /** What one LinkedIn callback meets. */
  datatype CallbackWorld = CallbackWorld(
    consumedAt: int, consumeOk: bool, identity: L.Identity, newId: string, loginAt: int, lookupOk: bool, upsertOk: bool,
    code: string, codeAt: int, codeOk: bool)

  /** Looking the member up and storing the tenant, back to back. */
  ghost function LoginRun(cfg: Config, db: Db, state: string, r: OAuthRequest, w: CallbackWorld): Outcome {
    match LookUpStep(cfg, db, state, r, w.identity, w.newId, w.loginAt, w.lookupOk)
    case Go(Storing(_, _, t)) => StoreStep(db, state, r, t, w.upsertOk)
    case next => Outcome(db, next)
  }

  /** The callback's four statements, one after the other. */
  ghost function CallbackRun(cfg: Config, db: Db, q: CallbackQuery, w: CallbackWorld): Outcome {
    var o := CallbackStep(db, q, w.consumedAt, w.consumeOk);
    match o.next
    case Go(LoggingIn(state, r)) =>
      var stored := LoginRun(cfg, o.db, state, r, w);
      (match stored.next
       case Go(Coding(_, _, tenantId)) => IssueCodeStep(stored.db, r, tenantId, w.code, w.codeAt, w.codeOk)
       case _ => stored)
    case _ => o
  }

  predicate EndsOnAPage(o: Outcome) {
    o.next.Reply? && o.next.response.Page?
  }

  /** A callback for a parked request of no client ends on a page. */
  lemma ReconnectionEndsOnAPage(cfg: Config, db: Db, q: CallbackQuery, w: CallbackWorld)
    requires q.state in db.loginStates && db.loginStates[q.state].request == NO_CLIENT
    ensures EndsOnAPage(CallbackRun(cfg, db, q, w))
  {
    CallbackOutcome(db, q, w.consumedAt, w.consumeOk);
  }

  /** What a completed login leaves is what its two steps leave. */
  lemma CompleteIsLoginRun(cfg: Config, db: Db, after: Db, result: L.LoginOutcome, state: string, r: OAuthRequest,
                           w: CallbackWorld)
    requires OnePerMember(db.tenants)
    requires result.LoggedIn? <==>
             && w.identity.Identified? && cfg.allow(w.identity.member.id) && w.lookupOk && w.upsertOk
             && !(IdOf(db.tenants, w.identity.member.id).None? && w.newId in db.tenants)
    requires result.Forbidden? <==> w.identity.Identified? && !cfg.allow(w.identity.member.id)
    requires result.LoggedIn? ==>
             var t := L.Adopt(db.tenants, L.Proposed(w.identity.token, w.identity.member, w.newId, w.loginAt));
             && UpsertTenant(db.tenants, t.id, ToRow(t)).Some?
             && after == db.(tenants := UpsertTenant(db.tenants, t.id, ToRow(t)).value) && result.tenantId == t.id
    requires !result.LoggedIn? ==> after == db
    ensures LoginRun(cfg, db, state, r, w) ==
            Outcome(after, if result.Forbidden? then Reply(Page(403)) else if result.LoginFailed? then Reply(Page(502))
                           else if r.clientId == "" then Reply(Page(200)) else Go(Coding(state, r, result.tenantId)))
  {
  }

  /** A code goes out only for a state that was parked and alive, to that request's redirect URI, and for a tenant
      that exists; and the state is gone. */
  lemma CallbackSendsCode(cfg: Config, db: Db, q: CallbackQuery, w: CallbackWorld)
    requires OnePerMember(db.tenants) && CallbackRun(cfg, db, q, w).next.Reply?
        && CallbackRun(cfg, db, q, w).next.response.ToClient?
    ensures var (after, r) := (CallbackRun(cfg, db, q, w).db, CallbackRun(cfg, db, q, w).next.response);
            && q.state in db.loginStates && q.state !in after.loginStates
            && var parked := db.loginStates[q.state];
               && w.consumedAt < parked.expiresAt * SECOND && parked.request.clientId != ""
               && r.redirectUri == parked.request.redirectUri && r.clientState == parked.request.clientState
               && r.authCode in after.codes && after.codes[r.authCode].clientId == parked.request.clientId
               && after.codes[r.authCode].codeChallenge == parked.request.codeChallenge
               && after.codes[r.authCode].tenantId in after.tenants
               && IdOf(after.tenants, w.identity.member.id) == Some(after.codes[r.authCode].tenantId)
  {
  }

  /** When a login ends how, and under which id. */
  lemma LoginRunOutcome(cfg: Config, db: Db, state: string, r: OAuthRequest, w: CallbackWorld)
    requires OnePerMember(db.tenants)
    ensures var o := LoginRun(cfg, db, state, r, w);
            var stored := w.identity.Identified? && cfg.allow(w.identity.member.id) && w.lookupOk && w.upsertOk
                && (w.newId !in db.tenants || L.Known(db.tenants, w.identity.member.id));
            && o.db == db.(tenants := o.db.tenants) && (!stored ==> o.db == db)
            && (o.next == Reply(Page(403)) <==> w.identity.Identified? && !cfg.allow(w.identity.member.id))
            && (o.next == Reply(Page(200)) <==> stored && r.clientId == "")
            && (o.next.Go? <==> stored && r.clientId != "")
            && (o.next.Go? ==>
                  o.next.browser.Coding? && o.next.browser.state == state && o.next.browser.request == r
                  && IdOf(o.db.tenants, w.identity.member.id) == Some(o.next.browser.tenantId))
            && (!o.next.Go? ==> o.next in {Reply(Page(200)), Reply(Page(403)), Reply(Page(502))})
  {
    if w.identity.Identified? {
      L.AtomicCompleteIsExact(db.tenants, L.Proposed(w.identity.token, w.identity.member, w.newId, w.loginAt));
    }
  }

  /** How every callback ends: a code is sent exactly when the state was alive for a waiting client, LinkedIn sent a
      code, the member was identified and allowed, and login and code could be stored. */
  lemma CallbackEnds(cfg: Config, db: Db, q: CallbackQuery, w: CallbackWorld)
    requires OnePerMember(db.tenants)
    ensures var next := CallbackRun(cfg, db, q, w).next;
            var came := FindsAlive(db, q, w.consumedAt, w.consumeOk) && q.error == "" && q.code != "";
            var allowed := came && w.identity.Identified? && cfg.allow(w.identity.member.id);
            var stored := allowed && w.lookupOk && w.upsertOk
                && (w.newId !in db.tenants || L.Known(db.tenants, w.identity.member.id));
            && next.Reply?
            && (next.response.ToClient? <==>
                  stored && db.loginStates[q.state].request.clientId != "" && w.codeOk && w.code !in db.codes)
            && (next == Reply(Page(403)) <==> came && w.identity.Identified? && !allowed)
            && (next == Reply(Page(502)) <==> came && !stored && (w.identity.Identified? ==> allowed))
  {
    CallbackOutcome(db, q, w.consumedAt, w.consumeOk);
    CallbackPages(db, q, w.consumedAt, w.consumeOk);
    var o := CallbackStep(db, q, w.consumedAt, w.consumeOk);
    if o.next.Go? {
      LoginRunOutcome(cfg, o.db, q.state, db.loginStates[q.state].request, w);
    }
  }

  class Handlers {
    const login: L.LoginService
    const issuer: AuthServer

    constructor (login: L.LoginService, issuer: AuthServer)
      ensures this.login == login && this.issuer == issuer
    {
      this.login, this.issuer := login, issuer;
    }

    ghost predicate Wired()
      reads login.store
    {
      login.store == issuer.store && login.allow == issuer.cfg.allow && login.store.Valid()
    }

    /** The store and the answer end as CallbackRun says. */
    method Callback(q: CallbackQuery, w: CallbackWorld) returns (r: Response)
      requires Wired()
      modifies login.store
      ensures Wired()
      ensures Outcome(login.store.Snapshot(), Reply(r)) == CallbackRun(issuer.cfg, old(login.store.Snapshot()), q, w)
    {
      if q.state == "" {
        return Page(400);
      }
      var request := login.ConsumeState(q.state, w.consumedAt, w.consumeOk);
      if request.NotFound? {
        assert q.state !in old(login.store.loginStates) ==>
            old(login.store.loginStates) - {q.state} == old(login.store.loginStates);
        return Page(400);
      }
      if request.Broken? {
        return Page(500);
      }
      var isReconnect := request.value.clientId == "";
      if q.error != "" {
        if isReconnect {
          return Page(200);
        }
        return ToClientError(request.value.redirectUri, request.value.clientState, "access_denied");
      }
      if q.code == "" {
        return Page(400);
      }
      r := Finish(q.state, request.value, isReconnect, w);
    }

    /** The rest of the callback, once the state is burnt and LinkedIn's code is there. */
    method Finish(ghost state: string, request: OAuthRequest, isReconnect: bool, w: CallbackWorld) returns (r: Response)
      requires Wired() && isReconnect == (request.clientId == "")
      modifies login.store
      ensures Wired()
      ensures var stored := LoginRun(issuer.cfg, old(login.store.Snapshot()), state, request, w);
              Outcome(login.store.Snapshot(), Reply(r)) ==
              match stored.next
              case Go(Coding(_, _, tenantId)) => IssueCodeStep(stored.db, request, tenantId, w.code, w.codeAt, w.codeOk)
              case _ => stored
    {
      ghost var before := login.store.Snapshot();
      if w.identity.Identified? {
        L.AtomicCompleteIsExact(before.tenants, L.Proposed(w.identity.token, w.identity.member, w.newId, w.loginAt));
      }
      var result := login.Complete(w.identity, w.newId, w.loginAt, w.lookupOk, w.upsertOk);
      CompleteIsLoginRun(issuer.cfg, before, login.store.Snapshot(), result, state, request, w);
      if result.Forbidden? {
        return Page(403);
      }
      if result.LoginFailed? {
        return Page(502);
      }
      if isReconnect {
        return Page(200);
      }
      r := issuer.IssueAuthCode(request, result.tenantId, w.code, w.codeAt, w.codeOk);
    }
  }
}
