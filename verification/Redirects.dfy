/** Where browsers are sent over whole runs of all handlers: registered clients keep what they registered, and whoever
    is redirected to a client lands on a URI that passed validation. */
module Redirects {
  import opened Base
  import opened Tables
  import opened Protocol
  import opened Machine

  predicate ValidClient(cfg: Config, c: ClientRow) {
    1 <= |c.redirectUris| <= 10 && forall u :: u in c.redirectUris ==> cfg.validRedirect(u)
  }

  ghost predicate ValidClients(cfg: Config, clients: map<string, ClientRow>) {
    forall c :: c in clients ==> ValidClient(cfg, clients[c])
  }

  /** A request that names a client names a valid URI. */
  predicate ValidRequest(cfg: Config, r: OAuthRequest) {
    r.clientId != "" ==> cfg.validRedirect(r.redirectUri)
  }

  ghost predicate ValidStates(cfg: Config, states: map<string, StateRow>) {
    forall x :: x in states ==> ValidRequest(cfg, states[x].request)
  }

  /** Only a request with a client is parked or sent a code. */
  predicate ValidBrowser(cfg: Config, b: Browser) {
    ValidRequest(cfg, b.request) && (b.Parking? || b.Coding? ==> b.request.clientId != "")
  }

  ghost predicate ValidBrowsers(cfg: Config, browsers: Browsers) {
    forall t :: t in browsers ==> ValidBrowser(cfg, browsers[t])
  }

  ghost predicate Inv(cfg: Config, s: Sys) {
    && ValidClients(cfg, s.db.clients) && ValidStates(cfg, s.db.loginStates)
    && ValidBrowsers(cfg, s.browsers)
  }

  /** Registrations alone touch the clients, and only to add one. */
  lemma ClientsAfter(cfg: Config, s: Sys, a: Action)
    requires AtStep(s, a)
    ensures var clients := Result(cfg, s, a).db.clients;
            || clients == s.db.clients
            || (a.Register? && a.clientId !in s.db.clients && a.clientId in clients
                && ValidClient(cfg, clients[a.clientId])
                && clients == s.db.clients[a.clientId := clients[a.clientId]])
  {
    match a {
      case Register(name, uris, clientId, read, ok) => RegisterOutcome(cfg, s.db, name, uris, clientId, read, ok);
      case Callback(_, q, read, ok) => CallbackOutcome(s.db, q, read, ok);
      case Exchange(_, f, read, ok) => ExchangeOutcome(cfg, s.db, f, read, ok);
      case Refresh(_, f, read, ok) => RefreshOutcome(cfg, s.db, f, read, ok);
      case _ =>
    }
  }

  lemma StatesAfter(cfg: Config, s: Sys, a: Action)
    requires AtStep(s, a) && Inv(cfg, s)
    ensures ValidStates(cfg, Result(cfg, s, a).db.loginStates)
  {
    match a {
      case Park(t, state, read, ok) => assert ValidBrowser(cfg, s.browsers[t]);
      case Callback(_, q, read, ok) => CallbackOutcome(s.db, q, read, ok);
      case Exchange(_, f, read, ok) => ExchangeOutcome(cfg, s.db, f, read, ok);
      case Refresh(_, f, read, ok) => RefreshOutcome(cfg, s.db, f, read, ok);
      case _ =>
    }
  }

  lemma NextIsValid(cfg: Config, s: Sys, a: Action)
    requires AtStep(s, a) && Inv(cfg, s)
    ensures Result(cfg, s, a).next.Go? ==> ValidBrowser(cfg, Result(cfg, s, a).next.browser)
  {
    match a {
      case Authorize(_, q, ok) => AuthorizeOutcome(cfg, s.db, q, ok);
      case Callback(_, q, read, ok) => CallbackOutcome(s.db, q, read, ok);
      case LookUp(t, _, _, _, _) => assert ValidBrowser(cfg, s.browsers[t]);
      case StoreTenant(t, _) => assert ValidBrowser(cfg, s.browsers[t]);
      case Exchange(_, f, read, ok) => ExchangeOutcome(cfg, s.db, f, read, ok);
      case Refresh(_, f, read, ok) => RefreshOutcome(cfg, s.db, f, read, ok);
      case _ =>
    }
  }

  lemma EventKeeps(cfg: Config, s: Sys, e: Event)
    requires AtStep(s, e.action) && Inv(cfg, s)
    ensures Inv(cfg, Apply(cfg, s, e))
  {
    ClientsAfter(cfg, s, e.action);
    StatesAfter(cfg, s, e.action);
    NextIsValid(cfg, s, e.action);
  }

  lemma {:induction false} RunKeeps(cfg: Config, s: Sys, es: seq<Event>)
    requires Inv(cfg, s) && IsRun(cfg, s, es)
    ensures Inv(cfg, After(cfg, s, es))
    decreases |es|
  {
    if es != [] {
      EventKeeps(cfg, s, es[0]);
      RunKeeps(cfg, Apply(cfg, s, es[0]), es[1..]);
    }
  }

  /** After every run every stored client has one to ten URIs, all valid, and the clients there were are as they
      were. */
  lemma {:induction false} RunKeepsClients(cfg: Config, s: Sys, es: seq<Event>)
    requires ValidClients(cfg, s.db.clients) && IsRun(cfg, s, es)
    ensures ValidClients(cfg, After(cfg, s, es).db.clients)
    ensures forall c :: c in s.db.clients ==>
              c in After(cfg, s, es).db.clients && After(cfg, s, es).db.clients[c] == s.db.clients[c]
    decreases |es|
  {
    if es != [] {
      ClientsAfter(cfg, s, es[0].action);
      RunKeepsClients(cfg, Apply(cfg, s, es[0]), es[1..]);
    }
  }

  lemma AnswerIsValid(cfg: Config, s: Sys, a: Action)
    requires AtStep(s, a) && Inv(cfg, s)
    ensures match Answer(cfg, s, a)
            case Some(ToClient(uri, _, _)) => cfg.validRedirect(uri)
            case Some(ToClientError(uri, _, _)) => cfg.validRedirect(uri)
            case _ => true
  {
    match a {
      case Authorize(_, q, ok) => AuthorizeOutcome(cfg, s.db, q, ok);
      case Park(t, _, _, _) => assert ValidBrowser(cfg, s.browsers[t]);
      case Callback(_, q, read, ok) => CallbackOutcome(s.db, q, read, ok);
      case IssueCode(t, _, _, _) => assert ValidBrowser(cfg, s.browsers[t]);
      case Exchange(_, f, read, ok) => ExchangeOutcome(cfg, s.db, f, read, ok);
      case Refresh(_, f, read, ok) => RefreshOutcome(cfg, s.db, f, read, ok);
      case _ =>
    }
  }

  /** In every run of every interleaving, each answer that sends a browser to a client, with a code or with an error,
      sends it to a URI that passed validation. */
  lemma NoOpenRedirect(cfg: Config, es: seq<Event>, e: Event)
    requires IsRun(cfg, INITIAL, es + [e])
    ensures IsRun(cfg, INITIAL, es) && AtStep(After(cfg, INITIAL, es), e.action)
    ensures match Answer(cfg, After(cfg, INITIAL, es), e.action)
            case Some(ToClient(uri, _, _)) => cfg.validRedirect(uri)
            case Some(ToClientError(uri, _, _)) => cfg.validRedirect(uri)
            case _ => true
  {
    SplitLast(cfg, INITIAL, es, e);
    RunKeeps(cfg, INITIAL, es);
    AnswerIsValid(cfg, After(cfg, INITIAL, es), e.action);
  }
}
