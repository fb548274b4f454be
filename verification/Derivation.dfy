/** Over all runs: what is derived from what, and at most once.

    Every event keeps the invariant; from it follow the two main results on the grant
    protocol, linear derivation and the provenance of every access token handed out.
  */
module Derivation {
  import opened Base
  import opened Tables
  import opened Protocol
  import opened Machine
  import opened Invariants
  import Identities
  import Jwt

  ghost predicate Inv(cfg: Config, s: Sys) {
    LoginInv(LoginsOf(s)) && ChainInv(cfg, ChainsOf(s))
  }

  lemma InitialInv(cfg: Config)
    ensures Inv(cfg, INITIAL)
  {
  }

  // Each handler step first: what it leaves of the two views, and then that this keeps their invariants.

  lemma RegisterEffect(cfg: Config, s: Sys, e: Event)
    requires AtStep(s, e.action) && e.action.Register?
    ensures var (a, v, t) := (e.action, LoginsOf(s), Apply(cfg, s, e));
            var drawn := v.(drawn := v.drawn + {a.clientId});
            && ChainsOf(t) == ChainsOf(s)
            && (LoginsOf(t) == drawn
                || (a.clientId !in v.clients
                    && LoginsOf(t) == drawn.(clients := v.clients[a.clientId := ClientRow(a.name, a.uris,
                       Unix(a.read))])))
  {
  }

  lemma RegisterKeeps(cfg: Config, s: Sys, e: Event)
    requires Inv(cfg, s) && Enabled(cfg, s, e) && e.action.Register?
    ensures Inv(cfg, Apply(cfg, s, e))
  {
    var a, v := e.action, LoginsOf(s);
    RegisterEffect(cfg, s, e);
    MoreDrawn(v, a.clientId);
    if a.clientId !in v.clients {
      MoreClients(v.(drawn := v.drawn + {a.clientId}), a.clientId, ClientRow(a.name, a.uris, Unix(a.read)));
    }
  }

  lemma ReconnectEffect(cfg: Config, s: Sys, e: Event)
    requires AtStep(s, e.action) && e.action.Reconnect?
    ensures var (a, v, t) := (e.action, LoginsOf(s), Apply(cfg, s, e));
            var row := StateRow(NO_CLIENT, Unix(a.read + LOGIN_STATE_TTL));
            && ChainsOf(t) == ChainsOf(s)
            && LoginsOf(t) ==
               if Result(cfg, s, a).next == Reply(Link(a.state))
               then v.(states := v.states[a.state := row], parked := v.parked[a.state := NO_CLIENT],
                   drawn := v.drawn + {a.state})
               else v.(drawn := v.drawn + {a.state})
  {
  }

  lemma ReconnectKeeps(cfg: Config, s: Sys, e: Event)
    requires Inv(cfg, s) && Enabled(cfg, s, e) && e.action.Reconnect?
    ensures Inv(cfg, Apply(cfg, s, e))
  {
    ReconnectEffect(cfg, s, e);
    StateParked(LoginsOf(s), e.action.state, StateRow(NO_CLIENT, Unix(e.action.read + LOGIN_STATE_TTL)));
    MoreDrawn(LoginsOf(s), e.action.state);
  }

  lemma AuthorizeKeeps(cfg: Config, s: Sys, e: Event)
    requires Inv(cfg, s) && Enabled(cfg, s, e) && e.action.Authorize?
    ensures Inv(cfg, Apply(cfg, s, e))
  {
    var a, v := e.action, LoginsOf(s);
    var next := Result(cfg, s, a).next;
    if next.Go? {
      NewParking(v, a.thread, next.browser.request);
    } else {
      BrowserEnds(v, a.thread);
    }
  }

  lemma ParkEffect(cfg: Config, s: Sys, e: Event)
    requires AtStep(s, e.action) && e.action.Park?
    ensures var (a, v, t) := (e.action, LoginsOf(s), Apply(cfg, s, e));
            var r := s.browsers[a.thread].request;
            var ended := v.(browsers := v.browsers - {a.thread});
            && ChainsOf(t) == ChainsOf(s)
            && LoginsOf(t) ==
               if Result(cfg, s, a).next == Reply(ToLogin(a.state))
               then ended.(states := v.states[a.state := StateRow(r, Unix(a.read + LOGIN_STATE_TTL))],
                           parked := v.parked[a.state := r], drawn := v.drawn + {a.state})
               else ended.(drawn := v.drawn + {a.state})
  {
  }

  lemma ParkKeeps(cfg: Config, s: Sys, e: Event)
    requires Inv(cfg, s) && Enabled(cfg, s, e) && e.action.Park?
    ensures Inv(cfg, Apply(cfg, s, e))
  {
    var a, v := e.action, LoginsOf(s);
    var r := s.browsers[a.thread].request;
    var ended := v.(browsers := v.browsers - {a.thread});
    assert BrowserKnown(v, v.browsers[a.thread]);
    ParkEffect(cfg, s, e);
    BrowserEnds(v, a.thread);
    StateParked(ended, a.state, StateRow(r, Unix(a.read + LOGIN_STATE_TTL)));
    MoreDrawn(ended, a.state);
  }

  /** A callback burns its state and goes on, or answers and may have burnt it. */
  lemma CallbackEffect(cfg: Config, s: Sys, e: Event)
    requires Enabled(cfg, s, e) && e.action.Callback?
    ensures var a, t, x := e.action, Apply(cfg, s, e), e.action.callback.state;
            && ChainsOf(t) == ChainsOf(s)
            && t.db.loginStates in {s.db.loginStates, s.db.loginStates - {x}}
            && (Result(cfg, s, a).next.Go? ==>
                  x in s.db.loginStates
                  && LoginsOf(t) == LoginsOf(s).(states := s.db.loginStates - {x},
                       browsers := s.browsers[a.thread := LoggingIn(x, s.db.loginStates[x].request)]))
            && (!Result(cfg, s, a).next.Go? ==>
                  LoginsOf(t) == LoginsOf(s).(browsers := s.browsers - {a.thread}, states := t.db.loginStates))
  {
    var o := Result(cfg, s, e.action);
    assert o.db == s.db || o.db == ConsumeLoginState(s.db, e.action.callback.state);
    assert !o.next.Mint?;
  }

  lemma CallbackKeeps(cfg: Config, s: Sys, e: Event)
    requires Inv(cfg, s) && Enabled(cfg, s, e) && e.action.Callback?
    ensures Inv(cfg, Apply(cfg, s, e))
  {
    var a, v := e.action, LoginsOf(s);
    CallbackEffect(cfg, s, e);
    if Result(cfg, s, a).next.Go? {
      StateTaken(v, a.thread, a.callback.state);
    } else {
      BrowserEnds(v, a.thread);
      FewerStates(v.(browsers := v.browsers - {a.thread}), Apply(cfg, s, e).db.loginStates);
    }
  }

  lemma LookUpKeeps(cfg: Config, s: Sys, e: Event)
    requires Inv(cfg, s) && Enabled(cfg, s, e) && e.action.LookUp?
    ensures Inv(cfg, Apply(cfg, s, e))
  {
    var a, v := e.action, LoginsOf(s);
    var next := Result(cfg, s, a).next;
    if next.Go? {
      TenantChosen(v, a.thread, next.browser.tenant);
    } else {
      BrowserEnds(v, a.thread);
    }
  }

  lemma StoreTenantEffect(cfg: Config, s: Sys, e: Event)
    requires AtStep(s, e.action) && e.action.StoreTenant?
    ensures var (a, v, t) := (e.action, LoginsOf(s), Apply(cfg, s, e));
            var b := s.browsers[a.thread];
            && ChainsOf(t) == ChainsOf(s)
            && LoginsOf(t) ==
               if Result(cfg, s, a).next == Reply(Page(502)) then v.(browsers := v.browsers - {a.thread})
               else v.(browsers := if b.request.clientId == "" then v.browsers - {a.thread}
                                   else v.browsers[a.thread := Coding(b.state, b.request, b.tenant.id)],
                       logins := v.logins[b.state := b.tenant.id])
  {
  }

  lemma StoreTenantKeeps(cfg: Config, s: Sys, e: Event)
    requires Inv(cfg, s) && Enabled(cfg, s, e) && e.action.StoreTenant?
    ensures Inv(cfg, Apply(cfg, s, e))
  {
    StoreTenantEffect(cfg, s, e);
    BrowserEnds(LoginsOf(s), e.action.thread);
    LoginRecorded(LoginsOf(s), e.action.thread, s.browsers[e.action.thread].tenant.id);
  }

  lemma IssueCodeEffect(cfg: Config, s: Sys, e: Event)
    requires AtStep(s, e.action) && e.action.IssueCode?
    ensures var (a, t, b) := (e.action, Apply(cfg, s, e), s.browsers[e.action.thread]);
            var (v, w) := (LoginsOf(s), ChainsOf(s));
            var ended := v.(browsers := v.browsers - {a.thread}, drawn := v.drawn + {a.code});
            var origin := CodeOrigin(b.state, CodeRowOf(b.request, b.tenantId, a.read));
            if a.ok && a.code !in s.db.codes
            then
              && LoginsOf(t) == ended.(codes := v.codes[a.code := origin])
              && ChainsOf(t) == w.(live := w.live[a.code := origin.row], codes := w.codes[a.code := origin])
            else LoginsOf(t) == ended && ChainsOf(t) == w
  {
  }

  lemma IssueCodeKeeps(cfg: Config, s: Sys, e: Event)
    requires Inv(cfg, s) && Enabled(cfg, s, e) && e.action.IssueCode?
    ensures Inv(cfg, Apply(cfg, s, e))
  {
    var a, v := e.action, LoginsOf(s);
    var b := s.browsers[a.thread];
    IssueCodeEffect(cfg, s, e);
    if a.ok && a.code !in s.db.codes {
      CodeRecorded(v, a.thread, a.code, a.read);
      CodeCreated(cfg, ChainsOf(s), a.code, CodeOrigin(b.state, CodeRowOf(b.request, b.tenantId, a.read)));
    } else {
      BrowserEnds(v, a.thread);
      MoreDrawn(v.(browsers := v.browsers - {a.thread}), a.code);
    }
  }

  /** A token request with a code leaves the tables alone, burns the code, or burns it and goes on to issue. */
  lemma ExchangeEffect(cfg: Config, s: Sys, e: Event)
    requires Enabled(cfg, s, e) && e.action.Exchange?
    ensures var a, t, c := e.action, Apply(cfg, s, e), e.action.codeForm.code;
            var v, w, next := ChainsOf(s), ChainsOf(t), Result(cfg, s, a).next;
            && LoginsOf(t) == LoginsOf(s)
            && (c !in s.db.codes || w.live == v.live ==> w == v.(issuers := v.issuers - {a.thread}))
            && (c in s.db.codes && w.live != v.live ==>
                  var taken := v.(live := v.live - {c}, redeemed := v.redeemed + {c});
                  if !next.Mint? then w == taken.(issuers := taken.issuers - {a.thread})
                  else
                    var row := s.db.codes[c];
                    && next.issuer == Issuing(row.tenantId, row.clientId, FromCode(c, a.codeForm.verifier))
                    && cfg.digest(a.codeForm.verifier) == row.codeChallenge
                    && MIN_VERIFIER <= |a.codeForm.verifier| <= MAX_VERIFIER
                    && w == taken.(issuers := taken.issuers[a.thread := next.issuer]))
  {
    var a := e.action;
    ExchangeOutcome(cfg, s.db, a.codeForm, a.read, a.ok);
    assert a.codeForm.code !in s.db.codes - {a.codeForm.code};
  }

  lemma ExchangeKeeps(cfg: Config, s: Sys, e: Event)
    requires Inv(cfg, s) && Enabled(cfg, s, e) && e.action.Exchange?
    ensures Inv(cfg, Apply(cfg, s, e))
  {
    var a, v, c := e.action, ChainsOf(s), e.action.codeForm.code;
    var w := ChainsOf(Apply(cfg, s, e));
    ExchangeEffect(cfg, s, e);
    if c !in s.db.codes || w.live == v.live {
      IssuerEnds(cfg, v, a.thread);
    } else {
      CodeRedeemed(cfg, v, c);
      if Result(cfg, s, a).next.Mint? {
        CodeOpens(cfg, v, c, a.thread, a.codeForm.verifier);
      } else {
        IssuerEnds(cfg, v.(live := v.live - {c}, redeemed := v.redeemed + {c}), a.thread);
      }
    }
  }

  lemma CodeOpens(cfg: Config, v: Chains, c: string, t: nat, verifier: string)
    requires ChainInv(cfg, v) && c in v.live && t !in v.issuers
    requires cfg.digest(verifier) == v.live[c].codeChallenge && MIN_VERIFIER <= |verifier| <= MAX_VERIFIER
    ensures var taken := v.(live := v.live - {c}, redeemed := v.redeemed + {c});
            ChainInv(cfg, taken.(issuers := taken.issuers[t := Issuing(v.live[c].tenantId, v.live[c].clientId,
                FromCode(c, verifier))]))
  {
    CodeRedeemed(cfg, v, c);
    forall h | h in v.grants ensures !FromCode(c, verifier).SameSource(v.grants[h].origin) {
      assert GrantKnown(cfg, v, v.grants[h]);
    }
    IssuerStarts(cfg, v.(live := v.live - {c}, redeemed := v.redeemed + {c}), t,
                 Issuing(v.live[c].tenantId, v.live[c].clientId, FromCode(c, verifier)));
  }

  /** A token request with a refresh token leaves the tables alone, burns the token, or burns it and goes on to
      issue. */
  lemma RefreshEffect(cfg: Config, s: Sys, e: Event)
    requires Enabled(cfg, s, e) && e.action.Refresh?
    ensures var a, t, h := e.action, Apply(cfg, s, e), cfg.digest(e.action.refreshForm.refreshToken);
            var v, w, next := ChainsOf(s), ChainsOf(t), Result(cfg, s, a).next;
            && LoginsOf(t) == LoginsOf(s)
            && Weaker(w.tokens, v.tokens)
            && (!next.Mint? ==> w == v.(tokens := w.tokens, issuers := v.issuers - {a.thread}))
            && (next.Mint? ==>
                  && Live(v.tokens, h) && !Live(w.tokens, h)
                  && next.issuer == Issuing(v.tokens[h].tenantId, v.tokens[h].clientId, FromToken(h))
                  && w == v.(tokens := w.tokens, issuers := v.issuers[a.thread := next.issuer]))
  {
    RefreshOutcome(cfg, s.db, e.action.refreshForm, e.action.read, e.action.ok);
  }

  lemma RefreshKeeps(cfg: Config, s: Sys, e: Event)
    requires Inv(cfg, s) && Enabled(cfg, s, e) && e.action.Refresh?
    ensures Inv(cfg, Apply(cfg, s, e))
  {
    var a, v := e.action, ChainsOf(s);
    var tokens := Apply(cfg, s, e).db.refreshTokens;
    RefreshEffect(cfg, s, e);
    FewerTokens(cfg, v, tokens);
    if Result(cfg, s, a).next.Mint? {
      TokenRotates(cfg, v, tokens, a.thread, cfg.digest(a.refreshForm.refreshToken));
    } else {
      IssuerEnds(cfg, v.(tokens := tokens), a.thread);
    }
  }

  lemma TokenRotates(cfg: Config, v: Chains, tokens: RefreshTokens, t: nat, h: string)
    requires ChainInv(cfg, v) && Weaker(tokens, v.tokens) && ChainInv(cfg, v.(tokens := tokens))
    requires Live(v.tokens, h) && !Live(tokens, h) && t !in v.issuers
    ensures ChainInv(cfg, v.(tokens := tokens,
        issuers := v.issuers[t := Issuing(v.tokens[h].tenantId, v.tokens[h].clientId, FromToken(h))]))
  {
    assert GrantKnown(cfg, v, v.grants[h]);
    forall k | Live(tokens, k) ensures Live(v.tokens, k) && k != h {
    }
    IssuerStarts(cfg, v.(tokens := tokens), t, Issuing(v.tokens[h].tenantId, v.tokens[h].clientId, FromToken(h)));
  }

  lemma IssueKeeps(cfg: Config, s: Sys, e: Event)
    requires Inv(cfg, s) && Enabled(cfg, s, e) && e.action.Issue?
    ensures Inv(cfg, Apply(cfg, s, e))
  {
    var a, v, t := e.action, ChainsOf(s), Apply(cfg, s, e);
    var hash := cfg.digest(a.secret);
    MoreDrawn(LoginsOf(s), a.secret);
    if Result(cfg, s, a).next.response.Tokens? {
      TokenIssued(cfg, v, a.thread, hash, t.db.refreshTokens[hash], t.log.grants[hash]);
    } else {
      IssuerEnds(cfg, v, a.thread);
    }
  }

  ghost predicate RowsRemoved(before: Db, after: Db) {
    && after.clients == before.clients
    && (forall x :: x in after.loginStates ==> x in before.loginStates && after.loginStates[x] == before.loginStates[x])
    && (forall c :: c in after.codes ==> c in before.codes && after.codes[c] == before.codes[c])
    && Weaker(after.refreshTokens, before.refreshTokens)
  }

  lemma DeletionsRemoveRows(db: Db, id: string)
    ensures RowsRemoved(db, DeleteTenant(db, id)) && RowsRemoved(db, RevokeTenantRefreshTokens(db, id))
  {
  }

  lemma PurgesRemoveRows(db: Db, now: int)
    ensures RowsRemoved(db, PurgeCodes(db, now))
    ensures RowsRemoved(db, PurgeLoginStates(db, now)) && RowsRemoved(db, PurgeRefreshTokens(db, now))
  {
  }

  predicate Housekeeping(a: Action) {
    a.Renew? || a.Remove? || a.Revoke? || a.Purges()
  }

  lemma PurgeEffect(cfg: Config, s: Sys, e: Event)
    requires AtStep(s, e.action) && e.action.Purges()
    ensures var t := Apply(cfg, s, e);
            && LoginsOf(t) == LoginsOf(s).(states := t.db.loginStates)
            && ChainsOf(t) == ChainsOf(s).(live := t.db.codes, tokens := t.db.refreshTokens)
  {
  }

  /** Renewals, deletions, revocations and purges start nothing; they only take rows away or revoke them. */
  lemma HousekeepingEffect(cfg: Config, s: Sys, e: Event)
    requires AtStep(s, e.action) && Housekeeping(e.action)
    ensures var t := Apply(cfg, s, e);
            && LoginsOf(t) == LoginsOf(s).(states := t.db.loginStates)
            && ChainsOf(t) == ChainsOf(s).(live := t.db.codes, tokens := t.db.refreshTokens)
  {
    if e.action.Purges() {
      PurgeEffect(cfg, s, e);
    }
  }

  lemma HousekeepingRemovesRows(cfg: Config, s: Sys, e: Event)
    requires AtStep(s, e.action) && Housekeeping(e.action)
    ensures RowsRemoved(s.db, Result(cfg, s, e.action).db)
  {
    match e.action {
      case Renew(_) =>
      case Remove(id) => DeletionsRemoveRows(s.db, id);
      case Revoke(id) => DeletionsRemoveRows(s.db, id);
      case SweepCodes(now) => PurgesRemoveRows(s.db, now);
      case SweepStates(now) => PurgesRemoveRows(s.db, now);
      case SweepTokens(now) => PurgesRemoveRows(s.db, now);
    }
  }

  lemma HousekeepingKeeps(cfg: Config, s: Sys, e: Event)
    requires Inv(cfg, s) && Enabled(cfg, s, e) && Housekeeping(e.action)
    ensures Inv(cfg, Apply(cfg, s, e))
  {
    HousekeepingEffect(cfg, s, e);
    HousekeepingRemovesRows(cfg, s, e);
    var t := Apply(cfg, s, e);
    FewerStates(LoginsOf(s), t.db.loginStates);
    FewerCodes(cfg, ChainsOf(s), t.db.codes);
    FewerTokens(cfg, ChainsOf(s).(live := t.db.codes), t.db.refreshTokens);
  }

  lemma EventKeepsInv(cfg: Config, s: Sys, e: Event)
    requires Inv(cfg, s) && Enabled(cfg, s, e)
    ensures Inv(cfg, Apply(cfg, s, e))
  {
    match e.action {
      case Register(_, _, _, _, _) => RegisterKeeps(cfg, s, e);
      case Reconnect(_, _, _) => ReconnectKeeps(cfg, s, e);
      case Authorize(_, _, _) => AuthorizeKeeps(cfg, s, e);
      case Park(_, _, _, _) => ParkKeeps(cfg, s, e);
      case Callback(_, _, _, _) => CallbackKeeps(cfg, s, e);
      case LookUp(_, _, _, _, _) => LookUpKeeps(cfg, s, e);
      case StoreTenant(_, _) => StoreTenantKeeps(cfg, s, e);
      case IssueCode(_, _, _, _) => IssueCodeKeeps(cfg, s, e);
      case Exchange(_, _, _, _) => ExchangeKeeps(cfg, s, e);
      case Refresh(_, _, _, _) => RefreshKeeps(cfg, s, e);
      case Issue(_, _, _, _, _, _, _) => IssueKeeps(cfg, s, e);
      case _ => HousekeepingKeeps(cfg, s, e);
    }
  }

  lemma {:induction false} RunKeepsInv(cfg: Config, s: Sys, es: seq<Event>)
    requires Inv(cfg, s) && IsRun(cfg, s, es)
    ensures Inv(cfg, After(cfg, s, es))
    decreases |es|
  {
    if es != [] {
      EventKeepsInv(cfg, s, es[0]);
      RunKeepsInv(cfg, Apply(cfg, s, es[0]), es[1..]);
    }
  }

  // ----- linear derivation -----

  function LiveTokens(s: Sys): set<string> {
    set h | h in s.db.refreshTokens && !s.db.refreshTokens[h].revoked
  }

  lemma OneInjection<K>(f: map<K, string>)
    requires forall x, y :: x in f && y in f && f[x] == f[y] ==> x == y
    ensures |f.Keys| <= |f.Values|
  {
    InjectiveImageCount(f.Keys, f, f.Values);
  }

  lemma TwoInjections(f: map<string, string>, g: map<nat, string>, cod: set<string>)
    requires f.Values <= cod && g.Values <= cod && f.Values !! g.Values
    requires forall x, y :: x in f && y in f && f[x] == f[y] ==> x == y
    requires forall x, y :: x in g && y in g && g[x] == g[y] ==> x == y
    ensures |f.Keys| + |g.Keys| <= |cod|
  {
    OneInjection(f);
    OneInjection(g);
    SubsetCount(f.Values + g.Values, cod);
  }

  lemma HeadsWithinRedeemed(cfg: Config, v: Chains)
    requires ChainInv(cfg, v)
    ensures |set h | h in v.tokens && !v.tokens[h].revoked| + |v.issuers.Keys| <= |v.redeemed|
  {
    var live := set h | h in v.tokens && !v.tokens[h].revoked;
    assert forall h :: h in live <==> Live(v.tokens, h);
    assert forall h :: h in live ==> h in v.grants;
    var liveRoot := map h | h in live :: v.grants[h].root;
    var issuerRoot := map t | t in v.issuers :: Root(v.grants, v.issuers[t].origin);
    HeadRootsKnown(cfg, v, live, liveRoot, issuerRoot);
    HeadRootsInjective(v, live, liveRoot, issuerRoot);
    TwoInjections(liveRoot, issuerRoot, v.redeemed);
    assert liveRoot.Keys == live && issuerRoot.Keys == v.issuers.Keys;
  }

  lemma HeadRootsKnown(cfg: Config, v: Chains, live: set<string>, liveRoot: map<string, string>,
                       issuerRoot: map<nat, string>)
    requires TokensKnown(cfg, v) && OneHead(v) && liveRoot.Keys == live && issuerRoot.Keys == v.issuers.Keys
    requires forall h :: h in live ==> Live(v.tokens, h) && h in v.grants && liveRoot[h] == v.grants[h].root
    requires forall t :: t in v.issuers ==> issuerRoot[t] == Root(v.grants, v.issuers[t].origin)
    ensures liveRoot.Values <= v.redeemed && issuerRoot.Values <= v.redeemed && liveRoot.Values !! issuerRoot.Values
  {
    forall r | r in liveRoot.Values ensures r in v.redeemed && r !in issuerRoot.Values {
      var h :| h in live && liveRoot[h] == r;
      assert GrantKnown(cfg, v, v.grants[h]);
    }
    forall r | r in issuerRoot.Values ensures r in v.redeemed {
      var t :| t in v.issuers && issuerRoot[t] == r;
      assert IssuerKnown(cfg, v, v.issuers[t]);
    }
  }

  lemma HeadRootsInjective(v: Chains, live: set<string>, liveRoot: map<string, string>, issuerRoot: map<nat, string>)
    requires OneHead(v) && liveRoot.Keys == live && issuerRoot.Keys == v.issuers.Keys
    requires forall h :: h in live ==> Live(v.tokens, h) && h in v.grants && liveRoot[h] == v.grants[h].root
    requires forall t :: t in v.issuers ==> issuerRoot[t] == Root(v.grants, v.issuers[t].origin)
    ensures forall g, h :: g in liveRoot && h in liveRoot && liveRoot[g] == liveRoot[h] ==> g == h
    ensures forall t, u :: t in issuerRoot && u in issuerRoot && issuerRoot[t] == issuerRoot[u] ==> t == u
  {
  }

  /** In every run, whatever the interleaving: a login state yields at most one code, a code at most one
      first refresh token, a refresh token at most one successor; so the live refresh tokens and the
      answers still being written never outnumber the codes redeemed. */
  lemma LinearDerivation(cfg: Config, es: seq<Event>)
    requires IsRun(cfg, INITIAL, es)
    ensures var s := After(cfg, INITIAL, es);
            && (forall c, d :: c in s.log.codes && d in s.log.codes && c != d ==>
                  s.log.codes[c].state != s.log.codes[d].state)
            && (forall g, h :: g in s.log.grants && h in s.log.grants && g != h ==>
                  !s.log.grants[g].origin.SameSource(s.log.grants[h].origin))
            && |LiveTokens(s)| + |s.issuers.Keys| <= |s.log.redeemed|
            && s.log.redeemed <= s.log.codes.Keys
  {
    InitialInv(cfg);
    RunKeepsInv(cfg, INITIAL, es);
    HeadsWithinRedeemed(cfg, ChainsOf(After(cfg, INITIAL, es)));
  }

  // ----- provenance -----

  /** Every successor is one generation after its predecessor, so chains end. */
  predicate Chained(grants: Grants) {
    forall h :: h in grants ==> Linked(grants, grants[h])
  }

  predicate Linked(grants: Grants, g: Grant) {
    g.origin.FromToken? ==> g.origin.hash in grants && g.generation == grants[g.origin.hash].generation + 1
                            && g.root == grants[g.origin.hash].root
  }

  /** The first refresh token of the chain that ends in h: predecessors followed back to a code. */
  function FirstOf(grants: Grants, h: string): string
    requires Chained(grants) && h in grants
    decreases grants[h].generation
  {
    assert Linked(grants, grants[h]);
    if grants[h].origin.FromCode? then h else FirstOf(grants, grants[h].origin.hash)
  }

  lemma {:induction false} FirstOfIsRooted(cfg: Config, v: Chains, h: string)
    requires ChainInv(cfg, v) && h in v.grants && Chained(v.grants)
    ensures var first := FirstOf(v.grants, h);
            first in v.grants && v.grants[first].origin.FromCode? && v.grants[first].origin.code == v.grants[h].root
    decreases v.grants[h].generation
  {
    assert GrantKnown(cfg, v, v.grants[h]) && Linked(v.grants, v.grants[h]);
    if v.grants[h].origin.FromToken? {
      FirstOfIsRooted(cfg, v, v.grants[h].origin.hash);
    }
  }

  lemma InvChained(cfg: Config, v: Chains)
    requires ChainInv(cfg, v)
    ensures Chained(v.grants)
  {
    forall h | h in v.grants ensures Linked(v.grants, v.grants[h]) {
      assert GrantKnown(cfg, v, v.grants[h]);
    }
  }

  lemma OnlyIssueHandsOut(cfg: Config, s: Sys, a: Action)
    requires AtStep(s, a) && Answer(cfg, s, a).Some? && Answer(cfg, s, a).value.Tokens?
    ensures a.Issue?
  {
  }

  lemma AnswerIsLogged(cfg: Config, s: Sys, e: Event)
    requires AtStep(s, e.action) && Answer(cfg, s, e.action).Some? && Answer(cfg, s, e.action).value.Tokens?
    ensures var r, t := Answer(cfg, s, e.action).value, Apply(cfg, s, e);
            var h := cfg.digest(r.refreshToken);
            && h in t.log.grants && t.log.grants[h].claims == r.claims
            && e.action.Issue? && r.claims ==
               Jwt.NewClaims(cfg.signer, r.claims.subject, r.claims.clientId, e.action.jti, e.action.minted)
  {
    OnlyIssueHandsOut(cfg, s, e.action);
  }

  /** The refresh token of hash h, handed out with these claims, goes back through its chain to first, which was
      issued for code, opened by verifier. The access token speaks for the tenant and the client of that code; the
      code came from the consumed login state of an /authorize request of that client, with a redirect URI registered
      for it, and for the tenant that request's login returned. */
  ghost predicate DerivedFrom(cfg: Config, s: Sys, h: string, claims: Jwt.Claims,
                              first: string, code: string, verifier: string, state: string)
  {
    && h in s.log.grants && s.log.grants[h].claims == claims
    && Chained(s.log.grants) && first == FirstOf(s.log.grants, h)
    && first in s.log.grants && s.log.grants[first].origin == FromCode(code, verifier)
    && code in s.log.redeemed && code in s.log.codes && s.log.codes[code].state == state
    && state in s.log.parked && state !in s.db.loginStates && state in s.log.logins
    && var (row, request) := (s.log.codes[code].row, s.log.parked[state]);
    && claims.subject == row.tenantId == s.log.logins[state]
    && claims.clientId == row.clientId == request.clientId
    && MIN_VERIFIER <= |verifier| <= MAX_VERIFIER
    && cfg.digest(verifier) == row.codeChallenge == request.codeChallenge
    && row.redirectUri == request.redirectUri && row.resource == request.resource
    && IsRegistered(s.db.clients, request)
  }

  /** Provenance of every answer that carries tokens, over all runs. */
  lemma Provenance(cfg: Config, es: seq<Event>, e: Event) returns (first: string, code: string, verifier: string,
                   state: string)
    requires IsRun(cfg, INITIAL, es + [e]) && IsRun(cfg, INITIAL, es) && AtStep(After(cfg, INITIAL, es), e.action)
    requires var r := Answer(cfg, After(cfg, INITIAL, es), e.action); r.Some? && r.value.Tokens?
    ensures var r := Answer(cfg, After(cfg, INITIAL, es), e.action).value;
            DerivedFrom(cfg, After(cfg, INITIAL, es + [e]), cfg.digest(r.refreshToken), r.claims, first, code,
                verifier, state)
  {
    InitialInv(cfg);
    SplitLast(cfg, INITIAL, es, e);
    RunKeepsInv(cfg, INITIAL, es);
    RunKeepsInv(cfg, INITIAL, es + [e]);
    AnswerIsLogged(cfg, After(cfg, INITIAL, es), e);
    var s := After(cfg, INITIAL, es + [e]);
    var h := cfg.digest(Answer(cfg, After(cfg, INITIAL, es), e.action).value.refreshToken);
    InvChained(cfg, ChainsOf(s));
    FirstOfIsRooted(cfg, ChainsOf(s), h);
    assert GrantKnown(cfg, ChainsOf(s), s.log.grants[h]);
    first := FirstOf(s.log.grants, h);
    assert GrantKnown(cfg, ChainsOf(s), s.log.grants[first]);
    code, verifier := s.log.grants[first].origin.code, s.log.grants[first].origin.verifier;
    state := s.log.codes[code].state;
    assert CodeKnown(LoginsOf(s), s.log.codes[code]);
  }

  lemma IssuerIsNamed(cfg: Config, s: Sys, t: nat)
    requires Inv(cfg, s) && Identities.Named(s.db.tenants, s.browsers, s.log.logins) && t in s.issuers
    ensures s.issuers[t].tenantId != ""
  {
    assert IssuerKnown(cfg, ChainsOf(s), s.issuers[t]);
    assert CodeKnown(LoginsOf(s), s.log.codes[Root(s.log.grants, s.issuers[t].origin)]);
  }

  /** The access token of such an answer verifies to the claims Provenance speaks of, until they expire. */
  lemma DeliveredTokenVerifies(cfg: Config, es: seq<Event>, e: Event, now: int)
    requires Jwt.Sound(cfg.signer) && 0 < cfg.signer.accessTtl
    requires IsRun(cfg, INITIAL, es) && Enabled(cfg, After(cfg, INITIAL, es), e)
    requires var r := Answer(cfg, After(cfg, INITIAL, es), e.action); r.Some? && r.value.Tokens?
    ensures var claims := Answer(cfg, After(cfg, INITIAL, es), e.action).value.claims;
            Jwt.VerifyAccessToken(cfg.signer, Jwt.Serialize(cfg.signer, claims), now) ==
            if now < claims.expiresAt * SECOND then Some(claims) else None
  {
    var s := After(cfg, INITIAL, es);
    InitialInv(cfg);
    RunKeepsInv(cfg, INITIAL, es);
    Identities.RunKeepsNames(cfg, INITIAL, es);
    AnswerIsLogged(cfg, s, e);
    IssuerIsNamed(cfg, s, e.action.thread);
    Jwt.SerializedVerifies(cfg.signer, Answer(cfg, s, e.action).value.claims, now);
  }
}
