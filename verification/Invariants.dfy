/** What every step of every handler keeps, whatever the other handlers do in between.

    The invariant falls into two halves that share only the log of codes: how login states
    become codes, and how codes become chains of refresh tokens. Each half is stated over the
    few tables it concerns, with one lemma for each way a step may change them.
  */
module Invariants {
  import opened Base
  import opened Tables
  import opened Protocol
  import opened Machine

  type RefreshTokens = map<string, RefreshRow>
  type Grants = map<string, Grant>

  // ----- login states: each is a baton held by one row, one thread or one code -----

  datatype Logins = Logins(
    clients: map<string, ClientRow>, states: map<string, StateRow>, browsers: Browsers, drawn: set<string>,
    parked: map<string, OAuthRequest>, logins: map<string, string>, codes: map<string, CodeOrigin>)

  function LoginsOf(s: Sys): Logins {
    Logins(s.db.clients, s.db.loginStates, s.browsers, s.log.drawn, s.log.parked, s.log.logins, s.log.codes)
  }

  predicate IsRegistered(clients: map<string, ClientRow>, r: OAuthRequest) {
    && r.clientId != "" && r.redirectUri != "" && r.codeChallenge != ""
    && r.clientId in clients && r.redirectUri in clients[r.clientId].redirectUris
  }

  /** A parked request is a registered client's, or the empty one of a reconnection link. */
  ghost predicate ParkedKnown(v: Logins) {
    && (forall x :: x in v.states ==> x in v.parked && v.states[x].request == v.parked[x])
    && (forall x :: x in v.parked ==> x in v.drawn)
    && forall x :: x in v.parked ==> v.parked[x] == NO_CLIENT || IsRegistered(v.clients, v.parked[x])
  }

  /** What a thread knows is what was recorded, and its state is no longer in the table. */
  predicate BrowserKnown(v: Logins, b: Browser) {
    if b.Parking? then IsRegistered(v.clients, b.request)
    else
      && b.state in v.parked && b.request == v.parked[b.state] && b.state !in v.states
      && (b.Coding? ==> b.request.clientId != "" && b.state in v.logins && v.logins[b.state] == b.tenantId)
  }

  ghost predicate BrowsersKnown(v: Logins) {
    && (forall t :: t in v.browsers ==> BrowserKnown(v, v.browsers[t]))
    && (forall t, u :: t in v.browsers && u in v.browsers && t != u
                       && !v.browsers[t].Parking? && !v.browsers[u].Parking? ==>
                         v.browsers[t].state != v.browsers[u].state)
    && forall t, c :: t in v.browsers && !v.browsers[t].Parking? && c in v.codes ==>
         v.browsers[t].state != v.codes[c].state
  }

  /** A code carries the request of its login state and the tenant its login returned. */
  predicate CodeKnown(v: Logins, o: CodeOrigin) {
    && o.state in v.parked && o.state !in v.states && o.state in v.logins
    && var r := v.parked[o.state];
    && r.clientId != ""
    && o.row.clientId == r.clientId && o.row.redirectUri == r.redirectUri
    && o.row.codeChallenge == r.codeChallenge && o.row.resource == r.resource
    && v.logins[o.state] == o.row.tenantId
  }

  ghost predicate CodesKnown(v: Logins) {
    && (forall c :: c in v.codes ==> c in v.drawn && CodeKnown(v, v.codes[c]))
    && forall c, d :: c in v.codes && d in v.codes && c != d ==> v.codes[c].state != v.codes[d].state
  }

  ghost predicate LoginInv(v: Logins) {
    ParkedKnown(v) && BrowsersKnown(v) && CodesKnown(v)
  }

  lemma MoreClients(v: Logins, id: string, row: ClientRow)
    requires LoginInv(v) && id !in v.clients
    ensures LoginInv(v.(clients := v.clients[id := row]))
  {
  }

  lemma MoreDrawn(v: Logins, secret: string)
    requires LoginInv(v)
    ensures LoginInv(v.(drawn := v.drawn + {secret}))
  {
  }

  lemma NewParking(v: Logins, t: nat, r: OAuthRequest)
    requires LoginInv(v) && t !in v.browsers && IsRegistered(v.clients, r)
    ensures LoginInv(v.(browsers := v.browsers[t := Parking(r)]))
  {
  }

  lemma BrowserEnds(v: Logins, t: nat)
    requires LoginInv(v)
    ensures LoginInv(v.(browsers := v.browsers - {t}))
  {
  }

  lemma FewerStates(v: Logins, fewer: map<string, StateRow>)
    requires LoginInv(v) && forall x :: x in fewer ==> x in v.states && fewer[x] == v.states[x]
    ensures LoginInv(v.(states := fewer))
  {
  }

  lemma StateParked(v: Logins, x: string, row: StateRow)
    requires LoginInv(v) && x !in v.drawn && (row.request == NO_CLIENT || IsRegistered(v.clients, row.request))
    ensures LoginInv(v.(states := v.states[x := row], parked := v.parked[x := row.request], drawn := v.drawn + {x}))
  {
  }

  lemma StateTaken(v: Logins, t: nat, x: string)
    requires LoginInv(v) && t !in v.browsers && x in v.states
    ensures LoginInv(v.(states := v.states - {x}, browsers := v.browsers[t := LoggingIn(x, v.states[x].request)]))
  {
  }

  lemma TenantChosen(v: Logins, t: nat, tenant: Tenant)
    requires LoginInv(v) && t in v.browsers && v.browsers[t].LoggingIn?
    ensures LoginInv(v.(browsers := v.browsers[t := Storing(v.browsers[t].state, v.browsers[t].request, tenant)]))
  {
  }

  lemma LoginRecorded(v: Logins, t: nat, id: string)
    requires LoginInv(v) && t in v.browsers && v.browsers[t].Storing?
    ensures var b := v.browsers[t];
            var after := if b.request.clientId == "" then v.browsers - {t}
                else v.browsers[t := Coding(b.state, b.request, id)];
            LoginInv(v.(browsers := after, logins := v.logins[b.state := id]))
  {
  }

  lemma CodeRecorded(v: Logins, t: nat, c: string, read: int)
    requires LoginInv(v) && t in v.browsers && v.browsers[t].Coding? && c !in v.drawn
    ensures var b := v.browsers[t];
            LoginInv(v.(browsers := v.browsers - {t}, drawn := v.drawn + {c},
                        codes := v.codes[c := CodeOrigin(b.state, CodeRowOf(b.request, b.tenantId, read))]))
  {
  }

  // ----- codes and refresh tokens: each chain has one head -----

  datatype Chains = Chains(
    live: map<string, CodeRow>, tokens: RefreshTokens, issuers: Issuers,
    codes: map<string, CodeOrigin>, redeemed: set<string>, grants: Grants)

  function ChainsOf(s: Sys): Chains {
    Chains(s.db.codes, s.db.refreshTokens, s.issuers, s.log.codes, s.log.redeemed, s.log.grants)
  }

  predicate Live(tokens: RefreshTokens, h: string) {
    h in tokens && !tokens[h].revoked
  }

  /** The root of an origin is a redeemed code; a code was opened by a verifier of its challenge. */
  predicate OriginKnown(cfg: Config, v: Chains, o: Origin) {
    && Root(v.grants, o) in v.redeemed
    && match o
       case FromCode(c, verifier) =>
         && c in v.codes && cfg.digest(verifier) == v.codes[c].row.codeChallenge
         && MIN_VERIFIER <= |verifier| <= MAX_VERIFIER
       case FromToken(h) => h in v.grants
  }

  predicate GrantKnown(cfg: Config, v: Chains, g: Grant) {
    && OriginKnown(cfg, v, g.origin)
    && g.root == Root(v.grants, g.origin) && g.generation == Generation(v.grants, g.origin)
    && g.root in v.codes
    && g.claims.subject == v.codes[g.root].row.tenantId && g.claims.clientId == v.codes[g.root].row.clientId
  }

  predicate IssuerKnown(cfg: Config, v: Chains, i: Issuer) {
    && OriginKnown(cfg, v, i.origin)
    && Root(v.grants, i.origin) in v.codes
    && i.tenantId == v.codes[Root(v.grants, i.origin)].row.tenantId
    && i.clientId == v.codes[Root(v.grants, i.origin)].row.clientId
  }

  /** Rows are what history says they are. */
  ghost predicate RowsKnown(v: Chains) {
    && v.redeemed <= v.codes.Keys
    && (forall c :: c in v.live ==> c in v.codes && v.live[c] == v.codes[c].row && c !in v.redeemed)
    && forall h :: h in v.tokens ==>
         h in v.grants && v.tokens[h].tenantId == v.grants[h].claims.subject
             && v.tokens[h].clientId == v.grants[h].claims.clientId
  }

  ghost predicate OriginsKnown(cfg: Config, v: Chains) {
    && (forall h {:trigger GrantKnown(cfg, v, v.grants[h])} :: h in v.grants ==> GrantKnown(cfg, v, v.grants[h]))
    && forall t {:trigger IssuerKnown(cfg, v, v.issuers[t])} :: t in v.issuers ==> IssuerKnown(cfg, v, v.issuers[t])
  }

  ghost predicate TokensKnown(cfg: Config, v: Chains) {
    RowsKnown(v) && OriginsKnown(cfg, v)
  }

  /** No source is used twice: not by two answers, not by an answer and a thread, and not while it is live. */
  ghost predicate SourcesUsedOnce(v: Chains) {
    && (forall g, h :: g in v.grants && h in v.grants && g != h ==> !v.grants[g].origin.SameSource(v.grants[h].origin))
    && (forall t, h :: t in v.issuers && h in v.grants ==> !v.issuers[t].origin.SameSource(v.grants[h].origin))
    && forall h, g :: Live(v.tokens, h) && g in v.grants ==> v.grants[g].origin != FromToken(h)
  }

  /** Per redeemed code at most one live refresh token or unfinished answer. */
  ghost predicate OneHead(v: Chains) {
    && (forall t, u :: t in v.issuers && u in v.issuers && t != u ==>
          Root(v.grants, v.issuers[t].origin) != Root(v.grants, v.issuers[u].origin))
    && (forall t, h :: t in v.issuers && Live(v.tokens, h) && h in v.grants ==>
          Root(v.grants, v.issuers[t].origin) != v.grants[h].root)
    && forall g, h :: Live(v.tokens, g) && Live(v.tokens, h) && g in v.grants && h in v.grants && g != h ==>
         v.grants[g].root != v.grants[h].root
  }

  ghost predicate ChainInv(cfg: Config, v: Chains) {
    TokensKnown(cfg, v) && SourcesUsedOnce(v) && OneHead(v)
  }

  /** History only grows, and what was known of an origin stays known. */
  ghost predicate Extends(v: Chains, w: Chains) {
    && v.redeemed <= w.redeemed
    && (forall c :: c in v.codes ==> c in w.codes && w.codes[c] == v.codes[c])
    && forall h :: h in v.grants ==> h in w.grants && w.grants[h] == v.grants[h]
  }

  lemma OriginStillKnown(cfg: Config, v: Chains, w: Chains, o: Origin)
    requires OriginKnown(cfg, v, o) && Extends(v, w)
    ensures OriginKnown(cfg, w, o) && Root(w.grants, o) == Root(v.grants, o)
        && Generation(w.grants, o) == Generation(v.grants, o)
  {
  }

  lemma StillKnown(cfg: Config, v: Chains, w: Chains)
    requires TokensKnown(cfg, v) && Extends(v, w)
    ensures forall h {:trigger GrantKnown(cfg, w, v.grants[h])} :: h in v.grants ==> GrantKnown(cfg, w, v.grants[h])
    ensures forall t :: t in v.issuers ==>
              IssuerKnown(cfg, w, v.issuers[t])
                  && Root(w.grants, v.issuers[t].origin) == Root(v.grants, v.issuers[t].origin)
  {
    forall h | h in v.grants ensures GrantKnown(cfg, w, v.grants[h]) {
      assert GrantKnown(cfg, v, v.grants[h]);
      OriginStillKnown(cfg, v, w, v.grants[h].origin);
    }
    forall t | t in v.issuers
      ensures IssuerKnown(cfg, w, v.issuers[t])
          && Root(w.grants, v.issuers[t].origin) == Root(v.grants, v.issuers[t].origin)
    {
      assert IssuerKnown(cfg, v, v.issuers[t]);
      OriginStillKnown(cfg, v, w, v.issuers[t].origin);
    }
  }

  lemma CodeCreated(cfg: Config, v: Chains, c: string, o: CodeOrigin)
    requires ChainInv(cfg, v) && c !in v.codes
    ensures ChainInv(cfg, v.(live := v.live[c := o.row], codes := v.codes[c := o]))
  {
    var w := v.(live := v.live[c := o.row], codes := v.codes[c := o]);
    assert TokensKnown(cfg, w) by {
      StillKnown(cfg, v, w);
    }
  }

  lemma FewerCodes(cfg: Config, v: Chains, fewer: map<string, CodeRow>)
    requires ChainInv(cfg, v) && forall c :: c in fewer ==> c in v.live && fewer[c] == v.live[c]
    ensures ChainInv(cfg, v.(live := fewer))
  {
    StillKnown(cfg, v, v.(live := fewer));
  }

  /** A code in the table is the root of nothing, so redeeming it makes it free for one head. */
  lemma CodeRedeemed(cfg: Config, v: Chains, c: string)
    requires ChainInv(cfg, v) && c in v.live
    ensures ChainInv(cfg, v.(live := v.live - {c}, redeemed := v.redeemed + {c}))
    ensures forall t :: t in v.issuers ==> Root(v.grants, v.issuers[t].origin) != c
    ensures forall h :: h in v.grants ==> v.grants[h].root != c
  {
    StillKnown(cfg, v, v.(live := v.live - {c}, redeemed := v.redeemed + {c}));
    assert forall t :: t in v.issuers ==> IssuerKnown(cfg, v, v.issuers[t]);
    assert forall h :: h in v.grants ==> GrantKnown(cfg, v, v.grants[h]);
  }

  lemma IssuerStarts(cfg: Config, v: Chains, t: nat, i: Issuer)
    requires ChainInv(cfg, v) && t !in v.issuers && IssuerKnown(cfg, v, i)
    requires forall h :: h in v.grants ==> !i.origin.SameSource(v.grants[h].origin)
    requires forall u :: u in v.issuers ==> Root(v.grants, v.issuers[u].origin) != Root(v.grants, i.origin)
    requires forall h :: Live(v.tokens, h) && h in v.grants ==> v.grants[h].root != Root(v.grants, i.origin)
    ensures ChainInv(cfg, v.(issuers := v.issuers[t := i]))
  {
    var w := v.(issuers := v.issuers[t := i]);
    assert TokensKnown(cfg, w) by {
      StillKnown(cfg, v, w);
      OriginStillKnown(cfg, v, w, i.origin);
    }
    IssuerStartsHead(v, t, i);
    IssuerStartsOnce(v, t, i);
  }

  lemma IssuerStartsHead(v: Chains, t: nat, i: Issuer)
    requires OneHead(v) && t !in v.issuers
    requires forall u :: u in v.issuers ==> Root(v.grants, v.issuers[u].origin) != Root(v.grants, i.origin)
    requires forall h :: Live(v.tokens, h) && h in v.grants ==> v.grants[h].root != Root(v.grants, i.origin)
    ensures OneHead(v.(issuers := v.issuers[t := i]))
  {
  }

  lemma IssuerStartsOnce(v: Chains, t: nat, i: Issuer)
    requires SourcesUsedOnce(v) && forall h :: h in v.grants ==> !i.origin.SameSource(v.grants[h].origin)
    ensures SourcesUsedOnce(v.(issuers := v.issuers[t := i]))
  {
  }

  lemma IssuerEnds(cfg: Config, v: Chains, t: nat)
    requires ChainInv(cfg, v)
    ensures ChainInv(cfg, v.(issuers := v.issuers - {t}))
  {
    StillKnown(cfg, v, v.(issuers := v.issuers - {t}));
  }

  /** Tokens may disappear or be revoked, never come back to life. */
  predicate Weaker(fewer: RefreshTokens, tokens: RefreshTokens) {
    forall h :: h in fewer ==> h in tokens && fewer[h].tenantId == tokens[h].tenantId
                               && fewer[h].clientId == tokens[h].clientId && (tokens[h].revoked ==> fewer[h].revoked)
  }

  lemma FewerTokens(cfg: Config, v: Chains, fewer: RefreshTokens)
    requires ChainInv(cfg, v) && Weaker(fewer, v.tokens)
    ensures ChainInv(cfg, v.(tokens := fewer))
  {
    var w := v.(tokens := fewer);
    assert TokensKnown(cfg, w) by {
      StillKnown(cfg, v, w);
    }
    assert forall h :: Live(fewer, h) ==> Live(v.tokens, h);
    assert SourcesUsedOnce(w);
    assert OneHead(w);
  }

  /** What the next refresh token of a thread must look like. */
  predicate Continues(v: Chains, i: Issuer, row: RefreshRow, g: Grant) {
    && g.origin == i.origin && g.root == Root(v.grants, g.origin) && g.generation == Generation(v.grants, g.origin)
    && g.claims.subject == row.tenantId == i.tenantId && g.claims.clientId == row.clientId == i.clientId
  }

  function Issued(v: Chains, t: nat, h: string, row: RefreshRow, g: Grant): Chains {
    v.(tokens := v.tokens[h := row], issuers := v.issuers - {t}, grants := v.grants[h := g])
  }

  lemma TokenIssued(cfg: Config, v: Chains, t: nat, h: string, row: RefreshRow, g: Grant)
    requires ChainInv(cfg, v) && t in v.issuers && h !in v.grants && Continues(v, v.issuers[t], row, g)
    ensures ChainInv(cfg, Issued(v, t, h, row, g))
  {
    TokenIssuedRows(v, t, h, row, g);
    TokenIssuedKnown(cfg, v, t, h, row, g);
    TokenIssuedOnce(cfg, v, t, h, row, g);
    RootsStay(cfg, v, t, h, row, g);
    TokenIssuedHead(v, t, h, row, g);
  }

  lemma TokenIssuedRows(v: Chains, t: nat, h: string, row: RefreshRow, g: Grant)
    requires RowsKnown(v) && t in v.issuers && h !in v.grants && Continues(v, v.issuers[t], row, g)
    ensures RowsKnown(Issued(v, t, h, row, g))
  {
  }

  lemma RootsStay(cfg: Config, v: Chains, t: nat, h: string, row: RefreshRow, g: Grant)
    requires TokensKnown(cfg, v) && h !in v.grants
    ensures forall u :: u in v.issuers ==>
              Root(v.grants[h := g], v.issuers[u].origin) == Root(v.grants, v.issuers[u].origin)
  {
    StillKnown(cfg, v, Issued(v, t, h, row, g));
  }

  lemma NewGrantKnown(cfg: Config, v: Chains, t: nat, h: string, row: RefreshRow, g: Grant)
    requires TokensKnown(cfg, v) && t in v.issuers && h !in v.grants && Continues(v, v.issuers[t], row, g)
    ensures GrantKnown(cfg, Issued(v, t, h, row, g), g)
  {
    assert IssuerKnown(cfg, v, v.issuers[t]);
    OriginStillKnown(cfg, v, Issued(v, t, h, row, g), g.origin);
  }

  lemma TokenIssuedKnown(cfg: Config, v: Chains, t: nat, h: string, row: RefreshRow, g: Grant)
    requires TokensKnown(cfg, v) && t in v.issuers && h !in v.grants && Continues(v, v.issuers[t], row, g)
    ensures OriginsKnown(cfg, Issued(v, t, h, row, g))
  {
    var w := Issued(v, t, h, row, g);
    StillKnown(cfg, v, w);
    NewGrantKnown(cfg, v, t, h, row, g);
    forall k | k in w.grants ensures GrantKnown(cfg, w, w.grants[k]) {
      if k != h {
        assert GrantKnown(cfg, w, v.grants[k]);
      }
    }
    forall u | u in w.issuers ensures IssuerKnown(cfg, w, w.issuers[u]) {
      assert w.issuers[u] == v.issuers[u];
    }
  }

  lemma SourceNotLive(cfg: Config, v: Chains, t: nat)
    requires ChainInv(cfg, v) && t in v.issuers
    ensures forall k :: Live(v.tokens, k) ==> v.issuers[t].origin != FromToken(k)
    ensures forall u :: u in v.issuers && u != t ==> !v.issuers[u].origin.SameSource(v.issuers[t].origin)
  {
    assert IssuerKnown(cfg, v, v.issuers[t]);
    forall u | u in v.issuers && u != t ensures !v.issuers[u].origin.SameSource(v.issuers[t].origin) {
      assert Root(v.grants, v.issuers[u].origin) != Root(v.grants, v.issuers[t].origin);
    }
    forall k | Live(v.tokens, k) ensures v.issuers[t].origin != FromToken(k) {
      assert k in v.grants;
    }
  }

  lemma NoGrantFromNew(cfg: Config, v: Chains, h: string)
    requires TokensKnown(cfg, v) && h !in v.grants
    ensures forall k :: k in v.grants ==> v.grants[k].origin != FromToken(h)
    ensures forall t :: t in v.issuers ==> v.issuers[t].origin != FromToken(h)
  {
    forall k | k in v.grants ensures v.grants[k].origin != FromToken(h) {
      assert GrantKnown(cfg, v, v.grants[k]);
    }
    forall t | t in v.issuers ensures v.issuers[t].origin != FromToken(h) {
      assert IssuerKnown(cfg, v, v.issuers[t]);
    }
  }

  lemma TokenIssuedOnce(cfg: Config, v: Chains, t: nat, h: string, row: RefreshRow, g: Grant)
    requires ChainInv(cfg, v) && t in v.issuers && h !in v.grants && Continues(v, v.issuers[t], row, g)
    ensures SourcesUsedOnce(Issued(v, t, h, row, g))
  {
    SourceNotLive(cfg, v, t);
    NoGrantFromNew(cfg, v, h);
  }

  lemma TokenIssuedHead(v: Chains, t: nat, h: string, row: RefreshRow, g: Grant)
    requires OneHead(v) && t in v.issuers && h !in v.grants && Continues(v, v.issuers[t], row, g)
    requires forall u :: u in v.issuers ==>
               Root(v.grants[h := g], v.issuers[u].origin) == Root(v.grants, v.issuers[u].origin)
    ensures OneHead(Issued(v, t, h, row, g))
  {
  }
}
