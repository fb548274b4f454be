/** All handlers at once: a state machine whose steps are the handlers' steps, in any order.

    Every event names the thread that moves, the instant of its database statement and
    everything the outside world supplies, so a run is a sequence of events. Clock readings
    lie before or after the statement as in the code, and may overlap other threads' steps.
    The log is history: nothing in the program reads it.
  */
module Machine {
  import opened Base
  import opened Tables
  import opened Protocol
  import Jwt
  import L = Logins

  datatype CodeOrigin = CodeOrigin(state: string, row: CodeRow)

  /** A pair of tokens handed out; root is the code its chain goes back to. */
  datatype Grant = Grant(origin: Origin, root: string, generation: nat, claims: Jwt.Claims)

  datatype Log = Log(
    drawn: set<string>,               // random secrets drawn so far
    parked: map<string, OAuthRequest>, // login states created, with their requests
    logins: map<string, string>,       // login state to the tenant id its login returned
    codes: map<string, CodeOrigin>,    // codes created
    redeemed: set<string>,             // codes consumed by a token request
    grants: map<string, Grant>,        // tokens handed out, by refresh token hash
    purgedTo: int)                     // latest time a purge was run for

  type Browsers = map<nat, Browser>
  type Issuers = map<nat, Issuer>

  datatype Sys = Sys(db: Db, browsers: Browsers, issuers: Issuers, log: Log, clock: int)

  const INITIAL := Sys(EMPTY, map[], map[], Log({}, map[], map[], map[], {}, map[], 0), SECOND)

  datatype Action =
    | Register(name: string, uris: seq<string>, clientId: string, read: int, ok: bool)
    | Reconnect(state: string, read: int, ok: bool)
    | Authorize(thread: nat, authorize: AuthorizeQuery, ok: bool)
    | Park(thread: nat, state: string, read: int, ok: bool)
    | Callback(thread: nat, callback: CallbackQuery, read: int, ok: bool)
    | LookUp(thread: nat, identity: L.Identity, newId: string, read: int, ok: bool)
    | StoreTenant(thread: nat, ok: bool)
    | IssueCode(thread: nat, code: string, read: int, ok: bool)
    | Exchange(thread: nat, codeForm: CodeForm, read: int, ok: bool)
    | Refresh(thread: nat, refreshForm: RefreshForm, read: int, ok: bool)
    | Issue(thread: nat, secret: string, jti: string, minted: int, read: int, answered: int, ok: bool)
    | Renew(tenant: Tenant)
    | Remove(tenantId: string)
    | Revoke(tenantId: string)
    | SweepCodes(now: int)
    | SweepStates(now: int)
    | SweepTokens(now: int)
  {
    predicate Purges() { SweepCodes? || SweepStates? || SweepTokens? }
  }

  datatype Event = Event(at: int, action: Action)

  /** A new thread starts, or an existing one is at the step the action names. */
  predicate AtStep(s: Sys, a: Action) {
    match a
    case Authorize(t, _, _) => t !in s.browsers
    case Callback(t, _, _, _) => t !in s.browsers
    case Park(t, _, _, _) => t in s.browsers && s.browsers[t].Parking?
    case LookUp(t, _, _, _, _) => t in s.browsers && s.browsers[t].LoggingIn?
    case StoreTenant(t, _) => t in s.browsers && s.browsers[t].Storing?
    case IssueCode(t, _, _, _) => t in s.browsers && s.browsers[t].Coding?
    case Exchange(t, _, _, _) => t !in s.issuers
    case Refresh(t, _, _, _) => t !in s.issuers
    case Issue(t, _, _, _, _, _, _) => t in s.issuers
    case _ => true
  }

  /** Secrets are fresh, and so is the hash of a new refresh token; a tenant id is never empty. */
  predicate FreshSecrets(cfg: Config, s: Sys, a: Action) {
    match a
    case Register(_, _, c, _, _) => c !in s.log.drawn
    case Reconnect(x, _, _) => x !in s.log.drawn
    case Park(_, x, _, _) => x !in s.log.drawn
    case IssueCode(_, c, _, _) => c !in s.log.drawn
    case Issue(_, x, _, _, _, _, _) => x !in s.log.drawn && cfg.digest(x) !in s.log.grants
    case LookUp(_, _, newId, _, _) => newId != ""
    case Renew(tenant) => tenant.id != ""
    case _ => true
  }

  /** The clock never goes back; a reading precedes or follows its statement as the code has it. */
  predicate InTime(clock: int, e: Event) {
    && clock <= e.at
    && match e.action
       case Callback(_, _, read, _) => e.at <= read
       case Exchange(_, _, read, _) => e.at <= read
       case Park(_, _, read, _) => read <= e.at
       case IssueCode(_, _, read, _) => read <= e.at
       case Refresh(_, _, read, _) => read <= e.at
       case Issue(_, _, _, minted, read, answered, _) => SECOND <= minted <= read <= e.at <= answered
       case SweepCodes(now) => now <= e.at
       case SweepStates(now) => now <= e.at
       case SweepTokens(now) => now <= e.at
       case _ => true
  }

  predicate Enabled(cfg: Config, s: Sys, e: Event) {
    AtStep(s, e.action) && FreshSecrets(cfg, s, e.action) && InTime(s.clock, e)
  }

  /** The handler step an action stands for. */
  ghost function Result(cfg: Config, s: Sys, a: Action): Outcome
    requires AtStep(s, a)
  {
    match a
    case Register(name, uris, clientId, read, ok) => RegisterStep(cfg, s.db, name, uris, clientId, read, ok)
    case Reconnect(state, read, ok) => ReconnectStep(s.db, state, read, ok)
    case Authorize(_, q, ok) => Outcome(s.db, AuthorizeStep(cfg, s.db, q, ok))
    case Park(t, state, read, ok) => ParkStep(s.db, s.browsers[t].request, state, read, ok)
    case Callback(_, q, read, ok) => CallbackStep(s.db, q, read, ok)
    case LookUp(t, identity, newId, read, ok) =>
      Outcome(s.db, LookUpStep(cfg, s.db, s.browsers[t].state, s.browsers[t].request, identity, newId, read, ok))
    case StoreTenant(t, ok) => StoreStep(s.db, s.browsers[t].state, s.browsers[t].request, s.browsers[t].tenant, ok)
    case IssueCode(t, code, read, ok) =>
      IssueCodeStep(s.db, s.browsers[t].request, s.browsers[t].tenantId, code, read, ok)
    case Exchange(_, f, read, ok) => ExchangeStep(cfg, s.db, f, read, ok)
    case Refresh(_, f, read, ok) => RefreshStep(cfg, s.db, f, read, ok)
    case Issue(t, secret, jti, minted, read, answered, ok) =>
      IssueStep(cfg, s.db, s.issuers[t].tenantId, s.issuers[t].clientId, secret, jti, minted, read, answered, ok)
    case Renew(tenant) =>
      (match UpsertTenant(s.db.tenants, tenant.id, ToRow(tenant))
       case Some(tenants) => Outcome(s.db.(tenants := tenants), Reply(Silent))
       case None => Outcome(s.db, Reply(Silent)))
    case Remove(id) => Outcome(DeleteTenant(s.db, id), Reply(Silent))
    case Revoke(id) => Outcome(RevokeTenantRefreshTokens(s.db, id), Reply(Silent))
    case SweepCodes(now) => Outcome(PurgeCodes(s.db, now), Reply(Silent))
    case SweepStates(now) => Outcome(PurgeLoginStates(s.db, now), Reply(Silent))
    case SweepTokens(now) => Outcome(PurgeRefreshTokens(s.db, now), Reply(Silent))
  }

  /** The code an origin goes back to. */
  function Root(grants: map<string, Grant>, o: Origin): string {
    match o
    case FromCode(c, _) => c
    case FromToken(h) => if h in grants then grants[h].root else ""
  }

  function Generation(grants: map<string, Grant>, o: Origin): nat {
    match o
    case FromCode(_, _) => 0
    case FromToken(h) => if h in grants then grants[h].generation + 1 else 0
  }

  ghost function Record(cfg: Config, s: Sys, a: Action): Log
    requires AtStep(s, a)
  {
    RecordOf(cfg, s, a, Result(cfg, s, a))
  }

  /** The history after a step with this outcome. */
  function RecordOf(cfg: Config, s: Sys, a: Action, o: Outcome): Log
    requires AtStep(s, a)
  {
    var log := s.log;
    match a
    case Register(_, _, clientId, _, _) => log.(drawn := log.drawn + {clientId})
    case Reconnect(state, _, _) =>
      log.(drawn := log.drawn + {state},
           parked := if o.next == Reply(Link(state)) then log.parked[state := NO_CLIENT] else log.parked)
    case Park(t, state, _, _) =>
      log.(drawn := log.drawn + {state},
           parked := if o.next == Reply(ToLogin(state)) then log.parked[state := s.browsers[t].request] else log.parked)
    case StoreTenant(t, _) =>
      if o.next == Reply(Page(502)) then log
      else log.(logins := log.logins[s.browsers[t].state := s.browsers[t].tenant.id])
    case IssueCode(t, code, read, _) =>
      var row := CodeRowOf(s.browsers[t].request, s.browsers[t].tenantId, read);
      log.(drawn := log.drawn + {code},
           codes := if o.next.Reply? && o.next.response.ToClient?
                    then log.codes[code := CodeOrigin(s.browsers[t].state, row)] else log.codes)
    case Exchange(_, f, _, _) =>
      if f.code in s.db.codes && f.code !in o.db.codes then log.(redeemed := log.redeemed + {f.code}) else log
    case Issue(t, secret, _, _, _, _, _) =>
      var origin := s.issuers[t].origin;
      log.(drawn := log.drawn + {secret},
           grants := if o.next.Reply? && o.next.response.Tokens?
                     then log.grants[cfg.digest(secret) := Grant(origin, Root(log.grants, origin),
                         Generation(log.grants, origin),
                                                                 o.next.response.claims)]
                     else log.grants)
    case SweepCodes(now) => log.(purgedTo := if now > log.purgedTo then now else log.purgedTo)
    case SweepStates(now) => log.(purgedTo := if now > log.purgedTo then now else log.purgedTo)
    case SweepTokens(now) => log.(purgedTo := if now > log.purgedTo then now else log.purgedTo)
    case _ => log
  }

  function BrowsersAfter(browsers: Browsers, a: Action, next: Next): Browsers {
    if a.Authorize? || a.Callback? || a.Park? || a.LookUp? || a.StoreTenant? || a.IssueCode?
    then (if next.Go? then browsers[a.thread := next.browser] else browsers - {a.thread})
    else browsers
  }

  function IssuersAfter(issuers: Issuers, a: Action, next: Next): Issuers {
    if a.Exchange? || a.Refresh? || a.Issue?
    then (if next.Mint? then issuers[a.thread := next.issuer] else issuers - {a.thread})
    else issuers
  }

  ghost function Apply(cfg: Config, s: Sys, e: Event): Sys
    requires AtStep(s, e.action)
  {
    var o := Result(cfg, s, e.action);
    Sys(o.db, BrowsersAfter(s.browsers, e.action, o.next), IssuersAfter(s.issuers, e.action, o.next),
        Record(cfg, s, e.action), e.at)
  }

  /** What the outside world sees of an event: an answer, or nothing yet. */
  ghost function Answer(cfg: Config, s: Sys, a: Action): Option<Response>
    requires AtStep(s, a)
  {
    match Result(cfg, s, a).next
    case Reply(r) => Some(r)
    case Go(_) => None
    case Mint(_) => None
  }

  // ----- runs -----

  ghost predicate IsRun(cfg: Config, s: Sys, es: seq<Event>)
    decreases |es|
  {
    es == [] || (Enabled(cfg, s, es[0]) && IsRun(cfg, Apply(cfg, s, es[0]), es[1..]))
  }

  ghost function After(cfg: Config, s: Sys, es: seq<Event>): Sys
    requires IsRun(cfg, s, es)
    decreases |es|
  {
    if es == [] then s else After(cfg, Apply(cfg, s, es[0]), es[1..])
  }

  /** A run that ends with one more event is a run, an enabled event and its effect. */
  lemma {:induction false} SplitLast(cfg: Config, s: Sys, es: seq<Event>, e: Event)
    requires IsRun(cfg, s, es + [e])
    ensures IsRun(cfg, s, es) && Enabled(cfg, After(cfg, s, es), e)
    ensures After(cfg, s, es + [e]) == Apply(cfg, After(cfg, s, es), e)
    decreases |es|
  {
    if es == [] {
      assert (es + [e])[0] == e && (es + [e])[1..] == [];
    } else {
      assert (es + [e])[0] == es[0] && (es + [e])[1..] == es[1..] + [e];
      SplitLast(cfg, Apply(cfg, s, es[0]), es[1..], e);
    }
  }

  lemma {:induction false} Extend(cfg: Config, s: Sys, es: seq<Event>, e: Event)
    requires IsRun(cfg, s, es) && Enabled(cfg, After(cfg, s, es), e)
    ensures IsRun(cfg, s, es + [e]) && After(cfg, s, es + [e]) == Apply(cfg, After(cfg, s, es), e)
    decreases |es|
  {
    if es == [] {
      assert (es + [e])[0] == e && (es + [e])[1..] == [];
    } else {
      assert (es + [e])[0] == es[0] && (es + [e])[1..] == es[1..] + [e];
      Extend(cfg, Apply(cfg, s, es[0]), es[1..], e);
    }
  }
}
