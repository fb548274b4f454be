/** Purging expired rows is unobservable: a simulation between a run with purges and the
    same run without them. */
module Purging {
  import opened Base
  import opened Tables
  import opened Protocol
  import opened Machine
  import opened Invariants
  import opened Derivation

  // ----- tables that differ only by expired rows -----

  ghost predicate CodesPurged(p: map<string, CodeRow>, u: map<string, CodeRow>, horizon: int) {
    forall k :: (k in p ==> k in u && p[k] == u[k]) && (k in u && k !in p ==> u[k].expiresAt <= Unix(horizon))
  }

  ghost predicate StatesPurged(p: map<string, StateRow>, u: map<string, StateRow>, horizon: int) {
    forall k :: (k in p ==> k in u && p[k] == u[k]) && (k in u && k !in p ==> u[k].expiresAt <= Unix(horizon))
  }

  /** Of the refresh tokens exactly the dropped ones are missing, all of them expired by then. */
  ghost predicate TokensPurged(p: RefreshTokens, u: RefreshTokens, horizon: int, dropped: set<string>) {
    && (forall k :: k in p <==> k in u && k !in dropped)
    && (forall k :: k in p ==> p[k] == u[k])
    && forall k :: k in u && k in dropped ==> u[k].expiresAt <= Unix(horizon)
  }

  /** The rows of u that p lacks have all expired by the second of the horizon. */
  ghost predicate DbSimilar(p: Db, u: Db, horizon: int, dropped: set<string>) {
    && p.tenants == u.tenants && p.posts == u.posts && p.clients == u.clients
    && CodesPurged(p.codes, u.codes, horizon)
    && StatesPurged(p.loginStates, u.loginStates, horizon)
    && TokensPurged(p.refreshTokens, u.refreshTokens, horizon, dropped)
  }

  /** Two outcomes of one step that nobody can tell apart. */
  ghost predicate Alike(p: Outcome, u: Outcome, horizon: int, dropped: set<string>) {
    p.next == u.next && DbSimilar(p.db, u.db, horizon, dropped)
  }

  /** Burning a key leaves similar tables similar, even where only one of them still has it. */
  lemma BurnAlike(p: Db, u: Db, k: string, horizon: int, dropped: set<string>)
    requires DbSimilar(p, u, horizon, dropped)
    ensures DbSimilar(ConsumeAuthCode(p, k), ConsumeAuthCode(u, k), horizon, dropped)
    ensures DbSimilar(ConsumeLoginState(p, k), ConsumeLoginState(u, k), horizon, dropped)
    ensures k !in p.codes ==> DbSimilar(p, ConsumeAuthCode(u, k), horizon, dropped)
    ensures k !in p.loginStates ==> DbSimilar(p, ConsumeLoginState(u, k), horizon, dropped)
  {
  }

  /** A deadline purged by the horizon has passed at any later reading. */
  lemma PurgedMeansExpired(horizon: int, read: int)
    requires horizon <= read
    ensures forall deadline :: deadline <= Unix(horizon) ==> deadline * SECOND <= read
  {
  }

  lemma CallbackAlike(p: Db, u: Db, q: CallbackQuery, read: int, ok: bool, horizon: int, dropped: set<string>)
    requires DbSimilar(p, u, horizon, dropped) && horizon <= read
    ensures Alike(CallbackStep(p, q, read, ok), CallbackStep(u, q, read, ok), horizon, dropped)
  {
    BurnAlike(p, u, q.state, horizon, dropped);
    PurgedMeansExpired(horizon, read);
  }

  lemma ExchangeAlike(cfg: Config, p: Db, u: Db, f: CodeForm, read: int, ok: bool, horizon: int, dropped: set<string>)
    requires DbSimilar(p, u, horizon, dropped) && horizon <= read
    ensures Alike(ExchangeStep(cfg, p, f, read, ok), ExchangeStep(cfg, u, f, read, ok), horizon, dropped)
  {
    BurnAlike(p, u, f.code, horizon, dropped);
    PurgedMeansExpired(horizon, read);
  }

  /** The presented token was dropped by a purge, and by this reading had not expired. */
  predicate Late(cfg: Config, u: Db, dropped: set<string>, f: RefreshForm, read: int, ok: bool) {
    && ok && f.refreshToken != "" && f.clientId != ""
    && cfg.digest(f.refreshToken) in dropped && Rotatable(u, cfg.digest(f.refreshToken), read)
  }

  lemma RotationAlike(p: Db, u: Db, h: string, read: int, horizon: int, dropped: set<string>)
    requires DbSimilar(p, u, horizon, dropped) && !(h in dropped && Rotatable(u, h, read))
    ensures Rotatable(p, h, read) <==> Rotatable(u, h, read)
    ensures DbSimilar(RotateRefreshToken(p, h, read), RotateRefreshToken(u, h, read), horizon, dropped)
  {
  }

  lemma LateIsRefused(cfg: Config, p: Db, u: Db, f: RefreshForm, read: int, ok: bool, horizon: int,
                      dropped: set<string>)
    requires DbSimilar(p, u, horizon, dropped) && Late(cfg, u, dropped, f, read, ok)
    ensures RefreshStep(cfg, p, f, read, ok).next == Reply(INVALID_GRANT) != RefreshStep(cfg, u, f, read, ok).next
  {
  }

  lemma RefreshAlike(cfg: Config, p: Db, u: Db, f: RefreshForm, read: int, ok: bool, horizon: int, dropped: set<string>)
    requires DbSimilar(p, u, horizon, dropped)
    ensures RefreshStep(cfg, p, f, read, ok).next == RefreshStep(cfg, u, f, read, ok).next
            <==> !Late(cfg, u, dropped, f, read, ok)
    ensures !Late(cfg, u, dropped, f, read, ok) ==>
              Alike(RefreshStep(cfg, p, f, read, ok), RefreshStep(cfg, u, f, read, ok), horizon, dropped)
  {
    if Late(cfg, u, dropped, f, read, ok) {
      LateIsRefused(cfg, p, u, f, read, ok, horizon, dropped);
    } else if ok && f.refreshToken != "" && f.clientId != "" {
      RotationAlike(p, u, cfg.digest(f.refreshToken), read, horizon, dropped);
    }
  }

  lemma ParkAlike(p: Db, u: Db, r: OAuthRequest, state: string, read: int, ok: bool, horizon: int, dropped: set<string>)
    requires DbSimilar(p, u, horizon, dropped) && state !in u.loginStates
    ensures Alike(ParkStep(p, r, state, read, ok), ParkStep(u, r, state, read, ok), horizon, dropped)
    ensures Alike(ReconnectStep(p, state, read, ok), ReconnectStep(u, state, read, ok), horizon, dropped)
  {
  }

  lemma IssueCodeAlike(p: Db, u: Db, r: OAuthRequest, tenantId: string, code: string, read: int, ok: bool,
                       horizon: int, dropped: set<string>)
    requires DbSimilar(p, u, horizon, dropped) && code !in u.codes
    ensures Alike(IssueCodeStep(p, r, tenantId, code, read, ok), IssueCodeStep(u, r, tenantId, code, read, ok),
        horizon, dropped)
  {
  }

  lemma IssueAlike(cfg: Config, p: Db, u: Db, i: Issuer, a: Action, horizon: int, dropped: set<string>)
    requires DbSimilar(p, u, horizon, dropped) && a.Issue? && cfg.digest(a.secret) !in u.refreshTokens
    requires cfg.digest(a.secret) !in dropped
    ensures Alike(IssueStep(cfg, p, i.tenantId, i.clientId, a.secret, a.jti, a.minted, a.read, a.answered, a.ok),
                  IssueStep(cfg, u, i.tenantId, i.clientId, a.secret, a.jti, a.minted, a.read, a.answered, a.ok),
                      horizon, dropped)
  {
  }

  lemma RemoveAlike(p: Db, u: Db, id: string, horizon: int, dropped: set<string>)
    requires DbSimilar(p, u, horizon, dropped)
    ensures DbSimilar(DeleteTenant(p, id), DeleteTenant(u, id), horizon, dropped)
    ensures DbSimilar(RevokeTenantRefreshTokens(p, id), RevokeTenantRefreshTokens(u, id), horizon, dropped)
  {
  }

  // ----- systems that differ only by expired rows -----

  /** The purged run p and the unpurged run u: no handler and no logged fact differs, except which codes were
      consumed, as an expired code may be burnt in one run and missing in the other. */
  ghost predicate Similar(p: Sys, u: Sys, dropped: set<string>) {
    && DbSimilar(p.db, u.db, p.log.purgedTo, dropped)
    && p.browsers == u.browsers && p.issuers == u.issuers
    && LogsAlike(p.log, u.log)
    && u.clock <= p.clock && p.log.purgedTo <= p.clock
    && dropped <= u.log.grants.Keys
  }

  /** No row of the tables is about to be created a second time. */
  ghost predicate KeysKnown(u: Sys) {
    && u.db.codes.Keys <= u.log.drawn && u.db.loginStates.Keys <= u.log.drawn
    && u.db.refreshTokens.Keys <= u.log.grants.Keys
  }

  lemma InvKeysKnown(cfg: Config, u: Sys)
    requires Inv(cfg, u)
    ensures KeysKnown(u)
  {
  }

  /** The tokens dropped so far, after one more event: those a token purge finds expired join them. */
  function Dropping(u: Db, dropped: set<string>, a: Action): set<string> {
    if a.SweepTokens?
    then dropped + set h | h in u.refreshTokens && u.refreshTokens[h].expiresAt <= Unix(a.now)
    else dropped
  }

  lemma TokensDropped(p: Db, u: Db, horizon: int, later: int, dropped: set<string>, now: int)
    requires TokensPurged(p.refreshTokens, u.refreshTokens, horizon, dropped)
    requires Unix(horizon) <= Unix(later) && Unix(now) <= Unix(later)
    ensures TokensPurged(PurgeRefreshTokens(p, now).refreshTokens, u.refreshTokens, later,
        Dropping(u, dropped, SweepTokens(now)))
    ensures TokensPurged(p.refreshTokens, u.refreshTokens, later, dropped)
  {
  }

  lemma RowsDropped(p: Db, u: Db, horizon: int, later: int, now: int)
    requires CodesPurged(p.codes, u.codes, horizon) && StatesPurged(p.loginStates, u.loginStates, horizon)
    requires Unix(horizon) <= Unix(later) && Unix(now) <= Unix(later)
    ensures CodesPurged(p.codes, u.codes, later) && StatesPurged(p.loginStates, u.loginStates, later)
    ensures CodesPurged(PurgeCodes(p, now).codes, u.codes, later)
    ensures StatesPurged(PurgeLoginStates(p, now).loginStates, u.loginStates, later)
  {
  }

  lemma PurgedDb(p: Db, u: Db, horizon: int, later: int, dropped: set<string>, now: int)
    requires DbSimilar(p, u, horizon, dropped) && horizon <= later && now <= later
    ensures DbSimilar(PurgeCodes(p, now), u, later, dropped)
    ensures DbSimilar(PurgeLoginStates(p, now), u, later, dropped)
    ensures DbSimilar(PurgeRefreshTokens(p, now), u, later, Dropping(u, dropped, SweepTokens(now)))
  {
    UnixMonotone(horizon, later);
    UnixMonotone(now, later);
    TokensDropped(p, u, horizon, later, dropped, now);
    RowsDropped(p, u, horizon, later, now);
  }

  lemma PurgeSimilar(cfg: Config, p: Sys, u: Sys, dropped: set<string>, e: Event)
    requires Similar(p, u, dropped) && KeysKnown(u) && InTime(p.clock, e) && e.action.Purges()
    ensures Enabled(cfg, p, e) && Similar(Apply(cfg, p, e), u, Dropping(u.db, dropped, e.action))
    ensures Apply(cfg, p, e).clock == e.at
  {
    PurgedDb(p.db, u.db, p.log.purgedTo, Apply(cfg, p, e).log.purgedTo, dropped, e.action.now);
  }

  /** Whether this event is a rotation that comes too late for a token it would still have found alive. */
  predicate TooLate(cfg: Config, u: Db, dropped: set<string>, a: Action) {
    a.Refresh? && Late(cfg, u, dropped, a.refreshForm, a.read, a.ok)
  }

  lemma ResultAlike(cfg: Config, p: Sys, u: Sys, dropped: set<string>, e: Event)
    requires Similar(p, u, dropped) && KeysKnown(u) && !e.action.Purges()
    requires AtStep(u, e.action) && FreshSecrets(cfg, u, e.action) && InTime(p.clock, e)
    requires !TooLate(cfg, u.db, dropped, e.action)
    ensures AtStep(p, e.action) && Alike(Result(cfg, p, e.action), Result(cfg, u, e.action), p.log.purgedTo, dropped)
  {
    var h := p.log.purgedTo;
    match e.action {
      case Callback(_, q, read, ok) => CallbackAlike(p.db, u.db, q, read, ok, h, dropped);
      case Exchange(_, f, read, ok) => ExchangeAlike(cfg, p.db, u.db, f, read, ok, h, dropped);
      case Refresh(_, f, read, ok) => RefreshAlike(cfg, p.db, u.db, f, read, ok, h, dropped);
      case Park(t, state, read, ok) => ParkAlike(p.db, u.db, u.browsers[t].request, state, read, ok, h, dropped);
      case Reconnect(state, read, ok) => ParkAlike(p.db, u.db, NO_CLIENT, state, read, ok, h, dropped);
      case IssueCode(t, code, read, ok) =>
        IssueCodeAlike(p.db, u.db, u.browsers[t].request, u.browsers[t].tenantId, code, read, ok, h, dropped);
      case Issue(t, _, _, _, _, _, _) => IssueAlike(cfg, p.db, u.db, u.issuers[t], e.action, h, dropped);
      case Remove(id) => RemoveAlike(p.db, u.db, id, h, dropped);
      case Revoke(id) => RemoveAlike(p.db, u.db, id, h, dropped);
      case _ =>
    }
  }

  predicate LogsAlike(p: Log, u: Log) {
    p.(redeemed := u.redeemed, purgedTo := u.purgedTo) == u
  }

  lemma TokenRecordAlike(cfg: Config, p: Sys, u: Sys, a: Action, o: Outcome, w: Outcome)
    requires LogsAlike(p.log, u.log) && p.issuers == u.issuers
    requires AtStep(p, a) && AtStep(u, a) && (a.Exchange? || a.Issue?) && o.next == w.next
    ensures LogsAlike(RecordOf(cfg, p, a, o), RecordOf(cfg, u, a, w))
        && RecordOf(cfg, p, a, o).purgedTo == p.log.purgedTo
  {
  }

  lemma RecordAlike(cfg: Config, p: Sys, u: Sys, a: Action, o: Outcome, w: Outcome)
    requires LogsAlike(p.log, u.log) && p.browsers == u.browsers && p.issuers == u.issuers
    requires AtStep(p, a) && AtStep(u, a) && !a.Purges() && o.next == w.next
    ensures LogsAlike(RecordOf(cfg, p, a, o), RecordOf(cfg, u, a, w))
        && RecordOf(cfg, p, a, o).purgedTo == p.log.purgedTo
  {
    if a.Exchange? || a.Issue? {
      TokenRecordAlike(cfg, p, u, a, o, w);
    }
  }

  lemma GrantsStay(cfg: Config, u: Sys, a: Action, o: Outcome)
    requires AtStep(u, a)
    ensures u.log.grants.Keys <= RecordOf(cfg, u, a, o).grants.Keys
  {
  }

  lemma EventSimilar(cfg: Config, p: Sys, u: Sys, dropped: set<string>, e: Event)
    requires Similar(p, u, dropped) && KeysKnown(u) && !e.action.Purges()
    requires AtStep(u, e.action) && FreshSecrets(cfg, u, e.action) && InTime(p.clock, e)
    requires !TooLate(cfg, u.db, dropped, e.action)
    ensures Enabled(cfg, p, e) && Enabled(cfg, u, e)
    ensures Answer(cfg, p, e.action) == Answer(cfg, u, e.action) && Similar(Apply(cfg, p, e), Apply(cfg, u, e), dropped)
    ensures Apply(cfg, p, e).clock == e.at
  {
    ResultAlike(cfg, p, u, dropped, e);
    GrantsStay(cfg, u, e.action, Result(cfg, u, e.action));
    RecordAlike(cfg, p, u, e.action, Result(cfg, p, e.action), Result(cfg, u, e.action));
  }

  lemma LateDiffers(cfg: Config, p: Sys, u: Sys, dropped: set<string>, e: Event)
    requires Similar(p, u, dropped) && AtStep(u, e.action) && TooLate(cfg, u.db, dropped, e.action)
    ensures AtStep(p, e.action) && Answer(cfg, p, e.action) != Answer(cfg, u, e.action)
  {
    RefreshAlike(cfg, p.db, u.db, e.action.refreshForm, e.action.read, e.action.ok, p.log.purgedTo, dropped);
    RefreshOutcome(cfg, u.db, e.action.refreshForm, e.action.read, e.action.ok);
  }

  // ----- runs -----

  function WithoutPurges(es: seq<Event>): seq<Event> {
    if es == [] then [] else (if es[0].action.Purges() then [] else [es[0]]) + WithoutPurges(es[1..])
  }

  /** The answers of a run, event by event; purges answer nobody. */
  ghost function Answers(cfg: Config, s: Sys, es: seq<Event>): seq<Option<Response>>
    requires IsRun(cfg, s, es)
    decreases |es|
  {
    if es == [] then []
    else
      (if es[0].action.Purges() then [] else [Answer(cfg, s, es[0].action)])
      + Answers(cfg, Apply(cfg, s, es[0]), es[1..])
  }

  /** Events in the order of their statements, their clock readings where the code has them. */
  predicate Chronological(clock: int, es: seq<Event>)
    decreases es
  {
    es == [] || (InTime(clock, es[0]) && Chronological(es[0].at, es[1..]))
  }

  /** Read off the run without purges: no rotation presents a token that a purge before it found expired, though by the
      rotation's own, earlier clock reading it was not. */
  ghost predicate NoneTooLate(cfg: Config, u: Sys, dropped: set<string>, es: seq<Event>)
    decreases |es|
  {
    es == [] ||
    (if es[0].action.Purges() then NoneTooLate(cfg, u, Dropping(u.db, dropped, es[0].action), es[1..])
     else !TooLate(cfg, u.db, dropped, es[0].action)
          && (AtStep(u, es[0].action) ==> NoneTooLate(cfg, Apply(cfg, u, es[0]), dropped, es[1..])))
  }

  ghost predicate SameAnswers(cfg: Config, p: Sys, u: Sys, es: seq<Event>)
    requires IsRun(cfg, u, WithoutPurges(es))
  {
    IsRun(cfg, p, es) && Answers(cfg, p, es) == Answers(cfg, u, WithoutPurges(es))
  }

  lemma SkipPurge(cfg: Config, p: Sys, u: Sys, es: seq<Event>)
    requires es != [] && es[0].action.Purges() && Enabled(cfg, p, es[0]) && IsRun(cfg, u, WithoutPurges(es))
    ensures WithoutPurges(es) == WithoutPurges(es[1..])
    ensures SameAnswers(cfg, p, u, es) <==> SameAnswers(cfg, Apply(cfg, p, es[0]), u, es[1..])
  {
    assert [] + WithoutPurges(es[1..]) == WithoutPurges(es[1..]);
  }

  lemma BothStep(cfg: Config, p: Sys, u: Sys, es: seq<Event>)
    requires es != [] && !es[0].action.Purges() && AtStep(p, es[0].action) && IsRun(cfg, u, WithoutPurges(es))
    ensures Enabled(cfg, u, es[0]) && IsRun(cfg, Apply(cfg, u, es[0]), WithoutPurges(es[1..]))
    ensures SameAnswers(cfg, p, u, es) <==>
            && Enabled(cfg, p, es[0]) && Answer(cfg, p, es[0].action) == Answer(cfg, u, es[0].action)
            && SameAnswers(cfg, Apply(cfg, p, es[0]), Apply(cfg, u, es[0]), es[1..])
  {
    var rest := WithoutPurges(es[1..]);
    assert WithoutPurges(es)[0] == es[0] && WithoutPurges(es)[1..] == rest;
    if IsRun(cfg, p, es) {
      var (a, b) := (Answers(cfg, p, es), Answers(cfg, u, WithoutPurges(es)));
      assert a[0] == Answer(cfg, p, es[0].action) && a[1..] == Answers(cfg, Apply(cfg, p, es[0]), es[1..]);
      assert b[0] == Answer(cfg, u, es[0].action) && b[1..] == Answers(cfg, Apply(cfg, u, es[0]), rest);
      assert a == [a[0]] + a[1..] && b == [b[0]] + b[1..];
    }
  }

  lemma {:induction false} RunsSimilar(cfg: Config, p: Sys, u: Sys, dropped: set<string>, es: seq<Event>)
    requires Similar(p, u, dropped) && Inv(cfg, u)
    requires Chronological(p.clock, es) && IsRun(cfg, u, WithoutPurges(es))
    ensures SameAnswers(cfg, p, u, es) <==> NoneTooLate(cfg, u, dropped, es)
    decreases |es|
  {
    if es != [] {
      var e := es[0];
      InvKeysKnown(cfg, u);
      if e.action.Purges() {
        PurgeSimilar(cfg, p, u, dropped, e);
        SkipPurge(cfg, p, u, es);
        RunsSimilar(cfg, Apply(cfg, p, e), u, Dropping(u.db, dropped, e.action), es[1..]);
      } else {
        BothStep(cfg, p, u, es);
        if TooLate(cfg, u.db, dropped, e.action) {
          LateDiffers(cfg, p, u, dropped, e);
        } else {
          EventSimilar(cfg, p, u, dropped, e);
          EventKeepsInv(cfg, u, e);
          RunsSimilar(cfg, Apply(cfg, p, e), Apply(cfg, u, e), dropped, es[1..]);
        }
      }
    }
  }

  /** Insert purges anywhere into a run: it is still a run in which every request gets the same answer if and only if no
      rotation comes too late. */
  lemma PurgingIsUnobservable(cfg: Config, es: seq<Event>)
    requires IsRun(cfg, INITIAL, WithoutPurges(es)) && Chronological(INITIAL.clock, es)
    ensures IsRun(cfg, INITIAL, es) && Answers(cfg, INITIAL, es) == Answers(cfg, INITIAL, WithoutPurges(es))
            <==> NoneTooLate(cfg, INITIAL, {}, es)
  {
    InitialInv(cfg);
    RunsSimilar(cfg, INITIAL, INITIAL, {}, es);
  }

  /** Rotations that read the clock in the second of their statement. */
  predicate PromptRotations(es: seq<Event>) {
    forall i :: 0 <= i < |es| && es[i].action.Refresh? ==> Unix(es[i].action.read) == Unix(es[i].at)
  }

  lemma {:induction false} PromptIsNeverLate(cfg: Config, p: Sys, u: Sys, dropped: set<string>, es: seq<Event>)
    requires Similar(p, u, dropped) && Inv(cfg, u) && PromptRotations(es)
    requires Chronological(p.clock, es) && IsRun(cfg, u, WithoutPurges(es))
    ensures NoneTooLate(cfg, u, dropped, es)
    decreases |es|
  {
    if es != [] {
      var e := es[0];
      InvKeysKnown(cfg, u);
      if e.action.Purges() {
        PurgeSimilar(cfg, p, u, dropped, e);
        SkipPurge(cfg, p, u, es);
        PromptIsNeverLate(cfg, Apply(cfg, p, e), u, Dropping(u.db, dropped, e.action), es[1..]);
      } else {
        UnixMonotone(p.log.purgedTo, e.at);
        BothStep(cfg, p, u, es);
        EventSimilar(cfg, p, u, dropped, e);
        EventKeepsInv(cfg, u, e);
        PromptIsNeverLate(cfg, Apply(cfg, p, e), Apply(cfg, u, e), dropped, es[1..]);
      }
    }
  }

  /** So with reading and statement in one second, purging is unobservable. */
  lemma PromptPurgingIsUnobservable(cfg: Config, es: seq<Event>)
    requires IsRun(cfg, INITIAL, WithoutPurges(es)) && Chronological(INITIAL.clock, es) && PromptRotations(es)
    ensures IsRun(cfg, INITIAL, es) && Answers(cfg, INITIAL, es) == Answers(cfg, INITIAL, WithoutPurges(es))
  {
    InitialInv(cfg);
    PromptIsNeverLate(cfg, INITIAL, INITIAL, {}, es);
    PurgingIsUnobservable(cfg, es);
  }

  /** The condition can fail: a token purge in a later second than the rotation's reading turns the answer for a
      live token into a refusal if and only if its deadline lies between the two seconds. */
  lemma LatePurgeIsObservable(cfg: Config, s: Sys, thread: nat, f: RefreshForm, read: int, ok: bool, purge: Event)
    requires purge.action.SweepTokens? && thread !in s.issuers
    ensures var (h, rotation) := (cfg.digest(f.refreshToken), Refresh(thread, f, read, ok));
            Answer(cfg, s, rotation) != Answer(cfg, Apply(cfg, s, purge), rotation)
            <==> ok && f.refreshToken != "" && f.clientId != ""
                 && h in s.db.refreshTokens && !s.db.refreshTokens[h].revoked
                 && Unix(read) < s.db.refreshTokens[h].expiresAt <= Unix(purge.action.now)
  {
  }
}
