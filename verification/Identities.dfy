/** Tenants over whole runs of all handlers: one row per member, rows that keep who they are, and ids that are never
    empty. */
module Identities {
  import opened Base
  import opened Tables
  import opened Protocol
  import opened Machine
  import L = Logins

  lemma UpsertedOrNot(tenants: Tenants, t: Tenant)
    requires OnePerMember(tenants)
    ensures UpsertTenant(tenants, t.id, ToRow(t)).Some? ==>
              && OnePerMember(UpsertTenant(tenants, t.id, ToRow(t)).value)
              && L.SameIdentities(tenants, UpsertTenant(tenants, t.id, ToRow(t)).value)
  {
    if UpsertTenant(tenants, t.id, ToRow(t)).Some? {
      L.UpsertKeepsIdentities(tenants, t.id, ToRow(t));
    }
  }

  /** Only logins and renewals touch tenants, and a deletion. */
  lemma TenantsAfter(cfg: Config, s: Sys, a: Action)
    requires AtStep(s, a)
    ensures var tenants := Result(cfg, s, a).db.tenants;
            match a
            case StoreTenant(t, ok) =>
              tenants == (match if ok then UpsertTenant(s.db.tenants, s.browsers[t].tenant.id,
                  ToRow(s.browsers[t].tenant)) else None
                          case Some(after) => after
                          case None => s.db.tenants)
            case Renew(t) =>
              tenants == (match UpsertTenant(s.db.tenants, t.id, ToRow(t)) case Some(after) => after
                  case None => s.db.tenants)
            case Remove(id) => tenants == s.db.tenants - {id}
            case _ => tenants == s.db.tenants
  {
    match a {
      case Callback(_, q, read, ok) => CallbackOutcome(s.db, q, read, ok);
      case Exchange(_, f, read, ok) => ExchangeOutcome(cfg, s.db, f, read, ok);
      case Refresh(_, f, read, ok) => RefreshOutcome(cfg, s.db, f, read, ok);
      case _ =>
    }
  }

  lemma EventKeepsIdentities(cfg: Config, s: Sys, e: Event)
    requires OnePerMember(s.db.tenants) && AtStep(s, e.action)
    ensures OnePerMember(Apply(cfg, s, e).db.tenants)
    ensures !e.action.Remove? ==> L.SameIdentities(s.db.tenants, Apply(cfg, s, e).db.tenants)
  {
    TenantsAfter(cfg, s, e.action);
    match e.action {
      case StoreTenant(t, _) => UpsertedOrNot(s.db.tenants, s.browsers[t].tenant);
      case Renew(t) => UpsertedOrNot(s.db.tenants, t);
      case _ =>
    }
  }

  predicate NoRemoval(es: seq<Event>) {
    forall i :: 0 <= i < |es| ==> !es[i].action.Remove?
  }

  /** In every run, whatever the interleaving, a member has one row; and short of a deletion no row goes, changes
      its id, its member or its creation time. */
  lemma {:induction false} RunKeepsIdentities(cfg: Config, s: Sys, es: seq<Event>)
    requires OnePerMember(s.db.tenants) && IsRun(cfg, s, es)
    ensures OnePerMember(After(cfg, s, es).db.tenants)
    ensures NoRemoval(es) ==> L.SameIdentities(s.db.tenants, After(cfg, s, es).db.tenants)
    decreases |es|
  {
    if es != [] {
      EventKeepsIdentities(cfg, s, es[0]);
      RunKeepsIdentities(cfg, Apply(cfg, s, es[0]), es[1..]);
    }
  }

  // ----- no empty id -----

  predicate NamedBrowser(b: Browser) {
    (b.Storing? ==> b.tenant.id != "") && (b.Coding? ==> b.tenantId != "")
  }

  ghost predicate Named(tenants: Tenants, browsers: Browsers, logins: map<string, string>) {
    && NamedTenants(tenants)
    && (forall t :: t in browsers ==> NamedBrowser(browsers[t]))
    && forall x :: x in logins ==> logins[x] != ""
  }

  predicate NamedTenants(tenants: Tenants) { "" !in tenants }

  lemma TenantsStayNamed(cfg: Config, s: Sys, e: Event)
    requires Named(s.db.tenants, s.browsers, s.log.logins) && Enabled(cfg, s, e)
    ensures NamedTenants(Apply(cfg, s, e).db.tenants)
  {
    TenantsAfter(cfg, s, e.action);
  }

  lemma NextIsNamed(cfg: Config, s: Sys, e: Event)
    requires Named(s.db.tenants, s.browsers, s.log.logins) && Enabled(cfg, s, e)
    ensures var next := Result(cfg, s, e.action).next; next.Go? ==> NamedBrowser(next.browser)
  {
    match e.action {
      case Callback(_, q, read, ok) => CallbackOutcome(s.db, q, read, ok);
      case Exchange(_, f, read, ok) => ExchangeOutcome(cfg, s.db, f, read, ok);
      case Refresh(_, f, read, ok) => RefreshOutcome(cfg, s.db, f, read, ok);
      case _ =>
    }
  }

  lemma LoginsStayNamed(cfg: Config, s: Sys, e: Event)
    requires Named(s.db.tenants, s.browsers, s.log.logins) && Enabled(cfg, s, e)
    ensures forall x :: x in Apply(cfg, s, e).log.logins ==> Apply(cfg, s, e).log.logins[x] != ""
  {
  }

  lemma EventKeepsNames(cfg: Config, s: Sys, e: Event)
    requires Named(s.db.tenants, s.browsers, s.log.logins) && Enabled(cfg, s, e)
    ensures var t := Apply(cfg, s, e); Named(t.db.tenants, t.browsers, t.log.logins)
  {
    TenantsStayNamed(cfg, s, e);
    NextIsNamed(cfg, s, e);
    LoginsStayNamed(cfg, s, e);
  }

  lemma {:induction false} RunKeepsNames(cfg: Config, s: Sys, es: seq<Event>)
    requires Named(s.db.tenants, s.browsers, s.log.logins) && IsRun(cfg, s, es)
    ensures var t := After(cfg, s, es); Named(t.db.tenants, t.browsers, t.log.logins)
    decreases |es|
  {
    if es != [] {
      EventKeepsNames(cfg, s, es[0]);
      RunKeepsNames(cfg, Apply(cfg, s, es[0]), es[1..]);
    }
  }
}
