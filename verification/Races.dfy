/** Where interleaving does change what a login hands out. */
module Races {
  import opened Base
  import opened Tables
  import opened Protocol
  import opened Machine
  import Derivation
  import Identities
  import L = Logins

  /** Nothing about the member happened between a login's lookup and its upsert: then the id it hands out is the
      one stored. */
  lemma UndisturbedLoginIsExact(atLookUp: Tenants, atStore: Tenants, proposed: Tenant)
    requires OnePerMember(atLookUp) && OnePerMember(atStore)
    requires IdOf(atLookUp, proposed.memberId) == IdOf(atStore, proposed.memberId)
    requires var t := L.Adopt(atLookUp, proposed); UpsertTenant(atStore, t.id, ToRow(t)).Some?
    ensures var t := L.Adopt(atLookUp, proposed);
            IdOf(UpsertTenant(atStore, t.id, ToRow(t)).value, proposed.memberId) == Some(t.id)
  {
    L.HandedOutIdIsStored(atStore, L.Adopt(atLookUp, proposed));
  }

  /** Two callbacks that identified the same new member, both looking it up before either stores it; then the second one
      issues its code. */
  function BothLookUpFirst(at: int, t1: nat, t2: nat, token: L.Token, member: L.Member, id1: string, id2: string,
                           code: string)
    : seq<Event>
  {
    [Event(at, LookUp(t1, L.Identified(token, member), id1, at, true)),
     Event(at, LookUp(t2, L.Identified(token, member), id2, at, true)),
     Event(at, StoreTenant(t1, true)),
     Event(at, StoreTenant(t2, true)),
     Event(at, IssueCode(t2, code, at, true))]
  }

  lemma OneByOne<T>(s: seq<T>, a: T, b: T, c: T, d: T, e: T)
    ensures s + [a] + [b] + [c] + [d] + [e] == s + [a, b, c, d, e]
  {
  }

  /** A lookup that finds nothing: the thread goes on with the id it drew. */
  lemma LookUpFindsNothing(cfg: Config, s: Sys, at: int, t: nat, token: L.Token, member: L.Member, id: string)
    requires t in s.browsers && s.browsers[t].LoggingIn? && s.clock <= at && cfg.allow(member.id)
    requires IdOf(s.db.tenants, member.id) == None && id != ""
    ensures var e := Event(at, LookUp(t, L.Identified(token, member), id, at, true));
            var b := Storing(s.browsers[t].state, s.browsers[t].request, L.Proposed(token, member, id, at));
            Enabled(cfg, s, e) && Apply(cfg, s, e) == s.(browsers := s.browsers[t := b], clock := at)
  {
  }

  lemma StoreGoesOn(cfg: Config, s: Sys, at: int, t: nat)
    requires t in s.browsers && s.browsers[t].Storing? && s.browsers[t].request.clientId != "" && s.clock <= at
    requires UpsertTenant(s.db.tenants, s.browsers[t].tenant.id, ToRow(s.browsers[t].tenant)).Some?
    ensures var (e, b) := (Event(at, StoreTenant(t, true)), s.browsers[t]);
            && Enabled(cfg, s, e)
            && Apply(cfg, s, e) ==
               s.(db := s.db.(tenants := UpsertTenant(s.db.tenants, b.tenant.id, ToRow(b.tenant)).value),
                  browsers := s.browsers[t := Coding(b.state, b.request, b.tenant.id)],
                  log := s.log.(logins := s.log.logins[b.state := b.tenant.id]), clock := at)
  {
  }

  lemma CodeGoesOut(cfg: Config, s: Sys, at: int, t: nat, code: string)
    requires t in s.browsers && s.browsers[t].Coding? && s.clock <= at && code !in s.log.drawn && code !in s.db.codes
    ensures var (e, b) := (Event(at, IssueCode(t, code, at, true)), s.browsers[t]);
            && Enabled(cfg, s, e)
            && Answer(cfg, s, e.action) == Some(ToClient(b.request.redirectUri, b.request.clientState, code))
            && Apply(cfg, s, e).db == s.db.(codes := s.db.codes[code := CodeRowOf(b.request, b.tenantId, at)])
  {
  }

  /** Two callbacks for waiting clients have identified a member nobody knows yet. */
  ghost predicate FirstLogins(cfg: Config, s: Sys, at: int, t1: nat, t2: nat, member: L.Member, id1: string,
                              id2: string) {
    && t1 != t2 && t1 in s.browsers && t2 in s.browsers
    && s.browsers[t1].LoggingIn? && s.browsers[t2].LoggingIn?
    && s.browsers[t1].request.clientId != "" && s.browsers[t2].request.clientId != ""
    && s.clock <= at && cfg.allow(member.id) && IdOf(s.db.tenants, member.id) == None
    && id1 !in s.db.tenants && id2 !in s.db.tenants && id1 != id2 && id1 != "" && id2 != ""
  }

  function BothFoundNothing(s: Sys, at: int, t1: nat, t2: nat, token: L.Token, member: L.Member, id1: string,
                            id2: string): Sys
    requires t1 in s.browsers && t2 in s.browsers && s.browsers[t1].LoggingIn? && s.browsers[t2].LoggingIn?
  {
    var (b1, b2) := (s.browsers[t1], s.browsers[t2]);
    s.(browsers := s.browsers[t1 := Storing(b1.state, b1.request, L.Proposed(token, member, id1, at))]
                             [t2 := Storing(b2.state, b2.request, L.Proposed(token, member, id2, at))],
       clock := at)
  }

  lemma LookUps(cfg: Config, es: seq<Event>, at: int, t1: nat, t2: nat, token: L.Token, member: L.Member, id1: string,
                id2: string)
    requires IsRun(cfg, INITIAL, es)
    requires FirstLogins(cfg, After(cfg, INITIAL, es), at, t1, t2, member, id1, id2)
    ensures var run := es + [Event(at, LookUp(t1, L.Identified(token, member), id1, at, true))]
                          + [Event(at, LookUp(t2, L.Identified(token, member), id2, at, true))];
            && IsRun(cfg, INITIAL, run)
            && After(cfg, INITIAL, run) ==
               BothFoundNothing(After(cfg, INITIAL, es), at, t1, t2, token, member, id1, id2)
  {
    var s := After(cfg, INITIAL, es);
    var (e1, e2) := (Event(at, LookUp(t1, L.Identified(token, member), id1, at, true)),
                     Event(at, LookUp(t2, L.Identified(token, member), id2, at, true)));
    LookUpFindsNothing(cfg, s, at, t1, token, member, id1);
    Extend(cfg, INITIAL, es, e1);
    LookUpFindsNothing(cfg, Apply(cfg, s, e1), at, t2, token, member, id2);
    Extend(cfg, INITIAL, es + [e1], e2);
  }

  lemma Stores(cfg: Config, s: Sys, at: int, t1: nat, t2: nat, token: L.Token, member: L.Member, id1: string,
               id2: string)
    requires OnePerMember(s.db.tenants) && FirstLogins(cfg, s, at, t1, t2, member, id1, id2)
    ensures var s2 := BothFoundNothing(s, at, t1, t2, token, member, id1, id2);
            var (e3, e4) := (Event(at, StoreTenant(t1, true)), Event(at, StoreTenant(t2, true)));
            && Enabled(cfg, s2, e3) && Enabled(cfg, Apply(cfg, s2, e3), e4)
            && var z := Apply(cfg, Apply(cfg, s2, e3), e4);
               && t2 in z.browsers && z.browsers[t2] == Coding(s.browsers[t2].state, s.browsers[t2].request, id2)
               && z.log.drawn == s.log.drawn && z.db.codes == s.db.codes && z.clock == at
               && id2 !in z.db.tenants && IdOf(z.db.tenants, member.id) == Some(id1)
  {
    var s2 := BothFoundNothing(s, at, t1, t2, token, member, id1, id2);
    var p1, p2 := L.Proposed(token, member, id1, at), L.Proposed(token, member, id2, at);
    var tenants := s.db.tenants[id1 := ToRow(p1)];
    assert UpsertTenant(s.db.tenants, id1, ToRow(p1)) == Some(tenants);
    StoreGoesOn(cfg, s2, at, t1);
    IdOfIs(tenants, id1);
    L.UpsertKeepsIdentities(s.db.tenants, id1, ToRow(p1));
    StoreGoesOn(cfg, Apply(cfg, s2, Event(at, StoreTenant(t1, true))), at, t2);
    L.UpsertedId(tenants, id2, ToRow(p2));
  }

  lemma SecondLoginGoesOn(cfg: Config, es: seq<Event>, at: int, t1: nat, t2: nat, token: L.Token, member: L.Member,
                          id1: string, id2: string)
    requires IsRun(cfg, INITIAL, es)
    requires FirstLogins(cfg, After(cfg, INITIAL, es), at, t1, t2, member, id1, id2)
    ensures var run := es + [Event(at, LookUp(t1, L.Identified(token, member), id1, at, true))]
                          + [Event(at, LookUp(t2, L.Identified(token, member), id2, at, true))]
                          + [Event(at, StoreTenant(t1, true))] + [Event(at, StoreTenant(t2, true))];
            && IsRun(cfg, INITIAL, run)
            && var (s, z) := (After(cfg, INITIAL, es), After(cfg, INITIAL, run));
               && t2 in z.browsers && z.browsers[t2] == Coding(s.browsers[t2].state, s.browsers[t2].request, id2)
               && z.log.drawn == s.log.drawn && z.db.codes == s.db.codes && z.clock == at
               && id2 !in z.db.tenants && IdOf(z.db.tenants, member.id) == Some(id1)
  {
    Identities.RunKeepsIdentities(cfg, INITIAL, es);
    LookUps(cfg, es, at, t1, t2, token, member, id1, id2);
    Stores(cfg, After(cfg, INITIAL, es), at, t1, t2, token, member, id1, id2);
    ExtendTwice(cfg, es + [Event(at, LookUp(t1, L.Identified(token, member), id1, at, true))]
                        + [Event(at, LookUp(t2, L.Identified(token, member), id2, at, true))],
                Event(at, StoreTenant(t1, true)), Event(at, StoreTenant(t2, true)));
  }

  lemma ExtendTwice(cfg: Config, es: seq<Event>, e: Event, f: Event)
    requires IsRun(cfg, INITIAL, es) && Enabled(cfg, After(cfg, INITIAL, es), e)
    requires Enabled(cfg, Apply(cfg, After(cfg, INITIAL, es), e), f)
    ensures IsRun(cfg, INITIAL, es + [e] + [f])
    ensures After(cfg, INITIAL, es + [e] + [f]) == Apply(cfg, Apply(cfg, After(cfg, INITIAL, es), e), f)
  {
    Extend(cfg, INITIAL, es, e);
    Extend(cfg, INITIAL, es + [e], f);
  }

  /** From any reachable state of that kind, the run goes on so that the second callback sends its client a code for
      a tenant id under which nothing is stored, while the member has the other one. */
  lemma InterleavedFirstLogins(cfg: Config, es: seq<Event>, at: int, t1: nat, t2: nat, token: L.Token, member: L.Member,
                               id1: string, id2: string, code: string)
    requires IsRun(cfg, INITIAL, es)
    requires FirstLogins(cfg, After(cfg, INITIAL, es), at, t1, t2, member, id1, id2)
    requires code !in After(cfg, INITIAL, es).log.drawn
    ensures var run := es + BothLookUpFirst(at, t1, t2, token, member, id1, id2, code);
            && IsRun(cfg, INITIAL, run)
            && var after := After(cfg, INITIAL, run);
               && code in after.db.codes && after.db.codes[code].tenantId == id2
               && id2 !in after.db.tenants && IdOf(after.db.tenants, member.id) == Some(id1)
  {
    Derivation.InitialInv(cfg);
    Derivation.RunKeepsInv(cfg, INITIAL, es);
    SecondLoginGoesOn(cfg, es, at, t1, t2, token, member, id1, id2);
    var b := BothLookUpFirst(at, t1, t2, token, member, id1, id2, code);
    var run := es + [b[0]] + [b[1]] + [b[2]] + [b[3]];
    CodeGoesOut(cfg, After(cfg, INITIAL, run), at, t2, code);
    Extend(cfg, INITIAL, run, b[4]);
    OneByOne(es, b[0], b[1], b[2], b[3], b[4]);
  }
}
