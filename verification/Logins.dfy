/** Tenants and their LinkedIn tokens: what logins and the renewal sweep do to the tenants table. */
module Logins {
  import opened Base
  import opened Tables
  import Scopes
  import S = Store

  const DEFAULT_WINDOW := 14 * DAY
  const RECHECK_INTERVAL := 7 * DAY

  /** LinkedIn's token answer; expiresIn is a duration in nanoseconds. */
  datatype Token = Token(accessToken: string, expiresIn: int, refreshToken: string, scopes: seq<string>)

  datatype Member = Member(id: string, name: string)

  /** What the code exchange and the identity request yield together. */
  datatype Identity = Unavailable | Identified(token: Token, member: Member)

  /** None is the zero time. */
  function ExpiryFrom(now: int, lifetime: int): Option<int> {
    if lifetime <= 0 then None else Some(now + lifetime)
  }

  /** The tenant of a first login. */
  function Proposed(token: Token, member: Member, newId: string, now: int): Tenant {
    Tenant(newId, member.id, member.name, "", token.accessToken, token.refreshToken,
           ExpiryFrom(now, token.expiresIn), token.scopes, now, now)
  }

  /** The tenant to store: the proposed one, under the key and creation time of the member's row if there is one. */
  ghost function Adopt(tenants: Tenants, t: Tenant): Tenant {
    match TenantByMember(tenants, t.memberId)
    case Some(existing) => t.(id := existing.id, createdAt := existing.createdAt)
    case None => t
  }

  /** The member's row decides under which id and with which creation time; nothing else of the proposal changes. */
  lemma AdoptsRow(tenants: Tenants, t: Tenant)
    requires OnePerMember(tenants)
    ensures forall id :: id in tenants && tenants[id].memberId == t.memberId ==>
              Adopt(tenants, t) == t.(id := id, createdAt := tenants[id].createdAt * SECOND)
    ensures !Known(tenants, t.memberId) ==> Adopt(tenants, t) == t
  {
    forall id | id in tenants && tenants[id].memberId == t.memberId
      ensures Adopt(tenants, t) == t.(id := id, createdAt := tenants[id].createdAt * SECOND)
    {
      IdOfIs(tenants, id);
    }
  }

  // ----- identity of a tenant -----

  /** Every row of a is still in b, with the same member and the same creation time. */
  ghost predicate SameIdentities(a: Tenants, b: Tenants) {
    forall id :: id in a ==> id in b && b[id].memberId == a[id].memberId && b[id].createdAt == a[id].createdAt
  }

  lemma UpsertKeepsIdentities(a: Tenants, id: string, r: TenantRow)
    requires OnePerMember(a) && UpsertTenant(a, id, r).Some?
    ensures var b := UpsertTenant(a, id, r).value; OnePerMember(b) && SameIdentities(a, b)
  {
  }

  datatype Upsert = Upsert(id: string, row: TenantRow)

  /** Any mix of logins and renewals, in any interleaving, is a sequence of upserts; one that
      violates the primary key changes nothing. */
  ghost function AfterUpserts(tenants: Tenants, us: seq<Upsert>): Tenants {
    if us == [] then tenants
    else
      var before := AfterUpserts(tenants, us[..|us| - 1]);
      var u := us[|us| - 1];
      match UpsertTenant(before, u.id, u.row)
      case Some(after) => after
      case None => before
  }

  lemma {:induction false} IdentityIsStable(tenants: Tenants, us: seq<Upsert>)
    requires OnePerMember(tenants)
    ensures OnePerMember(AfterUpserts(tenants, us)) && SameIdentities(tenants, AfterUpserts(tenants, us))
  {
    if us != [] {
      var init := us[..|us| - 1];
      IdentityIsStable(tenants, init);
      var u := us[|us| - 1];
      if UpsertTenant(AfterUpserts(tenants, init), u.id, u.row).Some? {
        UpsertKeepsIdentities(AfterUpserts(tenants, init), u.id, u.row);
      }
    }
  }

  /** Where an upsert puts a member, whatever the id it was called with. */
  lemma UpsertedId(tenants: Tenants, id: string, r: TenantRow)
    requires OnePerMember(tenants) && UpsertTenant(tenants, id, r).Some?
    ensures var after := UpsertTenant(tenants, id, r).value;
            var stored := match IdOf(tenants, r.memberId) case Some(i) => i case None => id;
            IdOf(after, r.memberId) == Some(stored) && stored in after && after[stored].memberId == r.memberId
            && after[stored].accessToken == r.accessToken
  {
  }

  /** The id a login hands out is the id stored for the member exactly when, at the moment of the
      upsert, the member has no row or has it under that id. */
  lemma HandedOutIdIsStored(tenants: Tenants, t: Tenant)
    requires OnePerMember(tenants) && UpsertTenant(tenants, t.id, ToRow(t)).Some?
    ensures IdOf(UpsertTenant(tenants, t.id, ToRow(t)).value, t.memberId) == Some(t.id)
            <==> IdOf(tenants, t.memberId) in {None, Some(t.id)}
  {
    UpsertedId(tenants, t.id, ToRow(t));
  }

  /** With lookup and upsert back to back, they are always the same. */
  lemma AtomicCompleteIsExact(tenants: Tenants, t: Tenant)
    requires OnePerMember(tenants)
    ensures var u := Adopt(tenants, t);
            && (UpsertTenant(tenants, u.id, ToRow(u)).None? <==> IdOf(tenants, t.memberId).None? && t.id in tenants)
            && (UpsertTenant(tenants, u.id, ToRow(u)).Some? ==>
                  IdOf(UpsertTenant(tenants, u.id, ToRow(u)).value, t.memberId) == Some(u.id))
  {
    var u := Adopt(tenants, t);
    if UpsertTenant(tenants, u.id, ToRow(u)).Some? {
      HandedOutIdIsStored(tenants, u);
    }
  }

  /** A subject handed out once keeps resolving to the same member through any mix of logins and renewals,
      and right after that member logs in again it carries the new LinkedIn token. */
  lemma ReconnectKeepsSubject(tenants: Tenants, us: seq<Upsert>, subject: string, t: Tenant)
    requires OnePerMember(tenants) && subject in tenants && tenants[subject].memberId == t.memberId
    ensures var before := AfterUpserts(tenants, us);
            var u := Adopt(before, t);
            var after := UpsertTenant(before, u.id, ToRow(u));
            && u.id == subject && after.Some?
            && var resolved := TenantById(after.value, subject);
               resolved.Some? && resolved.value.memberId == t.memberId && resolved.value.accessToken == t.accessToken
               && resolved.value.createdAt == tenants[subject].createdAt * SECOND
  {
    IdentityIsStable(tenants, us);
    var before := AfterUpserts(tenants, us);
    IdOfIs(before, subject);
    var u := Adopt(before, t);
    UpsertedId(before, u.id, ToRow(u));
    UpsertKeepsIdentities(before, u.id, ToRow(u));
  }

  // ----- renewal of LinkedIn tokens -----

  /** What the outside world does while one tenant is renewed: LinkedIn's answer, the clock, the
      database, and whether the sweep is cancelled just before. */
  datatype Renewal = Renewal(answer: Option<Token>, now: Instant, ok: bool, cancelled: bool)

  /** LinkedIn renews only a tenant that has a refresh token, and an answer must carry a token. */
  predicate Renews(r: TenantRow, e: Renewal) {
    r.refreshToken != "" && e.answer.Some? && e.answer.value.accessToken != "" && e.ok
  }

  function Renewed(t: Tenant, token: Token, now: int): Tenant {
    t.(accessToken := token.accessToken,
       refreshToken := if token.refreshToken != "" then token.refreshToken else t.refreshToken,
       tokenExpiresAt := ExpiryFrom(now, token.expiresIn),
       updatedAt := now,
       scopes := if token.scopes != [] then token.scopes else t.scopes)
  }

  function RowAfter(id: string, r: TenantRow, e: Renewal): TenantRow {
    if Renews(r, e) then Refreshed(r, ToRow(Renewed(FromRow(id, r), e.answer.value, e.now))) else r
  }

  /** The table after renewing a tenant as it was listed; None leaves it alone. */
  ghost function TenantsRenewed(tenants: Tenants, listed: Tenant, e: Renewal): Option<Tenants> {
    if listed.refreshToken == "" || e.answer.None? || e.answer.value.accessToken == "" || !e.ok then None
    else UpsertTenant(tenants, listed.id, ToRow(Renewed(listed, e.answer.value, e.now)))
  }

  /** If the row is still as listed, exactly that row is renewed, and exactly when LinkedIn and the database do
      their part. */
  lemma UndisturbedRenewal(tenants: Tenants, id: string, e: Renewal)
    requires OnePerMember(tenants) && id in tenants
    ensures TenantsRenewed(tenants, FromRow(id, tenants[id]), e) ==
            if Renews(tenants[id], e) then Some(tenants[id := RowAfter(id, tenants[id], e)]) else None
    ensures !Renews(tenants[id], e) ==> tenants == tenants[id := RowAfter(id, tenants[id], e)]
  {
    IdOfIs(tenants, id);
  }

  /** The row after the member logged in between the listing and the renewal. */
  ghost function RowAfterBoth(tenants: Tenants, id: string, login: Tenant, e: Renewal): TenantRow
    requires id in tenants
  {
    var mid := tenants[id := Refreshed(tenants[id], ToRow(login))];
    match TenantsRenewed(mid, FromRow(id, tenants[id]), e)
    case Some(after) => if id in after then after[id] else mid[id]
    case None => mid[id]
  }

  /** A login between listing and renewal keeps its access token exactly when the renewal fails or brings the same
      token, and its refresh token exactly when the renewal fails or ends with the same one, brought along or left
      over from the listing. */
  lemma RenewalLosesLogin(tenants: Tenants, id: string, login: Tenant, e: Renewal)
    requires OnePerMember(tenants) && id in tenants && login.memberId == tenants[id].memberId
    ensures var (row, lost) := (RowAfterBoth(tenants, id, login, e), Renews(tenants[id], e));
            && (row.accessToken == login.accessToken <==> !lost || e.answer.value.accessToken == login.accessToken)
            && (row.refreshToken == login.refreshToken <==>
                  || !lost
                  || login.refreshToken == (if e.answer.value.refreshToken != "" then e.answer.value.refreshToken
                                            else tenants[id].refreshToken))
  {
    var mid := tenants[id := Refreshed(tenants[id], ToRow(login))];
    IdOfIs(mid, id);
  }

  /** A tenant deleted between listing and renewal is back exactly when the renewal succeeds, under its old id. */
  lemma RenewalRevivesDeleted(tenants: Tenants, id: string, e: Renewal)
    requires OnePerMember(tenants) && id in tenants
    ensures var after := TenantsRenewed(tenants - {id}, FromRow(id, tenants[id]), e);
            && (after.Some? <==> Renews(tenants[id], e))
            && (after.Some? ==> id in after.value && after.value[id].memberId == tenants[id].memberId)
  {
  }

  /** The tenants of the first n that could not be renewed, in order. */
  function Failing(tenants: Tenants, ids: seq<string>, env: nat -> Renewal, n: nat): seq<string>
    requires n <= |ids| && forall i :: 0 <= i < |ids| ==> ids[i] in tenants
  {
    if n == 0 then [] else
      Failing(tenants, ids, env, n - 1) + if Renews(tenants[ids[n - 1]], env(n - 1)) then [] else [ids[n - 1]]
  }

  lemma {:induction false} FailingElements(tenants: Tenants, ids: seq<string>, env: nat -> Renewal, n: nat)
    requires n <= |ids| && forall i :: 0 <= i < |ids| ==> ids[i] in tenants
    ensures forall id :: id in Failing(tenants, ids, env, n) <==>
                         exists i :: 0 <= i < n && ids[i] == id && !Renews(tenants[ids[i]], env(i))
  {
    if n > 0 {
      FailingElements(tenants, ids, env, n - 1);
      var last := if Renews(tenants[ids[n - 1]], env(n - 1)) then [] else [ids[n - 1]];
      forall id ensures id in Failing(tenants, ids, env, n) <==>
                        exists i :: 0 <= i < n && ids[i] == id && !Renews(tenants[ids[i]], env(i))
      {
        assert id in Failing(tenants, ids, env, n) <==> id in Failing(tenants, ids, env, n - 1) || id in last;
        if id in last {
          assert ids[n - 1] == id;
        }
      }
    }
  }

  /** A renewed token is good beyond the window, or of unknown lifetime. */
  predicate Lasting(e: Renewal, limit: int) {
    e.answer.Some? && (e.answer.value.expiresIn <= 0 || Unix(e.now + e.answer.value.expiresIn) >= Unix(limit))
  }

  /** The table after a sweep over ids of which the first n were reached. */
  ghost predicate Swept(before: Tenants, after: Tenants, ids: seq<string>, env: nat -> Renewal, n: nat) {
    && n <= |ids| && after.Keys == before.Keys
    && (forall i :: 0 <= i < |ids| ==> ids[i] in before)
    && (forall i :: 0 <= i < n ==> after[ids[i]] == RowAfter(ids[i], before[ids[i]], env(i)))
    && OthersKept(before, after, ids[..n])
  }

  predicate OthersKept(before: Tenants, after: Tenants, reached: seq<string>)
    requires after.Keys == before.Keys
  {
    forall id :: id in before && id !in reached ==> after[id] == before[id]
  }

  lemma RenewedIsDue(id: string, r: TenantRow, e: Renewal, now: Instant, limit: int)
    requires Renews(r, e) && now <= e.now
    ensures Due(RowAfter(id, r, e), limit, now - RECHECK_INTERVAL) <==> !Lasting(e, limit)
  {
    var a := RowAfter(id, r, e);
    assert a.updatedAt == Unix(e.now);
    UnixMonotone(now, e.now);
  }

  /** Asked again with the original bounds, the due query returns exactly the tenants reported as needing
      a reconnection if and only if every renewal that succeeded was a lasting one. */
  lemma SweepFixpoint(before: Tenants, after: Tenants, ids: seq<string>, env: nat -> Renewal, now: Instant, window: int)
    requires Swept(before, after, ids, env, |ids|)
    requires NoDuplicates(ids) && Elements(ids) == DueIds(before, now + window, now - RECHECK_INTERVAL)
    requires forall i :: 0 <= i < |ids| ==> now <= env(i).now
    ensures DueIds(after, now + window, now - RECHECK_INTERVAL) == Elements(Failing(before, ids, env, |ids|))
            <==> forall i :: 0 <= i < |ids| && Renews(before[ids[i]], env(i)) ==> Lasting(env(i), now + window)
  {
    var due := DueIds(after, now + window, now - RECHECK_INTERVAL);
    var failing := Elements(Failing(before, ids, env, |ids|));
    var renews := seq(|ids|, i requires 0 <= i < |ids| => Renews(before[ids[i]], env(i)));
    var lasting := seq(|ids|, i requires 0 <= i < |ids| => Lasting(env(i), now + window));
    forall id | id in due ensures id in ids {
      SweptOthers(before, after, ids, env, now, window, id);
    }
    forall id | id in failing ensures id in ids {
      FailingElements(before, ids, env, |ids|);
    }
    forall i | 0 <= i < |ids|
      ensures ids[i] in failing <==> !renews[i]
      ensures ids[i] in due <==> renews[i] ==> !lasting[i]
    {
      FailingAt(before, ids, env, i);
      SweptAt(before, after, ids, env, now, window, i);
    }
    SameMembers(ids, due, failing, renews, lasting);
    assert forall i :: 0 <= i < |ids| ==>
        renews[i] == Renews(before[ids[i]], env(i)) && lasting[i] == Lasting(env(i), now + window);
  }

  lemma SameMembers(ids: seq<string>, due: set<string>, failing: set<string>, renews: seq<bool>, lasting: seq<bool>)
    requires |ids| == |renews| == |lasting|
    requires forall id :: id in due || id in failing ==> id in ids
    requires forall i :: 0 <= i < |ids| ==> (ids[i] in failing <==> !renews[i])
    requires forall i :: 0 <= i < |ids| ==> (ids[i] in due <==> renews[i] ==> !lasting[i])
    ensures due == failing <==> forall i :: 0 <= i < |ids| && renews[i] ==> lasting[i]
  {
  }

  lemma FailingAt(before: Tenants, ids: seq<string>, env: nat -> Renewal, i: nat)
    requires i < |ids| && NoDuplicates(ids)
    requires forall k :: 0 <= k < |ids| ==> ids[k] in before
    ensures ids[i] in Failing(before, ids, env, |ids|) <==> !Renews(before[ids[i]], env(i))
  {
    FailingElements(before, ids, env, |ids|);
  }

  lemma SweptOthers(before: Tenants, after: Tenants, ids: seq<string>,
                    env: nat -> Renewal, now: Instant, window: int, id: string)
    requires Swept(before, after, ids, env, |ids|)
    requires Elements(ids) == DueIds(before, now + window, now - RECHECK_INTERVAL)
    requires id in DueIds(after, now + window, now - RECHECK_INTERVAL)
    ensures id in ids
  {
    assert ids[..|ids|] == ids;
    assert id in ids || id in DueIds(before, now + window, now - RECHECK_INTERVAL);
    assert id in ids || id in Elements(ids);
  }

  lemma SweptAt(before: Tenants, after: Tenants, ids: seq<string>,
                env: nat -> Renewal, now: Instant, window: int, i: nat)
    requires Swept(before, after, ids, env, |ids|) && i < |ids| && now <= env(i).now
    requires Elements(ids) == DueIds(before, now + window, now - RECHECK_INTERVAL)
    ensures ids[i] in DueIds(after, now + window, now - RECHECK_INTERVAL)
            <==> Renews(before[ids[i]], env(i)) ==> !Lasting(env(i), now + window)
  {
    assert ids[i] in Elements(ids);
    if Renews(before[ids[i]], env(i)) {
      RenewedIsDue(ids[i], before[ids[i]], env(i), now, now + window);
    }
  }

  lemma SweptNext(before: Tenants, mid: Tenants, ids: seq<string>, env: nat -> Renewal, n: nat)
    requires Swept(before, mid, ids, env, n) && n < |ids| && NoDuplicates(ids)
    ensures ids[n] in mid && mid[ids[n]] == before[ids[n]]
  {
  }

  lemma SweptStep(before: Tenants, mid: Tenants, after: Tenants, ids: seq<string>, env: nat -> Renewal, n: nat)
    requires Swept(before, mid, ids, env, n) && n < |ids| && NoDuplicates(ids)
    requires after == mid[ids[n] := RowAfter(ids[n], mid[ids[n]], env(n))]
    ensures Swept(before, after, ids, env, n + 1)
  {
  }

  // ----- who is looked at -----

  lemma LookedAt(tenants: Tenants, ids: seq<string>, now: int, window: int)
    requires Elements(ids) == DueIds(tenants, now + window, now - RECHECK_INTERVAL)
    ensures forall id :: id in ids <==>
              id in tenants
              && var row := tenants[id];
                 || (0 < row.tokenExpiresAt && (row.tokenExpiresAt + 1) * SECOND <= now + window)
                 || (row.tokenExpiresAt == 0 && (row.updatedAt + 1) * SECOND + 7 * DAY <= now)
  {
    forall id ensures id in ids <==> id in DueIds(tenants, now + window, now - RECHECK_INTERVAL) {
      assert id in ids <==> id in Elements(ids);
    }
  }

  /** A tenant of unknown deadline, left alone since it was updated, is looked at by every sweep that starts a week
      and a second later or after that, and by none that starts within the week, whatever the window. */
  lemma UnknownIsRechecked(tenants: Tenants, id: string, updated: Instant, now: Instant, window: int)
    requires id in tenants && tenants[id].tokenExpiresAt == 0 && tenants[id].updatedAt == Unix(updated)
    ensures id in DueIds(tenants, now + window, now - RECHECK_INTERVAL) <==> Unix(updated) < Unix(now - 7 * DAY)
    ensures updated + 7 * DAY + SECOND <= now ==> id in DueIds(tenants, now + window, now - RECHECK_INTERVAL)
    ensures now <= updated + 7 * DAY ==> id !in DueIds(tenants, now + window, now - RECHECK_INTERVAL)
  {
  }

  // ----- what a row says after a login or a renewal -----

  /** A row carries LinkedIn's answer to this login of this member, as of this reading. */
  predicate CarriesLogin(row: TenantRow, token: Token, member: Member, now: int) {
    && row.memberId == member.id && row.displayName == member.name && row.headline == ""
    && row.accessToken == token.accessToken && row.refreshToken == token.refreshToken
    && row.tokenExpiresAt == (if token.expiresIn <= 0 then 0 else Unix(now + token.expiresIn))
    && row.updatedAt == Unix(now)
    && (Scopes.AllWords(token.scopes) ==> Scopes.Fields(row.scopes) == token.scopes)
  }

  /** The row's creation time is its own if it is an old one, and the second of this login otherwise; an old row
      belonged to the member, and a new one means that the member had none. */
  ghost predicate KeepsBirth(before: Tenants, row: TenantRow, id: string, newId: string, now: int) {
    if id in before then before[id].memberId == row.memberId && before[id].createdAt == row.createdAt
    else
      id == newId && row.createdAt == Unix(now) && forall i :: i in before ==> before[i].memberId != row.memberId
  }

  lemma StoredLogin(tenants: Tenants, token: Token, member: Member, newId: string, now: int)
    requires OnePerMember(tenants)
    ensures var t := Adopt(tenants, Proposed(token, member, newId, now));
            UpsertTenant(tenants, t.id, ToRow(t)).Some? ==>
              var after := UpsertTenant(tenants, t.id, ToRow(t)).value;
              && t.id in after && after == tenants[t.id := after[t.id]]
              && CarriesLogin(after[t.id], token, member, now)
              && KeepsBirth(tenants, after[t.id], t.id, newId, now)
  {
    var t := Adopt(tenants, Proposed(token, member, newId, now));
    if id :| id in tenants && tenants[id].memberId == member.id {
      IdOfIs(tenants, id);
    }
    if Scopes.AllWords(token.scopes) {
      Scopes.JoinThenParse(token.scopes);
    }
  }

  /** A row carries LinkedIn's answer to the renewal of the tenant as listed, as of the renewal's reading: what the
      answer leaves out is as it was listed. */
  predicate CarriesRenewal(row: TenantRow, listed: Tenant, token: Token, now: int) {
    && row.memberId == listed.memberId && row.displayName == listed.displayName && row.headline == listed.headline
    && row.accessToken == token.accessToken
    && row.refreshToken == (if token.refreshToken == "" then listed.refreshToken else token.refreshToken)
    && row.tokenExpiresAt == (if token.expiresIn <= 0 then 0 else Unix(now + token.expiresIn))
    && row.updatedAt == Unix(now)
    && (token.scopes != [] && Scopes.AllWords(token.scopes) ==> Scopes.Fields(row.scopes) == token.scopes)
    && (token.scopes == [] && Scopes.AllWords(listed.scopes) ==> Scopes.Fields(row.scopes) == listed.scopes)
  }

  ghost predicate Known(tenants: Tenants, memberId: string) {
    exists id :: id in tenants && tenants[id].memberId == memberId
  }

  /** Where an upsert puts its row: over the member's own, whose creation time it keeps, or under the given id. */
  lemma PutAt(tenants: Tenants, id: string, r: TenantRow) returns (at: string)
    requires OnePerMember(tenants) && UpsertTenant(tenants, id, r).Some?
    ensures var after := UpsertTenant(tenants, id, r).value;
            && at in after && after == tenants[at := after[at]] && after[at] == r.(createdAt := after[at].createdAt)
            && (if at in tenants then
                  tenants[at].memberId == r.memberId && tenants[at].createdAt == after[at].createdAt
                else at == id && after[at] == r && !Known(tenants, r.memberId))
  {
    at := match IdOf(tenants, r.memberId) case Some(i) => i case None => id;
  }

  lemma RowCarriesRenewal(listed: Tenant, token: Token, now: int, createdAt: int)
    ensures CarriesRenewal(ToRow(Renewed(listed, token, now)).(createdAt := createdAt), listed, token, now)
  {
    if Scopes.AllWords(token.scopes) {
      Scopes.JoinThenParse(token.scopes);
    }
    if Scopes.AllWords(listed.scopes) {
      Scopes.JoinThenParse(listed.scopes);
    }
  }

  lemma StoredRenewal(tenants: Tenants, listed: Tenant, e: Renewal)
    requires OnePerMember(tenants)
    ensures TenantsRenewed(tenants, listed, e).Some? <==>
            && listed.refreshToken != "" && e.answer.Some? && e.answer.value.accessToken != "" && e.ok
            && (Known(tenants, listed.memberId) || listed.id !in tenants)
    ensures TenantsRenewed(tenants, listed, e).Some? ==>
              exists id :: RenewedAt(tenants, TenantsRenewed(tenants, listed, e).value, id, listed, e)
  {
    if TenantsRenewed(tenants, listed, e).Some? {
      var after := TenantsRenewed(tenants, listed, e).value;
      var id := PutAt(tenants, listed.id, ToRow(Renewed(listed, e.answer.value, e.now)));
      RowCarriesRenewal(listed, e.answer.value, e.now, after[id].createdAt);
      assert RenewedAt(tenants, after, id, listed, e);
    }
  }

  /** The renewal changed exactly one row: the member's own, which keeps its creation time, or the one it was listed
      under. */
  ghost predicate RenewedAt(before: Tenants, after: Tenants, id: string, listed: Tenant, e: Renewal) {
    && id in after && after == before[id := after[id]] && e.answer.Some?
    && CarriesRenewal(after[id], listed, e.answer.value, e.now)
    && (if id in before then before[id].memberId == listed.memberId && before[id].createdAt == after[id].createdAt
        else id == listed.id && after[id].createdAt == Unix(listed.createdAt) && !Known(before, listed.memberId))
  }

  datatype LoginOutcome = LoggedIn(tenantId: string, displayName: string, scopes: seq<string>) | Forbidden | LoginFailed

  datatype Report = Report(checked: nat, refreshed: nat, needsReconnect: seq<string>)

  class LoginService {
    const store: S.Store
    const allow: string -> bool

    constructor (store: S.Store, allow: string -> bool)
      ensures this.store == store && this.allow == allow
    {
      this.store, this.allow := store, allow;
    }

    /** Changes the tenants table only when it logs the member in: then one row, the member's, carries what LinkedIn
        answered, and its id is the one handed out. */
    method Complete(identity: Identity, newId: string, now: int, lookupOk: bool, upsertOk: bool)
      returns (r: LoginOutcome)
      requires store.Valid()
      modifies store
      ensures store.Valid()
      ensures r.LoggedIn? <==>
              && identity.Identified? && allow(identity.member.id) && lookupOk && upsertOk
              && !(old(IdOf(store.tenants, identity.member.id)).None? && newId in old(store.tenants))
      ensures r.Forbidden? <==> identity.Identified? && !allow(identity.member.id)
      ensures r.LoggedIn? ==>
              var t := old(Adopt(store.tenants, Proposed(identity.token, identity.member, newId, now)));
              && store.Snapshot() == old(store.Snapshot()).(tenants := old(UpsertTenant(store.tenants, t.id,
                 ToRow(t))).value)
              && r == LoggedIn(t.id, t.displayName, t.scopes)
              && IdOf(store.tenants, identity.member.id) == Some(r.tenantId)
              && SameIdentities(old(store.tenants), store.tenants)
      ensures r.LoggedIn? ==>
                && r.tenantId in store.tenants && r.displayName == identity.member.name
                && r.scopes == identity.token.scopes
                && CarriesLogin(store.tenants[r.tenantId], identity.token, identity.member, now)
                && KeepsBirth(old(store.tenants), store.tenants[r.tenantId], r.tenantId, newId, now)
                && store.tenants == old(store.tenants)[r.tenantId := store.tenants[r.tenantId]]
      ensures !r.LoggedIn? ==> store.Snapshot() == old(store.Snapshot())
    {
      if identity.Unavailable? {
        return LoginFailed;
      }
      if !allow(identity.member.id) {
        return Forbidden;
      }
      var tenant := Proposed(identity.token, identity.member, newId, now);
      AtomicCompleteIsExact(store.tenants, tenant);
      StoredLogin(store.tenants, identity.token, identity.member, newId, now);
      var existing := store.TenantByMember(identity.member.id, lookupOk);
      match existing {
        case Ok(e) => tenant := tenant.(id := e.id, createdAt := e.createdAt);
        case NotFound =>
        case Broken => return LoginFailed;
      }
      ghost var before := store.tenants;
      var done := store.UpsertTenant(tenant, upsertOk);
      if !done {
        return LoginFailed;
      }
      UpsertKeepsIdentities(before, tenant.id, ToRow(tenant));
      return LoggedIn(tenant.id, tenant.displayName, tenant.scopes);
    }

    /** The state is gone once the statement runs; its request comes back exactly if the reading is before its
        deadline. */
    method ConsumeState(state: string, now: int, ok: bool) returns (r: S.Result<OAuthRequest>)
      requires store.Valid()
      modifies store`loginStates
      ensures store.Valid()
      ensures store.Snapshot() == if ok then old(ConsumeLoginState(store.Snapshot(), state)) else old(store.Snapshot())
      ensures r.Broken? <==> !ok
      ensures r.Ok? <==> ok && state in old(store.loginStates) && now < old(store.loginStates)[state].expiresAt * SECOND
      ensures r.Ok? ==> r.value == old(store.loginStates)[state].request
    {
      var row := store.ConsumeLoginState(state, ok);
      match row {
        case Ok(s) => r := if now < s.expiresAt * SECOND then S.Ok(s.request) else S.NotFound;
        case NotFound => r := S.NotFound;
        case Broken => r := S.Broken;
      }
    }

    method DeleteByMemberId(memberId: string, lookupOk: bool, deleteOk: bool) returns (done: bool)
      requires store.Valid()
      modifies store
      ensures store.Valid()
      ensures done ==> IdOf(store.tenants, memberId) == None
      ensures store.Snapshot() == match old(IdOf(store.tenants, memberId))
                                  case Some(id) => if done then old(DeleteTenant(store.Snapshot(), id))
                                      else old(store.Snapshot())
                                  case None => old(store.Snapshot())
    {
      var t := store.TenantByMember(memberId, lookupOk);
      match t {
        case Ok(tenant) => done := store.DeleteTenant(tenant.id, deleteOk);
        case NotFound => done := true;
        case Broken => done := false;
      }
    }

    /** The tenant may have changed since it was listed, or be gone: the store ends as TenantsRenewed says, and the
        answer is whether it changed. It changes exactly when the tenant has a refresh token, LinkedIn and the
        database do their part and the member has a row or the listed id is free; then one row carries what LinkedIn
        answered. */
    method RefreshOne(tenant: Tenant, e: Renewal) returns (renewed: bool)
      requires store.Valid()
      modifies store
      ensures store.Valid() && renewed == old(TenantsRenewed(store.tenants, tenant, e)).Some?
      ensures store.Snapshot() == old(store.Snapshot()).(
                tenants := match old(TenantsRenewed(store.tenants, tenant, e)) case Some(t) => t
                    case None => old(store.tenants))
      ensures renewed <==>
              && tenant.refreshToken != "" && e.answer.Some? && e.answer.value.accessToken != "" && e.ok
              && (Known(old(store.tenants), tenant.memberId) || tenant.id !in old(store.tenants))
      ensures if renewed then exists id :: RenewedAt(old(store.tenants), store.tenants, id, tenant, e)
              else store.tenants == old(store.tenants)
    {
      StoredRenewal(store.tenants, tenant, e);
      if tenant.refreshToken == "" || e.answer.None? || e.answer.value.accessToken == "" {
        return false;
      }
      renewed := store.UpsertTenant(Renewed(tenant, e.answer.value, e.now), e.ok);
    }

    method DueTenants(now: Instant, window: int, ok: bool) returns (due: S.Result<seq<Tenant>>, ghost ids: seq<string>)
      ensures due.Ok? <==> ok
      ensures ok ==>
                && NoDuplicates(ids)
                && Elements(ids) == DueIds(store.tenants, now + window, now - RECHECK_INTERVAL)
                && |due.value| == |ids|
                && forall i :: 0 <= i < |ids| ==>
                     ids[i] in store.tenants && due.value[i] == FromRow(ids[i], store.tenants[ids[i]])
      ensures ok ==>
                forall i, j :: 0 <= i < j < |ids| ==>
                  store.tenants[ids[i]].tokenExpiresAt <= store.tenants[ids[j]].tokenExpiresAt
    {
      due := store.TenantsDueForTokenRefresh(now + window, now - RECHECK_INTERVAL, ok);
      ids := if ok then S.Ids(due.value) else [];
    }

    /** A tenant whose row is as it was listed: exactly that row is renewed, exactly when LinkedIn and the database do
        their part. */
    method RenewListed(tenant: Tenant, e: Renewal) returns (renewed: bool)
      requires store.Valid() && tenant.id in store.tenants && tenant == FromRow(tenant.id, store.tenants[tenant.id])
      modifies store
      ensures store.Valid() && store.Snapshot() == old(store.Snapshot()).(tenants := store.tenants)
      ensures renewed <==> Renews(old(store.tenants)[tenant.id], e)
      ensures store.tenants ==
              old(store.tenants)[tenant.id := RowAfter(tenant.id, old(store.tenants)[tenant.id], e)]
    {
      UndisturbedRenewal(store.tenants, tenant.id, e);
      renewed := RefreshOne(tenant, e);
    }

    /** From the bookkeeping for the first n tenants to that for n + 1. */
    method RenewNext(tenant: Tenant, report: Report, env: nat -> Renewal,
                     ghost before: Tenants, ghost ids: seq<string>, ghost n: nat)
      returns (next: Report)
      requires store.Valid() && Progress(before, store.tenants, ids, env, n, report)
      requires n < |ids| && NoDuplicates(ids) && tenant == FromRow(ids[n], before[ids[n]])
      modifies store
      ensures store.Valid() && store.Snapshot() == old(store.Snapshot()).(tenants := store.tenants)
      ensures Progress(before, store.tenants, ids, env, n + 1, next)
    {
      ghost var mid := store.tenants;
      SweptNext(before, mid, ids, env, n);
      var renewed := RenewListed(tenant, env(report.refreshed + |report.needsReconnect|));
      SweptStep(before, mid, store.tenants, ids, env, n);
      next := if renewed then report.(refreshed := report.refreshed + 1)
              else report.(needsReconnect := report.needsReconnect + [tenant.id]);
    }

    /** Ends with the whole account of SweepReport, and touches no table but tenants. It looks, soonest deadline
        first, at exactly the stored tenants whose known deadline is in a second that is over at the end of the
        window, and those of unknown deadline last updated in a second that was over a week ago. */
    method RefreshExpiringTokens(window: int, now: Instant, listOk: bool, env: nat -> Renewal)
      returns (failed: bool, report: Report, ghost ids: seq<string>, ghost reached: nat)
      requires store.Valid()
      requires forall i :: now <= env(i).now
      modifies store
      ensures store.Valid()
      ensures store.Snapshot() == old(store.Snapshot()).(tenants := store.tenants)
      ensures !listOk ==> failed && store.Snapshot() == old(store.Snapshot())
      ensures var w := if window <= 0 then DEFAULT_WINDOW else window;
              listOk ==> SweepReport(old(store.tenants), store.tenants, now, w, env, failed, report, ids, reached)
      ensures var w := if window <= 0 then 14 * DAY else window;
              listOk ==> forall id :: id in ids <==>
                  id in old(store.tenants)
                  && var row := old(store.tenants)[id];
                     || (0 < row.tokenExpiresAt && (row.tokenExpiresAt + 1) * SECOND <= now + w)
                     || (row.tokenExpiresAt == 0 && (row.updatedAt + 1) * SECOND + 7 * DAY <= now)
      ensures listOk ==>
                forall i, j :: 0 <= i < j < |ids| && ids[i] in old(store.tenants) && ids[j] in old(store.tenants) ==>
                  old(store.tenants)[ids[i]].tokenExpiresAt <= old(store.tenants)[ids[j]].tokenExpiresAt
    {
      var w := if window <= 0 then DEFAULT_WINDOW else window;
      ghost var before := store.tenants;
      var due, order := DueTenants(now, w, listOk);
      ids := order;
      if listOk {
        LookedAt(before, ids, now, w);
      }
      if !due.Ok? {
        return true, Report(0, 0, []), ids, 0;
      }
      var tenants := due.value;
      report := Report(|tenants|, 0, []);
      for n := 0 to |tenants|
        invariant store.Valid() && store.Snapshot() == old(store.Snapshot()).(tenants := store.tenants)
        invariant Progress(before, store.tenants, ids, env, n, report)
      {
        if env(n).cancelled {
          return true, report, ids, n;
        }
        report := RenewNext(tenants[n], report, env, before, ids, n);
      }
      return false, report, ids, |tenants|;
    }
  }

  ghost predicate Progress(before: Tenants, after: Tenants, ids: seq<string>,
                           env: nat -> Renewal, n: nat, report: Report) {
    && Swept(before, after, ids, env, n)
    && report.checked == |ids|
    && report.needsReconnect == Failing(before, ids, env, n)
    && report.refreshed + |report.needsReconnect| == n
  }

  /** Everything a sweep promises: which tenants it looked at, what became of each row, and its counts. */
  ghost predicate SweepReport(before: Tenants, after: Tenants, now: Instant, window: int, env: nat -> Renewal,
                              failed: bool, report: Report, ids: seq<string>, reached: nat)
  {
    && NoDuplicates(ids) && Elements(ids) == DueIds(before, now + window, now - RECHECK_INTERVAL)
    && Progress(before, after, ids, env, reached, report)
    && (failed <==> reached < |ids|)
    && (failed ==> env(reached).cancelled)
  }

  /** An uncancelled sweep is a fixpoint exactly when its renewals were lasting ones. */
  lemma CompletedSweep(before: Tenants, after: Tenants, now: Instant, window: int, env: nat -> Renewal,
                       report: Report, ids: seq<string>, reached: nat)
    requires SweepReport(before, after, now, window, env, false, report, ids, reached)
    requires forall i :: now <= env(i).now
    ensures report.checked == report.refreshed + |report.needsReconnect|
    ensures DueIds(after, now + window, now - RECHECK_INTERVAL) == Elements(report.needsReconnect)
            <==> forall i :: 0 <= i < |ids| && Renews(before[ids[i]], env(i)) ==> Lasting(env(i), now + window)
    ensures forall id :: id in before && id !in DueIds(before, now + window, now - RECHECK_INTERVAL) ==>
              after[id] == before[id]
  {
    SweepFixpoint(before, after, ids, env, now, window);
    forall id | id in before && id !in DueIds(before, now + window, now - RECHECK_INTERVAL)
      ensures after[id] == before[id]
    {
      assert id !in Elements(ids);
    }
  }
}
