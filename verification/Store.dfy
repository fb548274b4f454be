/** The SQLite store. Each method is one statement (DeleteTenant is one transaction,
    PurgeExpired is three statements), proved against its meaning in Tables.

    The parameter `ok` says whether the database executes the statement at all; when
    it does not, nothing changes and the caller gets `Broken`.
  */
module Store {
  import opened Base
  import opened Tables

  datatype Result<+T> = Ok(value: T) | NotFound | Broken

  datatype LedgerPost = LedgerPost(
    urn: string, commentary: string, visibility: string, permalink: string,
    createdAt: int, updatedAt: Option<int>, deletedAt: Option<int>)
  {
    predicate Deleted() { deletedAt.Some? }
  }

  function Scanned(urn: string, r: PostRow): LedgerPost {
    LedgerPost(urn, r.commentary, r.visibility, r.permalink, r.createdAt * SECOND,
               TimeOrZero(r.updatedAt), TimeOrZero(r.deletedAt))
  }

  function Urns(posts: seq<LedgerPost>): (urns: seq<string>)
    ensures |urns| == |posts| && forall i :: 0 <= i < |posts| ==> urns[i] == posts[i].urn
  {
    seq(|posts|, i requires 0 <= i < |posts| => posts[i].urn)
  }

  function Ids(tenants: seq<Tenant>): (ids: seq<string>)
    ensures |ids| == |tenants| && forall i :: 0 <= i < |tenants| ==> ids[i] == tenants[i].id
  {
    seq(|tenants|, i requires 0 <= i < |tenants| => tenants[i].id)
  }

  /** A listing, as the program reads its rows. */
  ghost predicate IsScannedListing(db: Db, tenantId: string, includeDeleted: bool, limit: int, posts: seq<LedgerPost>) {
    && IsListing(db, tenantId, includeDeleted, limit, Urns(posts))
    && forall i :: 0 <= i < |posts| ==>
         (tenantId, posts[i].urn) in db.posts && posts[i] == Scanned(posts[i].urn, db.posts[(tenantId, posts[i].urn)])
  }

  /** The tenants to renew, each once, soonest deadline first, as the program reads their rows. */
  ghost predicate IsDueListing(tenants: Tenants, expiringBefore: int, uncheckedBefore: int, due: seq<Tenant>) {
    && NoDuplicates(Ids(due)) && Elements(Ids(due)) == DueIds(tenants, expiringBefore, uncheckedBefore)
    && (forall i :: 0 <= i < |due| ==> due[i].id in tenants && due[i] == FromRow(due[i].id, tenants[due[i].id]))
    && forall i, j :: 0 <= i < j < |due| ==> tenants[due[i].id].tokenExpiresAt <= tenants[due[j].id].tokenExpiresAt
  }

  lemma {:induction false} GreatestExists(rows: set<string>, key: map<string, int>) returns (u: string)
    requires rows != {} && rows <= key.Keys
    ensures u in rows && forall v :: v in rows ==> key[u] >= key[v]
  {
    u :| u in rows;
    if rows != {u} {
      var w := GreatestExists(rows - {u}, key);
      if key[w] > key[u] {
        u := w;
      }
    }
  }

  /** ORDER BY key DESC LIMIT count, as the database answers it. */
  method OrderBy(rows: set<string>, key: map<string, int>, count: nat) returns (out: seq<string>)
    requires rows <= key.Keys && count <= |rows|
    ensures |out| == count && NoDuplicates(out)
    ensures forall i :: 0 <= i < |out| ==> out[i] in rows
    ensures forall i, j :: 0 <= i < j < |out| ==> key[out[i]] >= key[out[j]]
    ensures forall u, i :: u in rows && u !in out && 0 <= i < |out| ==> key[out[i]] >= key[u]
  {
    out := [];
    var rest := rows;
    while |out| < count
      invariant |out| <= count && rest <= rows && |rest| == |rows| - |out|
      invariant NoDuplicates(out)
      invariant forall i :: 0 <= i < |out| ==> out[i] in rows && out[i] !in rest
      invariant forall u :: u in rows ==> u in rest || u in out
      invariant forall i, j :: 0 <= i < j < |out| ==> key[out[i]] >= key[out[j]]
      invariant forall i, u :: 0 <= i < |out| && u in rest ==> key[out[i]] >= key[u]
    {
      ghost var _ := GreatestExists(rest, key);
      var next :| next in rest && forall u :: u in rest ==> key[next] >= key[u];
      out := out + [next];
      rest := rest - {next};
    }
  }

  class Store {
    var tenants: Tenants
    var posts: map<PostKey, PostRow>
    var clients: map<string, ClientRow>
    var codes: map<string, CodeRow>
    var refreshTokens: map<string, RefreshRow>
    var loginStates: map<string, StateRow>

    function Snapshot(): Db
      reads this
    {
      Db(tenants, posts, clients, codes, refreshTokens, loginStates)
    }

    ghost predicate Valid()
      reads this
    {
      Consistent(Snapshot())
    }

    constructor ()
      ensures Valid() && Snapshot() == EMPTY
    {
      tenants, posts, clients := map[], map[], map[];
      codes, refreshTokens, loginStates := map[], map[], map[];
    }

    // ----- tenants -----

    /** Succeeds unless the database fails or a new member's id is taken; a known member's row is the only one
        touched, and keeps its key and creation time. */
    method UpsertTenant(t: Tenant, ok: bool) returns (done: bool)
      requires Valid()
      modifies this
      ensures Valid()
      ensures done <==> ok && old(Tables.UpsertTenant(tenants, t.id, ToRow(t))).Some?
      ensures done ==> Snapshot() == old(Snapshot()).(tenants := old(Tables.UpsertTenant(tenants, t.id,
          ToRow(t))).value)
      ensures !done ==> Snapshot() == old(Snapshot())
    {
      done := false;
      if ok {
        var r := ToRow(t);
        if id :| id in tenants && tenants[id].memberId == r.memberId {
          IdOfIs(tenants, id);
          tenants := tenants[id := Refreshed(tenants[id], r)];
          done := true;
        } else if t.id !in tenants {
          tenants := tenants[t.id := r];
          done := true;
        }
      }
    }

    method TenantById(id: string, ok: bool) returns (r: Result<Tenant>)
      ensures r == if !ok then Broken else match Tables.TenantById(tenants, id) case Some(t) => Ok(t)
          case None => NotFound
    {
      r := if !ok then Broken else if id in tenants then Ok(FromRow(id, tenants[id])) else NotFound;
    }

    method TenantByMember(memberId: string, ok: bool) returns (r: Result<Tenant>)
      requires Valid()
      ensures r == if !ok then Broken else match Tables.TenantByMember(tenants, memberId) case Some(t) => Ok(t)
          case None => NotFound
    {
      if !ok {
        r := Broken;
      } else if id :| id in tenants && tenants[id].memberId == memberId {
        IdOfIs(tenants, id);
        r := Ok(FromRow(id, tenants[id]));
      } else {
        r := NotFound;
      }
    }

    method ScanTenants(ids: seq<string>) returns (out: seq<Tenant>)
      requires forall i :: 0 <= i < |ids| ==> ids[i] in tenants
      ensures Ids(out) == ids && forall i :: 0 <= i < |out| ==> out[i] == FromRow(ids[i], tenants[ids[i]])
    {
      out := [];
      for n := 0 to |ids|
        invariant |out| == n
        invariant forall i :: 0 <= i < n ==> out[i] == FromRow(ids[i], tenants[ids[i]])
      {
        out := out + [FromRow(ids[n], tenants[ids[n]])];
      }
      assert Ids(out) == ids;
    }

    /** Lists exactly the tenants whose known deadline is in a second that is over by the first instant, and those of
        unknown deadline last updated in a second that is over by the second; soonest deadline first. */
    method TenantsDueForTokenRefresh(expiringBefore: int, uncheckedBefore: int,
                                     ok: bool) returns (r: Result<seq<Tenant>>)
      ensures if ok then r.Ok? && IsDueListing(tenants, expiringBefore, uncheckedBefore, r.value) else r == Broken
      ensures ok ==>
                forall id :: id in Ids(r.value) <==>
                  id in tenants
                  && var row := tenants[id];
                     || (0 < row.tokenExpiresAt && (row.tokenExpiresAt + 1) * SECOND <= expiringBefore)
                     || (row.tokenExpiresAt == 0 && (row.updatedAt + 1) * SECOND <= uncheckedBefore)
    {
      if !ok {
        return Broken;
      }
      var rows := DueIds(tenants, expiringBefore, uncheckedBefore);
      var ids := OrderBy(rows, map id | id in tenants :: -tenants[id].tokenExpiresAt, |rows|);
      NoDuplicatesCount(ids);
      SubsetCount(Elements(ids), rows);
      var due := ScanTenants(ids);
      forall id ensures id in Ids(due) <==> id in rows {
        assert id in Ids(due) <==> id in Elements(ids);
      }
      return Ok(due);
    }

    /** All of Tables.DeleteTenant or none of it. */
    method DeleteTenant(id: string, ok: bool) returns (done: bool)
      requires Valid()
      modifies this
      ensures Valid() && done == ok
      ensures Snapshot() == if ok then old(Tables.DeleteTenant(Snapshot(), id)) else old(Snapshot())
    {
      if ok {
        refreshTokens := map h | h in refreshTokens && refreshTokens[h].tenantId != id :: refreshTokens[h];
        codes := map c | c in codes && codes[c].tenantId != id :: codes[c];
        posts := map k | k in posts && k.0 != id :: posts[k];
        tenants := tenants - {id};
      }
      return ok;
    }

    // ----- post ledger -----

    method RecordPost(tenantId: string, urn: string, p: PostRow, ok: bool) returns (done: bool)
      requires Valid()
      modifies this`posts
      ensures Valid()
      ensures done <==> ok && tenantId in tenants
      ensures done ==> old(Tables.RecordPost(Snapshot(), tenantId, urn, p)) == Some(Snapshot())
      ensures !done ==> Snapshot() == old(Snapshot())
    {
      done := ok && tenantId in tenants;
      if done {
        var k := (tenantId, urn);
        if k in posts {
          posts := posts[k := posts[k].(commentary := p.commentary, visibility := p.visibility,
              permalink := p.permalink)];
        } else {
          posts := posts[k := p.(updatedAt := 0, deletedAt := 0)];
        }
      }
    }

    method MarkPostDeleted(tenantId: string, urn: string, at: Instant, ok: bool) returns (done: bool)
      requires Valid()
      modifies this`posts
      ensures Valid() && done == ok
      ensures Snapshot() == if ok then old(Tables.MarkPostDeleted(Snapshot(), tenantId, urn, at)) else old(Snapshot())
    {
      var k := (tenantId, urn);
      if ok && k in posts {
        posts := posts[k := posts[k].(deletedAt := Unix(at))];
      }
      return ok;
    }

    method UpdateLedgerCommentary(tenantId: string, urn: string, commentary: string, at: Instant, ok: bool)
      returns (done: bool)
      requires Valid()
      modifies this`posts
      ensures Valid() && done == ok
      ensures Snapshot() == if ok then old(Tables.UpdateLedgerCommentary(Snapshot(), tenantId, urn, commentary, at))
                            else old(Snapshot())
    {
      var k := (tenantId, urn);
      if ok && k in posts {
        posts := posts[k := posts[k].(commentary := commentary, updatedAt := Unix(at))];
      }
      return ok;
    }

    method LedgerPost(tenantId: string, urn: string, ok: bool) returns (r: Result<LedgerPost>)
      ensures r == if !ok then Broken
                   else match Tables.LedgerPost(Snapshot(), tenantId, urn)
                     case Some(row) => Ok(Scanned(urn, row))
                     case None => NotFound
    {
      var k := (tenantId, urn);
      r := if !ok then Broken else if k in posts then Ok(Scanned(urn, posts[k])) else NotFound;
    }

    method ScanPosts(tenantId: string, urns: seq<string>) returns (out: seq<LedgerPost>)
      requires forall i :: 0 <= i < |urns| ==> (tenantId, urns[i]) in posts
      ensures Urns(out) == urns && forall i :: 0 <= i < |out| ==> out[i] == Scanned(urns[i], posts[(tenantId, urns[i])])
    {
      out := [];
      for n := 0 to |urns|
        invariant |out| == n
        invariant forall i :: 0 <= i < n ==> out[i] == Scanned(urns[i], posts[(tenantId, urns[i])])
      {
        out := out + [Scanned(urns[n], posts[(tenantId, urns[n])])];
      }
      assert Urns(out) == urns;
    }

    /** Answers a listing in the sense of Tables.IsListing, each row as scanned. */
    method LedgerPosts(tenantId: string, includeDeleted: bool, limit: int,
                       ok: bool) returns (r: Result<seq<LedgerPost>>)
      ensures if ok then r.Ok? && IsScannedListing(Snapshot(), tenantId, includeDeleted, limit, r.value)
          else r == Broken
    {
      if !ok {
        return Broken;
      }
      var rows := Selected(Snapshot(), tenantId, includeDeleted);
      var urns := OrderBy(rows, map u | u in rows :: posts[(tenantId, u)].createdAt, Cap(limit, |rows|));
      var out := ScanPosts(tenantId, urns);
      return Ok(out);
    }

    // ----- OAuth clients -----

    method RegisterClient(clientId: string, c: ClientRow, ok: bool) returns (done: bool)
      requires Valid()
      modifies this`clients
      ensures Valid()
      ensures done <==> ok && clientId !in old(clients)
      ensures done ==> old(Tables.RegisterClient(Snapshot(), clientId, c)) == Some(Snapshot())
      ensures !done ==> Snapshot() == old(Snapshot())
    {
      done := ok && clientId !in clients;
      if done {
        clients := clients[clientId := c];
      }
    }

    method ClientById(clientId: string, ok: bool) returns (r: Result<ClientRow>)
      ensures r == if !ok then Broken else if clientId in clients then Ok(clients[clientId]) else NotFound
    {
      r := if !ok then Broken else if clientId in clients then Ok(clients[clientId]) else NotFound;
    }

    // ----- authorization codes -----

    method CreateAuthCode(code: string, c: CodeRow, ok: bool) returns (done: bool)
      requires Valid()
      modifies this`codes
      ensures Valid()
      ensures done <==> ok && code !in old(codes)
      ensures done ==> old(Tables.CreateAuthCode(Snapshot(), code, c)) == Some(Snapshot())
      ensures !done ==> Snapshot() == old(Snapshot())
    {
      done := ok && code !in codes;
      if done {
        codes := codes[code := c];
      }
    }

    /** If the statement runs, the code is not in the table afterwards, whether it was before or not. */
    method ConsumeAuthCode(code: string, ok: bool) returns (r: Result<CodeRow>)
      requires Valid()
      modifies this`codes
      ensures Valid()
      ensures r == if !ok then Broken else if code in old(codes) then Ok(old(codes)[code]) else NotFound
      ensures Snapshot() == if ok then old(Tables.ConsumeAuthCode(Snapshot(), code)) else old(Snapshot())
      ensures ok ==> code !in codes
    {
      if !ok {
        return Broken;
      }
      if code !in codes {
        assert codes - {code} == codes;
        return NotFound;
      }
      r := Ok(codes[code]);
      codes := codes - {code};
    }

    // ----- refresh tokens -----

    method CreateRefreshToken(hash: string, row: RefreshRow, ok: bool) returns (done: bool)
      requires Valid()
      modifies this`refreshTokens
      ensures Valid()
      ensures done <==> ok && hash !in old(refreshTokens)
      ensures done ==> old(Tables.CreateRefreshToken(Snapshot(), hash, row)) == Some(Snapshot())
      ensures !done ==> Snapshot() == old(Snapshot())
    {
      done := ok && hash !in refreshTokens;
      if done {
        refreshTokens := refreshTokens[hash := row.(revoked := false)];
      }
    }

    /** Answers with the row exactly if it is Rotatable; if the statement runs, it is not Rotatable afterwards. */
    method RotateRefreshToken(hash: string, now: int, ok: bool) returns (r: Result<RefreshRow>)
      requires Valid()
      modifies this`refreshTokens
      ensures Valid()
      ensures r == if !ok then Broken
                   else if old(Rotatable(Snapshot(), hash, now)) then Ok(old(refreshTokens)[hash].(revoked := true))
                   else NotFound
      ensures Snapshot() == if ok then old(Tables.RotateRefreshToken(Snapshot(), hash, now)) else old(Snapshot())
      ensures ok ==> !Rotatable(Snapshot(), hash, now)
    {
      if !ok {
        return Broken;
      }
      if Rotatable(Snapshot(), hash, now) {
        refreshTokens := refreshTokens[hash := refreshTokens[hash].(revoked := true)];
        return Ok(refreshTokens[hash]);
      }
      return NotFound;
    }

    /** Exactly the other tenants' tokens can still be rotated, at any time. */
    method RevokeTenantRefreshTokens(tenantId: string, ok: bool) returns (done: bool)
      requires Valid()
      modifies this`refreshTokens
      ensures Valid() && done == ok
      ensures Snapshot() == if ok then old(Tables.RevokeTenantRefreshTokens(Snapshot(), tenantId)) else old(Snapshot())
      ensures ok ==>
                forall h, now :: Rotatable(Snapshot(), h, now) <==>
                                 Rotatable(old(Snapshot()), h, now) && old(refreshTokens)[h].tenantId != tenantId
    {
      if ok {
        refreshTokens := map h | h in refreshTokens ::
                           if refreshTokens[h].tenantId == tenantId then refreshTokens[h].(revoked := true)
                               else refreshTokens[h];
      }
      return ok;
    }

    // ----- login states -----

    method CreateLoginState(state: string, row: StateRow, ok: bool) returns (done: bool)
      requires Valid()
      modifies this`loginStates
      ensures Valid()
      ensures done <==> ok && state !in old(loginStates)
      ensures done ==> old(Tables.CreateLoginState(Snapshot(), state, row)) == Some(Snapshot())
      ensures !done ==> Snapshot() == old(Snapshot())
    {
      done := ok && state !in loginStates;
      if done {
        loginStates := loginStates[state := row];
      }
    }

    /** If the statement runs, the state is not in the table afterwards, whether it was before or not. */
    method ConsumeLoginState(state: string, ok: bool) returns (r: Result<StateRow>)
      requires Valid()
      modifies this`loginStates
      ensures Valid()
      ensures r == if !ok then Broken else if state in old(loginStates) then Ok(old(loginStates)[state]) else NotFound
      ensures Snapshot() == if ok then old(Tables.ConsumeLoginState(Snapshot(), state)) else old(Snapshot())
      ensures ok ==> state !in loginStates
    {
      if !ok {
        return Broken;
      }
      if state !in loginStates {
        assert loginStates - {state} == loginStates;
        return NotFound;
      }
      r := Ok(loginStates[state]);
      loginStates := loginStates - {state};
    }

    // ----- housekeeping -----

    /** When it gets through, exactly the rows whose deadline lies ahead are left, as they were; wherever it fails
        (`fails` is the statement, if below 3), no such row is lost. */
    method PurgeExpired(now: int, fails: nat) returns (done: bool)
      requires Valid()
      modifies this`codes, this`loginStates, this`refreshTokens
      ensures Valid() && done == (3 <= fails)
      ensures Snapshot() == old(Purged(Snapshot(), now, fails))
      ensures forall c :: c in old(codes) && now < old(codes)[c].expiresAt * SECOND ==>
                            c in codes && codes[c] == old(codes)[c]
      ensures forall x :: x in old(loginStates) && now < old(loginStates)[x].expiresAt * SECOND ==>
                            x in loginStates && loginStates[x] == old(loginStates)[x]
      ensures forall h :: h in old(refreshTokens) && now < old(refreshTokens)[h].expiresAt * SECOND ==>
                            h in refreshTokens && refreshTokens[h] == old(refreshTokens)[h]
      ensures done ==>
                && (forall c :: c in codes ==> c in old(codes) && now < codes[c].expiresAt * SECOND)
                && (forall x :: x in loginStates ==> x in old(loginStates) && now < loginStates[x].expiresAt * SECOND)
                && forall h :: h in refreshTokens ==>
                     h in old(refreshTokens) && now < refreshTokens[h].expiresAt * SECOND
    {
      if fails == 0 { return false; }
      codes := map c | c in codes && !(codes[c].expiresAt <= Unix(now)) :: codes[c];
      if fails == 1 { return false; }
      loginStates := map x | x in loginStates && !(loginStates[x].expiresAt <= Unix(now)) :: loginStates[x];
      if fails == 2 { return false; }
      refreshTokens := map h | h in refreshTokens && !(refreshTokens[h].expiresAt <= Unix(now)) :: refreshTokens[h];
      return true;
    }
  }

  /** The first n statements of a purge. */
  function Purged(db: Db, now: int, n: nat): Db {
    if n == 0 then db
    else if n == 1 then PurgeCodes(db, now)
    else if n == 2 then PurgeLoginStates(PurgeCodes(db, now), now)
    else PurgeRefreshTokens(PurgeLoginStates(PurgeCodes(db, now), now), now)
  }
}
