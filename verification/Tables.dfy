/** The database: its six tables as maps from primary key to row, and what each
    SQL statement of the program does to them. One connection serves the whole
    program, so a statement is one atomic step.
  */
module Tables {
  import opened Base
  import Scopes

  // ----- rows; every time is in whole seconds -----

  datatype TenantRow = TenantRow(
    memberId: string, displayName: string, headline: string,
    accessToken: string, refreshToken: string,
    tokenExpiresAt: int, scopes: string, createdAt: int, updatedAt: int)

  datatype PostRow = PostRow(
    commentary: string, visibility: string, permalink: string,
    createdAt: int, updatedAt: int, deletedAt: int)
  {
    predicate Deleted() { deletedAt > 0 }
  }

  datatype ClientRow = ClientRow(name: string, redirectUris: seq<string>, createdAt: int)

  datatype CodeRow = CodeRow(
    clientId: string, tenantId: string, redirectUri: string,
    codeChallenge: string, resource: string, expiresAt: int)

  datatype RefreshRow = RefreshRow(clientId: string, tenantId: string, expiresAt: int, revoked: bool)

  datatype OAuthRequest = OAuthRequest(
    clientId: string, redirectUri: string, codeChallenge: string,
    clientState: string, resource: string)

  datatype StateRow = StateRow(request: OAuthRequest, expiresAt: int)

  type Tenants = map<string, TenantRow>
  type PostKey = (string, string)  // tenant id, post URN

  datatype Db = Db(
    tenants: Tenants,
    posts: map<PostKey, PostRow>,
    clients: map<string, ClientRow>,
    codes: map<string, CodeRow>,
    refreshTokens: map<string, RefreshRow>,
    loginStates: map<string, StateRow>)

  const EMPTY: Db := Db(map[], map[], map[], map[], map[], map[])

  /** The UNIQUE constraint on member_id, the foreign key of posts, and no deletion before the epoch. */
  ghost predicate Consistent(db: Db) {
    && OnePerMember(db.tenants)
    && forall k :: k in db.posts ==> k.0 in db.tenants && 0 <= db.posts[k].deletedAt
  }

  ghost predicate OnePerMember(tenants: Tenants) {
    forall a, b :: a in tenants && b in tenants && tenants[a].memberId == tenants[b].memberId ==> a == b
  }

  // ----- tenants -----

  /** A tenant as the program holds it: full-precision times, parsed scopes. */
  datatype Tenant = Tenant(
    id: string, memberId: string, displayName: string, headline: string,
    accessToken: string, refreshToken: string,
    tokenExpiresAt: Option<int>, scopes: seq<string>, createdAt: int, updatedAt: int)
  {
    function MemberURN(): string { "urn:li:person:" + memberId }
  }

  function ToRow(t: Tenant): TenantRow {
    TenantRow(t.memberId, t.displayName, t.headline, t.accessToken, t.refreshToken,
              UnixOrZero(t.tokenExpiresAt), Scopes.Join(t.scopes), Unix(t.createdAt), Unix(t.updatedAt))
  }

  function FromRow(id: string, r: TenantRow): Tenant {
    Tenant(id, r.memberId, r.displayName, r.headline, r.accessToken, r.refreshToken,
           TimeOrZero(r.tokenExpiresAt), Scopes.Fields(r.scopes), r.createdAt * SECOND, r.updatedAt * SECOND)
  }

  /** What INSERT ... ON CONFLICT(member_id) DO UPDATE leaves of an existing row. */
  function Refreshed(old_: TenantRow, r: TenantRow): TenantRow {
    old_.(displayName := r.displayName, headline := r.headline,
          accessToken := r.accessToken, refreshToken := r.refreshToken,
          tokenExpiresAt := r.tokenExpiresAt, scopes := r.scopes, updatedAt := r.updatedAt)
  }

  ghost function IdOf(tenants: Tenants, memberId: string): Option<string> {
    if exists id :: id in tenants && tenants[id].memberId == memberId then
      var id :| id in tenants && tenants[id].memberId == memberId;
      Some(id)
    else None
  }

  lemma IdOfIs(tenants: Tenants, id: string)
    requires OnePerMember(tenants) && id in tenants
    ensures IdOf(tenants, tenants[id].memberId) == Some(id)
  {
  }

  /** The upsert, keyed on the member; None is a primary key violation. */
  ghost function UpsertTenant(tenants: Tenants, id: string, r: TenantRow): Option<Tenants> {
    match IdOf(tenants, r.memberId)
    case Some(i) => if i in tenants then Some(tenants[i := Refreshed(tenants[i], r)]) else None
    case None => if id in tenants then None else Some(tenants[id := r])
  }

  function TenantById(tenants: Tenants, id: string): Option<Tenant> {
    if id in tenants then Some(FromRow(id, tenants[id])) else None
  }

  ghost function TenantByMember(tenants: Tenants, memberId: string): Option<Tenant> {
    match IdOf(tenants, memberId)
    case Some(i) => if i in tenants then Some(FromRow(i, tenants[i])) else None
    case None => None
  }

  predicate Due(r: TenantRow, expiringBefore: int, uncheckedBefore: int) {
    || 0 < r.tokenExpiresAt < Unix(expiringBefore)
    || (r.tokenExpiresAt == 0 && r.updatedAt < Unix(uncheckedBefore))
  }

  function DueIds(tenants: Tenants, expiringBefore: int, uncheckedBefore: int): set<string> {
    set id | id in tenants && Due(tenants[id], expiringBefore, uncheckedBefore)
  }

  function DeleteTenant(db: Db, id: string): Db {
    db.(tenants := db.tenants - {id},
        posts := map k | k in db.posts && k.0 != id :: db.posts[k],
        codes := map c | c in db.codes && db.codes[c].tenantId != id :: db.codes[c],
        refreshTokens := map h | h in db.refreshTokens && db.refreshTokens[h].tenantId != id :: db.refreshTokens[h])
  }

  // ----- post ledger -----

  /** Recording is refused for an unknown tenant by the foreign key; on an existing
      row it keeps the creation time, the edit time and the tombstone. */
  function RecordPost(db: Db, tenantId: string, urn: string, p: PostRow): Option<Db> {
    var k := (tenantId, urn);
    if tenantId !in db.tenants then None
    else if k in db.posts then
      Some(db.(posts := db.posts[k := db.posts[k].(commentary := p.commentary, visibility := p.visibility,
                                                   permalink := p.permalink)]))
    else Some(db.(posts := db.posts[k := p.(updatedAt := 0, deletedAt := 0)]))
  }

  function MarkPostDeleted(db: Db, tenantId: string, urn: string, at: Instant): Db {
    var k := (tenantId, urn);
    if k in db.posts then db.(posts := db.posts[k := db.posts[k].(deletedAt := Unix(at))]) else db
  }

  function UpdateLedgerCommentary(db: Db, tenantId: string, urn: string, commentary: string, at: Instant): Db {
    var k := (tenantId, urn);
    if k in db.posts
    then db.(posts := db.posts[k := db.posts[k].(commentary := commentary, updatedAt := Unix(at))])
    else db
  }

  function LedgerPost(db: Db, tenantId: string, urn: string): Option<PostRow> {
    if (tenantId, urn) in db.posts then Some(db.posts[(tenantId, urn)]) else None
  }

  /** The URNs a listing may show. */
  function Selected(db: Db, tenantId: string, includeDeleted: bool): set<string> {
    set k | k in db.posts && k.0 == tenantId && (includeDeleted || db.posts[k].deletedAt == 0) :: k.1
  }

  /** SQL's LIMIT: a negative limit is no limit. */
  function Cap(limit: int, available: nat): nat {
    if 0 <= limit < available then limit else available
  }

  /** urns is an answer to ORDER BY created_at DESC LIMIT limit; SQL leaves the order
      of rows created in the same second open. */
  ghost predicate IsListing(db: Db, tenantId: string, includeDeleted: bool, limit: int, urns: seq<string>) {
    var rows := Selected(db, tenantId, includeDeleted);
    && NoDuplicates(urns)
    && (forall i :: 0 <= i < |urns| ==> urns[i] in rows)
    && |urns| == Cap(limit, |rows|)
    && (forall i, j :: 0 <= i < j < |urns| ==>
          db.posts[(tenantId, urns[i])].createdAt >= db.posts[(tenantId, urns[j])].createdAt)
    && forall u, i :: u in rows && u !in urns && 0 <= i < |urns| ==>
         db.posts[(tenantId, urns[i])].createdAt >= db.posts[(tenantId, u)].createdAt
  }

  // ----- OAuth clients, codes, refresh tokens and login states -----

  function RegisterClient(db: Db, clientId: string, c: ClientRow): Option<Db> {
    if clientId in db.clients then None else Some(db.(clients := db.clients[clientId := c]))
  }

  function CreateAuthCode(db: Db, code: string, c: CodeRow): Option<Db> {
    if code in db.codes then None else Some(db.(codes := db.codes[code := c]))
  }

  function ConsumeAuthCode(db: Db, code: string): Db {
    db.(codes := db.codes - {code})
  }

  function CreateRefreshToken(db: Db, hash: string, r: RefreshRow): Option<Db> {
    if hash in db.refreshTokens then None
    else Some(db.(refreshTokens := db.refreshTokens[hash := r.(revoked := false)]))
  }

  predicate Rotatable(db: Db, hash: string, now: int) {
    hash in db.refreshTokens && !db.refreshTokens[hash].revoked && db.refreshTokens[hash].expiresAt > Unix(now)
  }

  function RotateRefreshToken(db: Db, hash: string, now: int): Db {
    if Rotatable(db, hash, now)
    then db.(refreshTokens := db.refreshTokens[hash := db.refreshTokens[hash].(revoked := true)])
    else db
  }

  function RevokeTenantRefreshTokens(db: Db, tenantId: string): Db {
    db.(refreshTokens := map h | h in db.refreshTokens ::
                           if db.refreshTokens[h].tenantId == tenantId then db.refreshTokens[h].(revoked := true)
                           else db.refreshTokens[h])
  }

  function CreateLoginState(db: Db, state: string, r: StateRow): Option<Db> {
    if state in db.loginStates then None else Some(db.(loginStates := db.loginStates[state := r]))
  }

  function ConsumeLoginState(db: Db, state: string): Db {
    db.(loginStates := db.loginStates - {state})
  }

  // ----- housekeeping: three separate statements -----

  function PurgeCodes(db: Db, now: int): Db {
    db.(codes := map c | c in db.codes && !(db.codes[c].expiresAt <= Unix(now)) :: db.codes[c])
  }

  function PurgeLoginStates(db: Db, now: int): Db {
    db.(loginStates := map s | s in db.loginStates && !(db.loginStates[s].expiresAt <= Unix(now)) :: db.loginStates[s])
  }

  function PurgeRefreshTokens(db: Db, now: int): Db {
    db.(refreshTokens := map h | h in db.refreshTokens
        && !(db.refreshTokens[h].expiresAt <= Unix(now)) :: db.refreshTokens[h])
  }

  // ----- what is read back -----

  /** A tenant with its times cut to whole seconds. */
  function InWholeSeconds(t: Tenant): Tenant {
    t.(tokenExpiresAt := TimeOrZero(UnixOrZero(t.tokenExpiresAt)),
       createdAt := Unix(t.createdAt) * SECOND, updatedAt := Unix(t.updatedAt) * SECOND)
  }

  /** Storing a tenant and reading it back changes nothing but fractions of a second exactly when its scopes are
      words. */
  lemma TenantReadsBack(t: Tenant)
    ensures FromRow(t.id, ToRow(t)) == InWholeSeconds(t) <==> Scopes.AllWords(t.scopes)
  {
    Scopes.FieldsAreWords(Scopes.Join(t.scopes));
    if Scopes.AllWords(t.scopes) {
      Scopes.JoinThenParse(t.scopes);
    }
  }

  // ----- what the statements that touch many rows leave -----

  /** Nothing of the tenant is left, and everything else is untouched. */
  lemma DeletionIsComplete(db: Db, id: string)
    ensures var after := DeleteTenant(db, id);
            && id !in after.tenants && after.clients == db.clients && after.loginStates == db.loginStates
            && (forall i :: i in db.tenants && i != id ==> i in after.tenants && after.tenants[i] == db.tenants[i])
            && (forall k :: k in after.posts <==> k in db.posts && k.0 != id)
            && (forall k :: k in after.posts ==> after.posts[k] == db.posts[k])
            && (forall c :: c in after.codes <==> c in db.codes && db.codes[c].tenantId != id)
            && (forall c :: c in after.codes ==> after.codes[c] == db.codes[c])
            && (forall h :: h in after.refreshTokens <==> h in db.refreshTokens && db.refreshTokens[h].tenantId != id)
            && (forall h :: h in after.refreshTokens ==> after.refreshTokens[h] == db.refreshTokens[h])
  {
  }

  /** No refresh token of the tenant can be rotated any more, and no other is affected. */
  lemma RevocationIsComplete(db: Db, tenantId: string, hash: string, now: int)
    ensures Rotatable(RevokeTenantRefreshTokens(db, tenantId), hash, now) <==>
            Rotatable(db, hash, now) && db.refreshTokens[hash].tenantId != tenantId
  {
  }

  /** A purge drops exactly the rows whose deadline has passed at its instant. */
  lemma PurgeDropsTheExpired(db: Db, now: int, k: string)
    ensures k in PurgeCodes(db, now).codes <==> k in db.codes && now < db.codes[k].expiresAt * SECOND
    ensures k in PurgeLoginStates(db, now).loginStates
        <==> k in db.loginStates && now < db.loginStates[k].expiresAt * SECOND
    ensures k in PurgeRefreshTokens(db, now).refreshTokens <==>
            k in db.refreshTokens && now < db.refreshTokens[k].expiresAt * SECOND
  {
  }
}
