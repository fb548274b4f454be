# A verified model of linkedin-mcp

linkedin-mcp is a multi-tenant server that lets MCP clients act on their owner's LinkedIn account. It is its own OAuth 2.1
authorization server, keeps a ledger of the posts it published, and stores everything in one SQLite file. This project models
its logic in Dafny and proves what that logic keeps.

`dafny verify dfyconfig.toml` checks the whole project.

## How the model is built

One connection serves the database, so a SQL statement is one atomic step. `Tables` says what each statement does to the
tables; `Store` is the store itself, a class whose methods are proved against `Tables`. A handler is a sequence of statements
with checks in between. `Protocol` (OAuth) and `Posts` (post tools) give each step of each handler; `AuthServer`, `Logins` and
`PostService` are the handlers, statement by statement, proved to be those steps one after the other; `Machine` and
`PostMachine` interleave the steps of any number of handlers in any order.

| files | subject |
|---|---|
| Base, Scopes, Tables, Store | times, scope lists, rows, statements, the store |
| Protocol, Machine, Identities, Redirects, Invariants, Derivation, Purging, Lifetimes, AuthServer, Races | the OAuth grants under every interleaving |
| Logins | logins, tenant identity, the renewal sweep |
| Posts, PostMachine, Lifecycle, Ledger, Agreement, Quiet, Listings, PostService | the post tools, the ledger, LinkedIn |
| Analytics, Migrations | post statistics, the migration runner |
| Base64, Jwt, Urn | codecs |

What comes from outside enters as parameters or as part of an event: clock readings, random secrets, whether the database
executes a statement, LinkedIn's answers. Times in memory are nanoseconds, times in tables are whole seconds, and every comparison is between the
two kinds the program compares. Hypotheses, each stated where it is used:

- a random secret was not drawn before, and the hash of a new refresh token differs from those of earlier ones;
- tenant ids are never empty, and no two members' logins draw the same one;
- the clock does not go back and is at least one second after the epoch; token lifetimes are positive, as the configuration
  demands;
- SHA-256, HMAC, JSON, text trimming and upper-casing are functions; for tokens, JSON decoding undoes encoding and neither a
  JSON object nor a MAC is empty;
- LinkedIn gives a created post a new URN, edits only a live post, deletes idempotently, and a call it answers with a
  failure has had no effect; this server is the only writer.

## What the proofs show that the code's comments do not say

- Two first logins of one member that both look the member up before either stores it send the second client a code for a
  tenant id under which nothing is stored (`Races.InterleavedFirstLogins`). `Logins.HandedOutIdIsStored` says exactly when the id handed out is the
  stored one; back to back, it always is.
- A token purge between a rotation's clock reading and its statement can turn a success into a refusal.
  `Purging.PurgingIsUnobservable` says for whole runs exactly when purging is unobservable.
- `expires_in` is truncated towards zero, so an answer that leaves after the second of the expiry advertises an end more than a
  second off (`Jwt.AdvertisedLifetime` is the exact condition, `Jwt.LateAnswerIsFurtherOff` an example).
- The URN encoder leaves `%` alone: it can be undone exactly for URNs without one, and two different URNs with one can collide.
- Two edits of one post whose calls and ledger writes cross leave the ledger with a text LinkedIn does not have
  (`Agreement.CrossedEditsDisagree`). In general the two disagree on a live post exactly when the ledger last followed with
  another text than LinkedIn was last given (`Quiet.QuietMeansAgreement`); edits that do not overlap cannot.
- An edit that found its post before a deletion was recorded still reaches LinkedIn afterwards; nothing else does
  (`Lifecycle.UntouchedExactlyWhenBuried`).
- A login between the sweep's listing and the renewal of the same tenant loses its LinkedIn token to the renewal
  (`Logins.RenewalLosesLogin` says exactly when).
- A failed edit or deletion is mended by repeating it; a publication whose recording failed is never recorded by anything
  later (`Agreement.StrayForever`).
- `connection_status` and `list_posts` count the same live posts exactly when no tombstone is among the newest 100 rows or no
  live post is beyond them.
- A migration with a name that does not come after all earlier ones breaks the order of the log, and only then.

## Model

| member | source | states |
|---|---|---|
| `Derivation.LinearDerivation` | internal/adapters/sqlite/store.go:378-480 | In every run of every interleaving a login state yields at most one code, a code at most one first refresh token, a refresh token at most one successor; live refresh tokens plus unfinished token answers never outnumber the codes redeemed |
| `Derivation.Provenance` | internal/adapters/authserver/token.go:71-175 | In every run, an answer with tokens goes back through its chain to one code: same subject and client, code from a consumed `/authorize` state of a registered client with a registered redirect URI, challenge equal to the digest of the presented verifier, tenant the one that login returned |
| `Derivation.DeliveredTokenVerifies` | internal/adapters/authserver/jwt.go:52-123 | In every run the access token of an answer verifies to exactly the claims of its provenance until their whole-second deadline, and to nothing after; lifetimes are positive, as the configuration demands |
| `Derivation.RunKeepsInv` | internal/adapters/authserver/token.go:53-175 | The invariant behind both (each login state, code and chain has one holder) survives every event of every handler |
| `Derivation.HeadsWithinRedeemed` | internal/adapters/sqlite/store.go:402-433 | Counting: every live refresh token and every unfinished answer belongs to a different redeemed code |
| `Derivation.FirstOfIsRooted` | internal/adapters/authserver/token.go:113-140 | Following a chain of rotations back always ends at a token issued for a code, the chain's root |
| `Invariants.CodeRedeemed` | internal/adapters/sqlite/store.go:378-397 | Redeeming a code keeps the chain invariant and leaves the code free to root exactly one chain |
| `Invariants.TokenIssued` | internal/adapters/authserver/token.go:157-167 | Storing the next refresh token of a thread keeps one head per chain and no source used twice |
| `Invariants.CodeRecorded` | internal/adapters/authserver/server.go:72-93 | Issuing a code keeps every code tied to the request, login state and tenant it came from |
| `Derivation.HousekeepingKeeps` | internal/adapters/sqlite/store.go:436-498 | Renewals, deletions, revocations and purges start no chain and revive nothing |
| `Purging.PurgingIsUnobservable` | internal/adapters/sqlite/store.go:486-498 | Purges inserted anywhere into a run leave a run in which every request gets the same answer if and only if no rotation presents a token that an earlier token purge found expired although, by the rotation's own clock reading, it was not |
| `Purging.PromptPurgingIsUnobservable` | internal/adapters/authserver/token.go:122-127 | So purging is unobservable in every run whose rotations read the clock in the second of their statement |
| `Purging.LatePurgeIsObservable` | internal/adapters/authserver/token.go:122-127 | One token purge right before a rotation changes its answer if and only if the token is live and its deadline lies after the second of the reading and not after that of the purge |
| `Purging.ExchangeAlike` | internal/adapters/authserver/token.go:73-86 | Redeeming a code answers the same whether an expired row is still there or already purged |
| `Purging.RefreshAlike` | internal/adapters/sqlite/store.go:414-433 | Rotating a token answers the same in both cases if and only if it is not such a token |
| `Purging.CallbackAlike` | internal/app/login.go:106-115 | Consuming a login state answers the same in both cases |
| `Protocol.AuthorizeOutcome` | internal/adapters/authserver/authorize.go:16-92 | A request is parked if and only if client, registered redirect URI, response type, S256 challenge and resource are right; an error is redirected only to a registered URI |
| `Protocol.AuthorizeRefusals` | internal/adapters/authserver/authorize.go:16-92 | The exact condition of each refusal; only a trusted redirect URI is told what is wrong with its request |
| `Protocol.RegisterOutcome` | internal/adapters/authserver/register.go:49-81 | Registered if and only if one to ten URIs all pass and the id is unused; stored are the name, the URIs and the second; nothing else changes |
| `Redirects.RunKeepsClients` | internal/adapters/authserver/register.go:49-81 | After every run every stored client has one to ten URIs that all passed validation, and no client that was there has changed |
| `Redirects.NoOpenRedirect` | internal/adapters/linkedin/handlers.go:86-139 | In every run of every interleaving each answer that sends a browser to a client, with a code or an error, sends it to a URI that passed validation |
| `Protocol.CallbackOutcome` | internal/adapters/linkedin/handlers.go:56-105 | A callback burns its state whenever it finds it, goes on if and only if the state is alive and LinkedIn sent a code, and redirects if and only if LinkedIn refused a live state of a waiting client: as `access_denied`, to that client |
| `Protocol.CallbackPages` | internal/adapters/linkedin/handlers.go:56-105 | The exact condition of each page it answers instead |
| `Protocol.ExchangeOutcome` | internal/adapters/authserver/token.go:53-109 | Once the statement runs, exactly the presented code leaves the table, whatever the answer; before that nothing changes. Tokens are issued if and only if code, deadline, client, redirect URI, verifier and resource all fit |
| `Protocol.ExchangeRefusals` | internal/adapters/authserver/token.go:53-109 | The exact condition of each refusal |
| `Protocol.RefreshOutcome` | internal/adapters/authserver/token.go:113-140 | A live token that is presented is revoked, whoever presents it, and nothing else changes; tokens are issued if and only if it was issued to this client |
| `Protocol.RefreshRefusals` | internal/adapters/authserver/token.go:113-140 | The exact condition of each refusal |
| `Protocol.IssueOutcome` | internal/adapters/authserver/token.go:144-175 | Tokens go out if and only if their refresh token was stored under its hash, live, for the same tenant and client; the claims are this server's, for this tenant and client, with both instants cut to seconds; nothing else changes |
| `Protocol.AnswerLifetime` | internal/adapters/authserver/token.go:168-174 | `expires_in` of the answer is the time its claims have left, cut towards zero; if it is not negative, the end the client computes is less than a second off the deadline in the claims if and only if the answer leaves no later than the second of that deadline |
| `Lifetimes.ParkedLoginLives` | internal/app/login.go:106-115 | A parked login is accepted exactly until the whole second of its deadline, with its own request, and only once |
| `Lifetimes.LinkLives` | internal/app/service.go:157-171 | So is a reconnection link, with no client, unless its state could not be stored |
| `Lifetimes.NotStored` | internal/adapters/authserver/authorize.go:76-92 | A login or code that could not be stored leaves nothing behind and is answered by an error |
| `Lifetimes.CodeLives` | internal/adapters/authserver/token.go:71-108 | An issued code is redeemed exactly until the whole second of its deadline, for its tenant, and a replay is refused |
| `Lifetimes.RefreshTokenLives` | internal/adapters/authserver/token.go:122-139 | An issued refresh token rotates exactly until the whole second of its deadline, and only once |
| `Lifetimes.CodeIsSpent` | internal/adapters/authserver/token.go:71-76 | However a code was presented first, every later well-formed request for it is refused as `invalid_grant` and changes nothing: a verifier can be tried once |
| `Lifetimes.TokenIsSpent` | internal/adapters/authserver/token.go:122-137 | However a live refresh token was presented first, every later rotation of it is refused |
| `Lifetimes.DeadlineRounding` | internal/adapters/sqlite/store.go:363-374 | The deadline stored with a login state, a code or a refresh token is less than one second short of its lifetime and never beyond it |
| `Lifetimes.RegisteredClientMayAsk` | internal/adapters/sqlite/store.go:323-358 | A client that registered may ask for a code at every URI it registered, and at no other |
| `AuthServer.AuthServer.GrantAuthorizationCode` | internal/adapters/authserver/token.go:53-109 | The handler over the store: tokens if and only if every condition holds; once the statement runs the code is gone whatever the answer, and nothing else changes but for the new refresh token |
| `AuthServer.AuthServer.GrantRefreshToken` | internal/adapters/authserver/token.go:113-140 | Likewise for rotation: a live token that is presented is revoked whatever the answer, and nothing else changes but for the new one |
| `AuthServer.AuthServer.IssueTokens` | internal/adapters/authserver/token.go:144-175 | Stores the next refresh token before handing out the pair; claims, refresh token and `expires_in` as above |
| `AuthServer.AuthServer.Authorize` | internal/adapters/authserver/authorize.go:16-97 | Checks in the code's order, then parks; the way to the login is open if and only if client, URI, challenge and resource are right and the request was parked, which it is as it came |
| `AuthServer.AuthServer.Register` | internal/adapters/authserver/register.go:35-95 | A client is stored if and only if it names one to ten acceptable redirect URIs and the insert succeeds; what the row says |
| `AuthServer.AuthServer.AllowsRedirectURI` | internal/domain/tenant.go:96-103 | Exact match against the registered list |
| `AuthServer.AuthServer.IssueAuthCode` | internal/adapters/authserver/server.go:72-93 | The code sent to the client can be redeemed by that client, with its verifier and redirect URI, for this tenant, exactly until the whole second of its deadline |
| `AuthServer.AuthServer.ReconnectURL` | internal/app/service.go:157-171 | Whatever callback comes back with the state of the link, in whatever circumstances, ends on a page: no client is redirected to and no code follows |
| `AuthServer.ReconnectionEndsOnAPage` | internal/adapters/linkedin/handlers.go:82-128 | A callback for a parked request without a client ends on a page |
| `AuthServer.Handlers.Callback` | internal/adapters/linkedin/handlers.go:56-139 | The whole callback is its four steps in order |
| `AuthServer.Handlers.Finish` | internal/adapters/linkedin/handlers.go:107-137 | Completing the login, then a page for a reconnection or a code for a waiting client |
| `AuthServer.CallbackSendsCode` | internal/adapters/linkedin/handlers.go:66-137 | A code is sent only for a state that was alive and is now gone, to the parked redirect URI, with the parked challenge, for the member's own stored tenant |
| `AuthServer.CallbackEnds` | internal/adapters/linkedin/handlers.go:56-139 | The converse: a callback sends a code if and only if the state was alive for a waiting client, LinkedIn sent a code, the member was identified and allowed, and login and code were stored; the exact conditions of the error pages |
| `AuthServer.LoginRunOutcome` | internal/app/login.go:52-93 | When a login ends how; it changes tenants only |
| `AuthServer.CompleteIsLoginRun` | internal/app/login.go:79-92 | A completed login leaves what its lookup and its upsert leave |
| `AuthServer.CodeGrantIsTwoEvents` | internal/adapters/authserver/token.go:73-108 | An undisturbed code request is two neighbouring events of the machine, same tables and same answer |
| `AuthServer.RefreshGrantIsTwoEvents` | internal/adapters/authserver/token.go:122-139 | So is a refresh request |
| `Races.InterleavedFirstLogins` | internal/app/login.go:79-92 | From every reachable state with two callbacks that identified the same new member, the run goes on so that the second client is sent a code for a tenant id under which nothing is stored, while the member has the other |
| `Races.UndisturbedLoginIsExact` | internal/app/login.go:79-92 | If the member's row did not change between lookup and upsert, the id handed out is the stored one |
| `Logins.AdoptsRow` | internal/app/login.go:79-86 | A returning member is stored under the id and creation time of the row it has, and nothing else of the login changes |
| `Logins.HandedOutIdIsStored` | internal/adapters/sqlite/store.go:80-91 | The id a login hands out is the stored one if and only if, at the upsert, the member had no row or had it under that id |
| `Logins.AtomicCompleteIsExact` | internal/app/login.go:79-92 | Lookup and upsert back to back always hand out the stored id, and fail only on a primary key clash |
| `Identities.RunKeepsIdentities` | internal/adapters/sqlite/store.go:80-91 | In every run of every interleaving of the handlers a member has one row, and short of a deletion no row goes or changes its id, its member or its creation time |
| `Identities.RunKeepsNames` | internal/app/service.go:86-103 | In every run no tenant id, stored or handed on, is empty |
| `Logins.IdentityIsStable` | internal/adapters/sqlite/store.go:80-91 | The same for any sequence of upserts |
| `Logins.ReconnectKeepsSubject` | internal/app/login.go:65-92 | A subject handed out earlier still resolves to the same member after any such mix, and after a reconnection carries the new LinkedIn token |
| `Logins.UpsertedId` | internal/adapters/sqlite/store.go:68-100 | Where an upsert puts a member, whatever id it was called with |
| `Logins.PutAt` | internal/adapters/sqlite/store.go:80-91 | An upsert puts its row over the member's own, whose creation time it keeps, or under the given id, and touches no other |
| `Logins.LoginService.Complete` | internal/app/login.go:52-93 | When a login succeeds, is forbidden or fails; then exactly the member's row changes: it carries the member's name, LinkedIn's access and refresh token, the scopes, the deadline (0 if the lifetime is not positive) and the second of the login, keeps its id and creation time if it is an old one, and its id is the one returned |
| `Logins.StoredLogin` | internal/app/login.go:65-92 | The same about lookup and upsert as statements |
| `Logins.LoginService.ConsumeState` | internal/app/login.go:106-115 | Burns the state, and returns its request if and only if it has not expired |
| `Logins.LoginService.DeleteByMemberId` | internal/app/login.go:118-130 | Afterwards the member has no row; an unknown member is not an error |
| `Logins.LoginService.RefreshOne` | internal/app/login.go:172-194 | Renews if and only if the tenant has a refresh token, LinkedIn and the database do their part and the member has a row or the listed id is free; then exactly one row changes, and carries the answer, with the listed refresh token and scopes where the answer leaves them out |
| `Logins.StoredRenewal` | internal/app/login.go:172-194 | The same about the statement |
| `Logins.UndisturbedRenewal` | internal/app/login.go:172-194 | If the row is still as listed, exactly that row is renewed, if and only if LinkedIn renewed the token and it was stored |
| `Logins.RenewalLosesLogin` | internal/app/login.go:178-190 | A login between listing and renewal keeps its access token if and only if the renewal fails or brings the same one, and its refresh token if and only if the renewal fails or ends with the same one |
| `Logins.RenewalRevivesDeleted` | internal/app/login.go:190 | A tenant deleted in between is back if and only if the renewal succeeds |
| `Logins.LoginService.RenewNext` | internal/app/login.go:159-168 | One round of the sweep keeps its bookkeeping |
| `Logins.LoginService.RefreshExpiringTokens` | internal/app/login.go:147-170 | Looks at exactly the stored tenants whose known deadline is in a second over by the end of the window, and those of unknown deadline last updated in a second over a week ago, soonest deadline first; what became of each; the counts; where a cancelled sweep stopped |
| `Logins.UnknownIsRechecked` | internal/adapters/sqlite/store.go:170-174 | A tenant of unknown deadline left alone is looked at by every sweep that starts a week and a second after its last update or later, whatever the window, and by none that starts within the week |
| `Logins.SweepFixpoint` | internal/app/login.go:147-194 | Asked again with the original bounds, the due query returns exactly the tenants that need a reconnection if and only if every renewal was of unknown lifetime or lasts beyond the window |
| `Logins.CompletedSweep` | internal/app/login.go:142-170 | Checked equals renewed plus needing a reconnection; rows that were not due are untouched; the fixpoint |
| `Logins.RenewedIsDue` | internal/adapters/sqlite/store.go:170-193 | A renewed row is due again if and only if its new lifetime is known and within the window |
| `Store.Store.UpsertTenant` | internal/adapters/sqlite/store.go:68-100 | Insert or refresh keyed on the member; refused only for a taken id |
| `Tables.TenantReadsBack` | internal/adapters/sqlite/store.go:68-165 | Storing a tenant and reading it back changes nothing but fractions of a second, if and only if its scopes are words |
| `Store.Store.TenantByMember` | internal/adapters/sqlite/store.go:122-124 | The one row of a member |
| `Store.Store.TenantsDueForTokenRefresh` | internal/adapters/sqlite/store.go:170-193 | Exactly the tenants whose known deadline is in a second over by the first bound or that have none and were last updated in a second over by the second, each once, soonest deadline first |
| `Store.Store.DeleteTenant` | internal/adapters/sqlite/store.go:196-217 | One transaction: all of it or nothing |
| `Tables.DeletionIsComplete` | internal/adapters/sqlite/store.go:196-217 | Nothing of the tenant is left in any table that names tenants, and nothing else changes |
| `Store.Store.RecordPost` | internal/adapters/sqlite/store.go:222-236 | Appends a row, or rewrites text, visibility and link of an existing one; refused for an unknown tenant |
| `Posts.MarkedIsTombstone` | internal/adapters/sqlite/store.go:240-246 | A row marked deleted carries that second and is otherwise itself, is listed only on request, refused by every edit, answered by every deletion without LinkedIn; no other row changes |
| `Posts.EditedReadsBack` | internal/adapters/sqlite/store.go:249-255 | An edited row reads back with the new text and is otherwise itself, tombstone included; without a row nothing happens; no other row changes |
| `Posts.RecordedIsFoundByItsOwner` | internal/adapters/sqlite/store.go:288-296 | What a tenant records it finds, and what another tenant finds does not change |
| `Store.Store.LedgerPosts` | internal/adapters/sqlite/store.go:258-284 | Newest first, no duplicate, as many as limit and rows allow, no omitted row newer than a listed one |
| `Store.OrderBy` | internal/adapters/sqlite/store.go:263-266 | What ORDER BY with LIMIT answers: sorted, distinct, nothing better left out |
| `Store.Store.RegisterClient` | internal/adapters/sqlite/store.go:323-334 | Inserts a client under a new id |
| `Store.Store.CreateAuthCode` | internal/adapters/sqlite/store.go:363-374 | Inserts a code |
| `Store.Store.ConsumeAuthCode` | internal/adapters/sqlite/store.go:378-397 | Returns the code and removes it in one step |
| `Store.Store.CreateRefreshToken` | internal/adapters/sqlite/store.go:402-411 | Inserts a live refresh token |
| `Store.Store.RotateRefreshToken` | internal/adapters/sqlite/store.go:414-433 | Returns a live, unexpired token and revokes it in one step; afterwards it cannot be rotated |
| `Store.Store.RevokeTenantRefreshTokens` | internal/adapters/sqlite/store.go:436-443 | Afterwards exactly the other tenants' live tokens can still be rotated, at any time |
| `Tables.RevocationIsComplete` | internal/adapters/sqlite/store.go:436-443 | After it exactly the other tenants' tokens can still be rotated |
| `Store.Store.CreateLoginState` | internal/adapters/sqlite/store.go:448-457 | Inserts a login state |
| `Store.Store.ConsumeLoginState` | internal/adapters/sqlite/store.go:461-480 | Returns the state and removes it in one step |
| `Store.Store.PurgeExpired` | internal/adapters/sqlite/store.go:486-498 | Wherever it fails, no row whose deadline lies ahead is lost or changed; if it does not, no other row is left |
| `Tables.PurgeDropsTheExpired` | internal/adapters/sqlite/store.go:486-498 | A purge keeps exactly the rows whose whole-second deadline lies after its full-precision instant |
| `PostMachine.NoInterference` | internal/app/service.go:67-83 | Delete from any run every step of every other tenant and member: it is still a run, with the same replies, row and ledger for this member, who may get its tenant on the way, even where another recorded the same URN |
| `PostMachine.NewcomerUndisturbed` | internal/app/login.go:52-93 | In particular from an empty system: a newcomer's first login and all that follows go as if nobody else were there |
| `PostMachine.OthersInvisible` | internal/adapters/sqlite/store.go:222-255 | No step of another tenant or member changes what this tenant can see |
| `PostMachine.OwnStepAlike` | internal/app/posts.go:46-332 | A tenant's own step is possible, answers and acts the same in any two systems that look alike to it |
| `Lifecycle.RunAgesRows` | internal/adapters/sqlite/store.go:222-255 | Over any run rows go from absent to live to deleted and never back, and keep their creation time |
| `Lifecycle.UntouchedExactlyWhenBuried` | internal/app/posts.go:185-254 | From a deleted post on, every run leaves it untouched on LinkedIn if and only if no call that found it while it was live is still to be sent |
| `Lifecycle.EditOutlivesDeletion` | internal/app/posts.go:185-205 | Such a call: an edit that found its post before the deletion was recorded reaches LinkedIn after it |
| `Lifecycle.BuriedForever` | internal/app/posts.go:185-254 | Without such a call, over any run, the post stays deleted and untouched |
| `Posts.OnlyTenantDeletionDropsRows` | internal/adapters/sqlite/store.go:196-217 | Only deleting the tenant removes its ledger rows, and only its own |
| `Posts.WriteTouchesOneRow` | internal/app/posts.go:91-101 | A ledger write puts one row of one tenant, computed from the row that was there, and nothing else |
| `Posts.WriteAgesRows` | internal/adapters/sqlite/store.go:222-255 | No ledger write revives a tombstone or changes a creation time |
| `Posts.OnlyLivePostsAreCalled` | internal/app/posts.go:185-254 | An edit or deletion reaches LinkedIn only for a live row of this tenant, confirmed |
| `Agreement.DecidesExactly` | internal/app/posts.go:46-256 | A call reaches LinkedIn if and only if it is confirmed, permitted, well formed and, for an edit or deletion, about a live row |
| `Agreement.DecideRefusals` | internal/app/posts.go:46-256 | The exact condition of each answer that spares LinkedIn |
| `Agreement.DecidesOwnCall` | internal/app/posts.go:82-205 | It is made in the member's own name or about that tenant's own row |
| `Ledger.LedgerIsHonest` | internal/app/posts.go:82-262 | In every interleaving with any failures: a row means LinkedIn got the post from this tenant with its member's URN as author, and a tombstone means the post is gone |
| `Ledger.CallKeepsHonest` | internal/adapters/linkedin/content.go:55-131 | No call to LinkedIn makes a row dishonest |
| `Ledger.WriteKeepsHonest` | internal/app/posts.go:91-101 | No ledger write, made or failed, makes a row dishonest |
| `Agreement.NoFailedWriteMeansAgreement` | internal/app/posts.go:82-262 | From an empty ledger, with one call at a time and no failed ledger write, live rows are exactly the live posts, with the same text |
| `Agreement.AgreementOverRun` | internal/app/posts.go:82-262 | Any other post stays in agreement whatever ledger writes failed |
| `Agreement.PerformKeepsAgreement` | internal/app/posts.go:46-262 | One call breaks the agreement of no post but one whose ledger write it missed, and a recorded write makes its post agree |
| `Agreement.MissedWriteDisagrees` | internal/app/posts.go:96-262 | After a missed write the two agree if and only if it was an edit to the text the post already had |
| `Agreement.RepairByRetry` | internal/app/posts.go:205-262 | However often an edit or deletion failed, before or after LinkedIn took it, and whatever all tenants did in between short of another call about that post, repeating it gets through as soon as nothing fails, and restores agreement |
| `Agreement.StrayForever` | internal/app/posts.go:89-102 | A publication whose recording failed stays live and unrecorded in every later run |
| `Agreement.CrossedEditsDisagree` | internal/app/posts.go:205-210 | A run of two edits whose calls and ledger writes cross and leave ledger and LinkedIn with different texts |
| `Quiet.QuietMeansAgreement` | internal/app/posts.go:82-262 | In every interleaving without a failed ledger write, a post no call is waiting to record has a live row if and only if it is live; and the two agree on it if and only if it is gone or the text the ledger last followed with is the text LinkedIn was last given |
| `Quiet.NoOverlapMeansAgreement` | internal/app/posts.go:82-262 | So they agree whenever no two edits of it were between LinkedIn and the ledger at once |
| `Quiet.RunCarried` | internal/app/posts.go:205-210 | At every point of such a run a live post carries the text last given and a live row the text last followed with |
| `Quiet.RunExplained` | internal/app/posts.go:82-262 | Wherever the two differ meanwhile, a call is about to make up for it |
| `PostService.Service.PublishPost` | internal/app/posts.go:46-103 | The tool is one whole call of the model, LinkedIn first, then the ledger; previews and publications show the input, cleaned; a recorded publication leaves exactly one new row saying what is shown, created in the second of the reading, neither edited nor deleted, and on a known URN rewrites text, visibility and link only |
| `PostService.PublishedRow` | internal/app/posts.go:91-101 | The same about any call of the model |
| `PostService.CreatesInput` | internal/app/posts.go:82-87 | LinkedIn is asked to create the input, cleaned, in the member's name |
| `PostService.LaterPublicationFirst` | internal/adapters/sqlite/store.go:258-266 | Of two posts published in different seconds, whatever calls came between and after, every listing that may show the later one shows it, and before the earlier |
| `PostService.Service.EditPost` | internal/app/posts.go:173-213 | Likewise: exactly its row gets the new text and the second of the edit, or none; the answer shows the old and the new text and says whether the ledger followed |
| `PostService.Service.DeletePost` | internal/app/posts.go:231-264 | Likewise: exactly its row gets the second of the deletion, or none; an already deleted post answers without LinkedIn, and every answer shows the text |
| `PostService.BuildPublishRequest` | internal/app/posts.go:105-137 | Publishable if and only if the visibility is known or missing, there is a text or a post to reshare, and an article is https and no reshare; the request is the input trimmed, the visibility in capitals and public if missing |
| `PostService.Service.OwnedPost` | internal/app/service.go:67-83 | Refuses malformed URNs, then finds the post in this tenant's ledger only |
| `PostService.Service.RequireScope` | internal/app/service.go:55-60 | True if and only if the permission was granted |
| `Ledger.CallAges` | internal/adapters/linkedin/content.go:55-131 | No call changes who wrote a post or brings a deleted one back |
| `Ledger.DestroyIsFinal` | internal/adapters/linkedin/content.go:119-131 | Deleting is always possible and idempotent, and a deleted post cannot be edited |
| `PostService.Service.ListPosts` | internal/app/posts.go:288-332 | LinkedIn's list with the read permission, the ledger's newest rows without it or for a rejected token: 25 if no limit is asked for, at most 100, otherwise as many as asked, as far as there are rows |
| `PostService.Service.LedgerCounts` | internal/app/analytics.go:184-195 | Live count among the newest 100 rows; live plus deleted is the smaller of 100 and the rows |
| `PostService.CountLive` | internal/app/analytics.go:263-271 | How many entries carry no deletion time |
| `Listings.RecordedMatchesListing` | internal/app/analytics.go:191-195 | The live count equals the length of the ledger's live list at the same limit if and only if no tombstone is among the counted rows or no live post is beyond them |
| `Listings.RecordedMatchesSmallLedger` | internal/app/analytics.go:171-172 | In particular whenever the ledger fits the limit |
| `Listings.ListingsShowSameTimes` | internal/adapters/sqlite/store.go:258-284 | Any two answers to one listing, at any limits, show the same creation time at each position they share |
| `Listings.LiveByPosition` | internal/app/analytics.go:263-271 | Counting live entries of a listing counts live posts |
| `Analytics.Analytics` | internal/app/analytics.go:71-151 | Succeeds if and only if permission, names, dates, daily breakdown and answers allow; then every wanted metric is answered, rejected or dropped, in order and as often as wanted, with its own values; nothing total-only is asked for by day |
| `Analytics.PostAnalytics` | internal/adapters/linkedin/content.go:424-442 | Fails if and only if some answer is neither counts nor the unsupported status, stopping there; otherwise insights and rejections are the metrics by answer, and each insight carries the values answered for its own metric |
| `Analytics.DropTotals` | internal/app/analytics.go:92-111 | Splits the metrics into those with a daily breakdown and the rest, in order |
| `Analytics.MetricsOrDefault` | internal/app/service.go:142-153 | The requested names that are not blank, trimmed, in capitals and in order, or the five defaults if there is none |
| `Analytics.CleanedIs` | internal/app/service.go:142-153 | Each entry comes from a request that is not blank, in order, and each such request has one |
| `Analytics.CheckKnown` | internal/app/analytics.go:83-88 | True if and only if every metric is one LinkedIn documents |
| `Analytics.PartsConserve` | internal/app/analytics.go:92-111 | Parts taken out of a list by marks make up the list again, as multisets |
| `Analytics.PartInOrder` | internal/adapters/linkedin/content.go:427-440 | Each part keeps the order of the whole |
| `Analytics.AccountIsComplete` | internal/app/analytics.go:82-145 | Dropping first and asking afterwards still accounts for every wanted metric |
| `Analytics.NothingAsked` | internal/app/analytics.go:106-109 | Nothing is left to ask by day if and only if every metric is total-only |
| `Migrations.CrashSafe` | internal/adapters/sqlite/db.go:50-115 | After any sequence of starts, failures and crashes, with migrations growing by later names only, the log is a beginning of the sorted list, each body ran once, and a start that is not cut short completes it |
| `Migrations.OrderKeptExactlyWhenLater` | internal/adapters/sqlite/db.go:48-64 | A longer release leaves its own list in its own order if and only if every new name comes after every old one |
| `Migrations.Database.Migrate` | internal/adapters/sqlite/db.go:50-82 | One start, cut short anywhere, does to the log what the sorted list and the statements left allow |
| `Migrations.Database.ApplyAll` | internal/adapters/sqlite/db.go:64-80 | The loop over the sorted names |
| `Migrations.Database.ApplyMigration` | internal/adapters/sqlite/db.go:97-115 | Body and record together or not at all; fails if and only if it is cut short or the name is already recorded |
| `Migrations.Database.MigrationApplied` | internal/adapters/sqlite/db.go:84-95 | Whether the name is recorded |
| `Migrations.SortedNames` | internal/adapters/sqlite/db.go:59-63 | The names in lexical order |
| `Migrations.AscendingUnique` | internal/adapters/sqlite/db.go:63 | There is one such order |
| `Migrations.BeforeByFirst` | internal/adapters/sqlite/db.go:63 | The order is the lexical one: first characters decide, and behind equal ones the rest |
| `Migrations.StartFromPrefix` | internal/adapters/sqlite/db.go:64-82 | A start from a beginning of the list ends at a longer one, whole if it got through |
| `Jwt.MintThenVerify` | internal/adapters/authserver/jwt.go:52-123 | A minted token verifies to its own claims exactly until the whole second of its expiry |
| `Jwt.SerializedVerifies` | internal/adapters/authserver/jwt.go:84-123 | So does any serialization of this server's claims |
| `Jwt.SplitTokenAccepts` | internal/adapters/authserver/jwt.go:133-148 | The splitter accepts exactly the joins of three nonempty segments without a dot, and returns them |
| `Jwt.AcceptedExactlyWhenGenuine` | internal/adapters/authserver/jwt.go:84-123 | A token is accepted with given claims if and only if it joins three nonempty dot-free segments whose signature decodes to the signer's MAC of the other two, whose header says HS256 and JWT or no type, and whose payload decodes to those claims, of this issuer and audience, with a subject and a deadline still ahead |
| `Jwt.ForgeryIsRefused` | internal/adapters/authserver/jwt.go:100-107 | Whatever else a token says, a signature that does not decode to the signer's MAC is refused at any time |
| `Jwt.AdvertisedLifetime` | internal/adapters/authserver/token.go:172 | The end a client computes from a non-negative `expires_in` is less than a second off the enforced deadline if and only if the answer leaves no later than the second of the expiry |
| `Jwt.LateAnswerIsFurtherOff` | internal/adapters/authserver/token.go:172 | A late answer that is more than a second off |
| `Base64.RoundTrip` | internal/adapters/authserver/jwt.go:150-164 | Decoding undoes encoding in each of the four encodings |
| `Base64.EncodedHasNoDot` | internal/adapters/authserver/jwt.go:77-79 | Encoded text never contains the segment separator |
| `Base64.DecodersAgree` | internal/config/config.go:255-268 | Whatever decoder reads text written by whatever encoder, it returns the original bytes or refuses |
| `KeyDecoding.DecodeBase64` | internal/config/config.go:255-268 | For every byte string in each of the four encodings the result is that byte string, whichever decoder succeeds first; refused if and only if all four refuse |
| `Scopes.ParseScopes` | internal/domain/tenant.go:75-85 | The maximal words between separators |
| `Scopes.HasScope` | internal/domain/tenant.go:40-47 | True if and only if the list has the scope |
| `Scopes.SeparatorSeparates` | internal/domain/tenant.go:69-85 | Comma, blank, tab and line end come between two scopes |
| `Scopes.OthersDoNot` | internal/domain/tenant.go:69-85 | Any other character is part of one |
| `Scopes.ScopesSurviveStorage` | internal/adapters/sqlite/store.go:94 | Parsing the stored form of a parsed list gives the list back, for every text |
| `Scopes.SeparatorsDoNotMatter` | internal/domain/tenant.go:69-85 | Two texts parse to the same list if and only if they have the same words between some separators |
| `Scopes.WeaveOfFields` | internal/domain/tenant.go:75-85 | Every text is its words woven with its gaps, so nothing but separators is lost |
| `Scopes.JoinThenParse` | internal/adapters/linkedin/client.go:115-123 | Any list of words survives being joined by blanks and parsed |
| `Urn.ReadableExactlyWhenPlain` | internal/adapters/linkedin/client.go:428-430 | Percent-decoding undoes the encoder if and only if the URN has no `%` |
| `Urn.EncodeInjectiveOnPlain` | internal/adapters/linkedin/client.go:428-430 | The encoder is injective there |
| `Urn.EncodeNotInjective` | internal/adapters/linkedin/client.go:428-430 | And not beyond |
| `Urn.EncodedHasNoReserved` | internal/adapters/linkedin/client.go:428-430 | The output has no colon, parenthesis or comma |
| `Urn.EncodesPieces` | internal/adapters/linkedin/client.go:428-430 | Texts are encoded piece by piece, and a text without those four stands for itself |
| `Urn.EntityParamReadsBack` | internal/adapters/linkedin/content.go:510-516 | The entity literal reads back to the URN it was made from, and to the kind `ugc` if and only if the URN contains `:ugcPost:` |

## Left out

- HTTP: routing, CORS, body and query parsing, method and grant-type dispatch, HTML pages, error texts, logging, middleware, the relay, MCP tool registration.
- URL parsing and rewriting: `validateRedirectURI` is a predicate, a redirect is the pair of URI and parameters.
- The cryptography itself: AES-GCM of stored tokens, SHA-256 and HMAC are functions or absent; constant-time comparison is equality.
- `AuthServer.AuthServer.Register`: the client name comes in already trimmed, as text trimming is library behaviour.
- Failures of the random source, and cancelled requests other than in the sweep.
- A row that cannot be scanned or decrypted counts as a failed statement.
- The order of rows with equal sort keys, which SQL leaves open.
- Unicode: strings are sequences of characters; trimming and upper-casing are any functions.
- Client lists stored as JSON are stored as lists.
- Base64 text that no encoder of the program writes: the decoder's leniency is modelled, but re-encoding is not claimed to undo decoding.
- Floating point: `Duration.Seconds()` is taken as exact before it is truncated, and days remaining in connection_status are left out.
- Date bounds of analytics: whether they are acceptable is a parameter of `Analytics.Analytics`; calendar arithmetic is left out.
- LinkedIn's REST calls, retries, and decoding of answers; engagement tools; introspection and permission texts of connection_status.
- Tenant deletion as a step of `PostMachine`: it is modelled at the store (`Tables.DeletionIsComplete`) and in `Machine`, not interleaved with post tools.
- Withdrawn or edited migrations: `Migrations.CrashSafe` assumes releases only add migrations, with later names.
- A crash is modelled as the end of a start between two statements; what SQLite does to make a commit atomic is taken for granted.
- RFC 7636 section 4.1 restricts the characters of a verifier; the code checks its length only, and so does the model.
- `Agreement.NoFailedWriteMeansAgreement`: one call at a time; for every interleaving see `Quiet.QuietMeansAgreement`.
- `Lifecycle.RunAgesRows`: runs without tenant deletion, which nothing in the program calls; `Posts.OnlyTenantDeletionDropsRows` says what it would do to the ledger.
- `Logins.LoginService.RefreshExpiringTokens`: the account of a whole sweep is for one no other writer runs beside; what a concurrent login or deletion does to one renewal is `Logins.RenewalLosesLogin` and `Logins.RenewalRevivesDeleted`.
