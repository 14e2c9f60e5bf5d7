# Verified model of the SyncGate console backend

A Dafny model of the stateful protocols in the backend-for-frontend (`bff/app`) and of two pieces of
the web client, with proofs of what they promise over every run.

| file | models |
|---|---|
| `TokenRefresh.dfy` | silent OIDC refresh: any number of requests on one session, interleaved at every await |
| `Relay.dfy` | one request's refresh, run in place against the session store |
| `SessionStore.dfy` | the in-process session store: expiry, pruning, copies in and out |
| `SessionPlanes.dfy` | who a session is, and where its bearer goes: many sessions and requests with stale write-backs |
| `AuditChain.dfy` | the hash chain, its verifier, and what an accepted log can be |
| `AuditKeyring.dfy` | sealing, crypto-shredding and the reader |
| `AuditLog.dfy` | the writer, restarts, lost writes, any number of writers on one file |
| `LoginThrottle.dfy` | the sliding-window throttle of the break-glass login |
| `ClientAddress.dfy` | the walk over X-Forwarded-For |
| `CatalogClient.dfy` | lazy, single-flight, rate-limited resolution and the bounded retries |
| `TenantEstate.dfy` | the tenant directory |
| `GatewayPool.dfy` | the gateway pool, interleaved at the credential fetch |
| `SupportRouting.dfy` | sessions and pool together: where a support credential ends up |
| `Enrolment.dfy` | the enrolment saga and its compensation |
| `JsonText.dfy`, `BackupRestore.dfy` | the restore panel: an apply is bound to its preview |
| `ToolArguments.dfy` | a tool schema as a form, and the form as arguments |
| `Common.dfy` | an option type and two facts about sequences |

Concurrent protocols are state machines: a total `Step` function over events, one event per stretch
of code between two awaits, where an event whose guard fails changes nothing. A theorem about all
event sequences is then a theorem about all interleavings. Objects that the source changes in place
are classes whose methods are proved against functions on values, and the theorems are about those
functions. `verify` with `dafny verify dfyconfig.toml`.

## Assumptions

- The per-session lock and the resolve lock are mutual exclusion. The in-process store may in fact
  discard an unlocked lock object that has waiters, and the Redis lock can expire while held.
- The identity provider issues tokens it has not issued before, accepts only its live refresh token,
  and an exchange that fails, or whose answer carries no access token, consumes nothing.
- The hash has no collisions and no preimage of the genesis value; the canonical JSON of a record
  determines the record and has no raw newline (`Scheme.Ideal`). Decryption undoes encryption
  (`Vault.Sound`).
- The monotonic clock does not run backwards, within a call or between calls.
- Address parsing, `JSON.parse`, `Number` and `JSON.stringify` of whole values are parameters. Numbers
  are mathematical, so integers past 2^53 are exact here and are not in JavaScript.
- A React handler sees the state the previous event left.

## Where the code does less than its comments say

- Two racing requests refresh a session once, except that `_persist_session` writes back a whole
  session loaded before it queued on the lock, and so can put back tokens that a refresh has just
  replaced. `TokenRefresh.PersistIsSafeIffNotStale` says exactly when that does harm: while the session
  is stored, exactly when the access token to be written is not the stored one. Once the session has
  left the store nothing the code could look at decides it (`TokenRefresh.EmptyStoreDoesNotDecide`).
- `verify_chain` reports a sequence gap only if the file already holds a record of that writer: it
  anchors no first record (`AuditLog.LostWriteReportedIff`).
- A pooled gateway client is not rebuilt when a refresh moves its tenant, so the tenant is reached at
  the address it moved from until it is enrolled again (`GatewayPool.ClientsStayCurrentIff`). And an
  invalidation does not reach a lookup that is waiting for its credential, which then puts a client
  from before the invalidation back (`GatewayPool.OldClientReturnsIff`).
- A redemption that fails is promised to be compensated, so that no live credential is left for a
  tenant that was never enrolled. `Enrolment.FourSteps` says exactly when one is left all the same,
  neither withdrawn nor recorded: the catalog minted, but its answer was lost, refused or unreadable;
  or an exception escapes, because the gateway's answer cannot be read or a call cannot be sent (a
  gateway address with an unreadable port, an invitation code that is not ASCII); or the withdrawal is
  sent and does not take, which the route does not look at; or the record does not take. What the
  caller is told does not say which (`Enrolment.OutcomeDoesNotTell`).
- "The resolver is never consulted while configured" holds of calls that are not forced; a transport
  failure or a 401 forces one (`CatalogClient.ResolverIsAskedWhileConfigured`), and a call is forced
  exactly when the client is configured (`CatalogClient.CatalogRunIsBounded`).
- "Retry only if we actually learned something different", and "a retry would fail identically":
  after a 401 and after a transport failure alike, the code compares with what the client holds when
  the failure is handled, not with what was sent. If another request has changed that meanwhile, the
  very same send can be repeated, the refused credential included (`CatalogClient.RepeatIsPossibleIff`),
  or the request gives up with an address or a credential in hand that it never tried
  (`CatalogClient.UntriedIsPossibleIff`).
- "OIDC session → the user's access token": if the provider's answer to the login carried none, the call
  goes out without a bearer, as a break-glass session's does (`SessionPlanes.SentFromOneCopy`).
- A logout destroys the session, but a request that still holds a copy can write it back; which
  sessions that can happen to, and when, is `SessionPlanes.GoneSessionReturnsIff`.
- With `max_tracked` = 0 the throttle raises on every failed password and refuses nobody
  (`LoginThrottle.NothingTrackedNothingRefused`).

## Model

| member | source | states |
|---|---|---|
| TokenRefresh.RefreshIsSafe | bff/app/relay.py:30-66 | in every interleaving of loads, calls, 401s, lock waits, re-reads, exchanges, commits, releases, logins, logouts and expiry, and of write-backs that are not stale: no access token is exchanged twice, every refresh token presented is the provider's live one even under strict rotation, and no retry carries the rejected bearer |
| TokenRefresh.ReleasedTokenIsNewest | bff/app/relay.py:47-51 | a request that leaves the lock with a token, whether it exchanged or reused, leaves with the newest one issued |
| TokenRefresh.PersistIsSafeIffNotStale | bff/app/security.py:203-217 | a whole-session write-back keeps every continuation safe if and only if it carries the newest access token; while the session is stored, if and only if it does not change the stored access token; otherwise one more request exchanges a spent token or presents a dead one |
| TokenRefresh.StaleIffOverwrites | bff/app/security.py:215-217 | the guard is checkable: with the lock held and a session stored, comparing its access token with the one to be written tells whether the write is stale |
| TokenRefresh.EmptyStoreDoesNotDecide | bff/app/sessions.py:201-207 | after a logout or expiry it is not: two runs end with the same empty store and the same cached copy, and only one of the write-backs is stale |
| TokenRefresh.StaleWriteIsReachable | bff/app/routers/api.py:600-613 | for any tokens and any two requests: the one that loads the session before the other refreshes it can go on to write the old tokens back |
| TokenRefresh.FinishMakesViewsStale | bff/app/sessions.py:173-182 | once a refresh commits, every session copy cached by another request before it is stale |
| TokenRefresh.RefreshCompletes | bff/app/relay.py:43-132 | a request whose bearer is refused on a session nobody else refreshes: what it is then bound to have presented, stored, cached and retried with, token by token |
| TokenRefresh.LateRequestReuses | bff/app/relay.py:47-51 | a request that finds the session refreshed while it waited costs the provider nothing and retries with the stored token |
| TokenRefresh.FailedRefreshGivesUp | bff/app/relay.py:45-58 | a refused exchange, or a session gone meanwhile, stores nothing, retries nothing and frees the lock |
| Relay.RefreshOidcAccessToken | bff/app/relay.py:30-66 | for every stored session, cached copy and provider answer: after an exchange the stored slot and the cached copy are the session as re-read with the answered access token, the answered refresh and id tokens where there are any, every other key untouched, and a restarted lifetime; the refresh token sent is the stored one; a session another request has refreshed is reused as it is, without an exchange; in every other case nothing changes and no token is returned |
| Relay.CriticalSectionSimulates | bff/app/relay.py:43-66 | started in step with the interleaved model and answered as the provider may, the part under the lock ends in step with it: the store, the cached copy and the token returned show the same, and the refresh token sent is the one the model presents |
| Relay.Merge | bff/app/relay.py:59-63 | the session dictionary is changed in place: new access token, a rotated refresh token or re-issued id token only if the provider sent one, and every other key as it was |
| Relay.RereadsAsJudged | bff/app/relay.py:44-53 | on the same store and cached copy the interleaved model takes the same branch: gone, refreshed by another, or ours to exchange |
| SessionStore.GetReadsTheLastWrite | bff/app/sessions.py:63-97 | over every history of calls, a read at time t sees the last value set unless it was deleted since or t has reached set time plus TTL; lazy expiry and pruning are invisible |
| SessionStore.MemorySessionStore.Get | bff/app/sessions.py:77-87 | the answer is a fresh dictionary equal to what is stored and unexpired; an expired entry is dropped |
| SessionStore.MemorySessionStore.Set | bff/app/sessions.py:89-91 | prunes, then stores a copy of the dictionary as it is now, with a restarted TTL |
| SessionStore.MemorySessionStore.Prune | bff/app/sessions.py:69-75 | removes exactly the expired entries, and their locks unless held |
| SessionStore.MemorySessionStore.Delete | bff/app/sessions.py:93-97 | removes the entry, and its lock unless held |
| SessionStore.MemorySessionStore.EditACopy | bff/app/sessions.py:85-87 | changing what a read returned changes nothing stored |
| SessionStore.MemorySessionStore.EditAfterSet | bff/app/sessions.py:89-91 | changing a dictionary after storing it changes nothing stored |
| SessionPlanes.IdentityIsConstant | bff/app/sessions.py:185-198 | kind, plane, subject, role and provider scopes of a sid never change after it is established, in the store or in any request's copy, with stale whole-session writes racing |
| SessionPlanes.ProviderAuthorityStaysOnItsPlane | bff/app/routers/auth.py:364-382 | provider scopes and support grants only ever appear on a provider-plane session, as stored, as held by any request or as about to be stored, and such a session never holds a refresh token |
| SessionPlanes.CredentialsGoWhereTheyCameFrom | bff/app/relay.py:84-155 | in every interleaving of polls, relays, refreshes, releases and drops: a provider session presents a credential only to the pool's client for the tenant it was polled from and never the stack's own token; a tenant session never reaches the pool, a password session carries no bearer, and an OIDC one, if its login returned any access token, one handed out for that very sid, by its login or an exchange |
| SessionPlanes.SentFromOneCopy | bff/app/security.py:252-281 | after any run, and whatever is written in between, what a request sends is read off the one session copy its gateway was chosen from: a provider session its grant's credential to its grant's tenant, or nothing at all if that is blank; an OIDC tenant session its access token, and a password session no bearer, to the stack's own gateway |
| SessionPlanes.RetriedWithTheNewToken | bff/app/relay.py:129-132 | after a 401 the second call carries the token the exchange returned, or the one another request had stored, to the same gateway; the store and the request's copy then hold it, with the rotated refresh token if there was one |
| SessionPlanes.NotRetried | bff/app/relay.py:129-135 | and nothing is sent again where the session stored meanwhile has no access token, or after any other answer |
| SessionPlanes.RouteChooses | bff/app/relay.py:100-111 | a tenant session goes to the stack's own gateway, a provider session to its grant's tenant, and nowhere without one |
| SessionPlanes.LoginEstablishes | bff/app/sessions.py:185-198 | each login stores exactly its own kind of session under its new sid, binds the request to it, and ends the session the cookie named and no other |
| SessionPlanes.LogoutEnds | bff/app/sessions.py:201-207 | a logout ends the session the cookie names, and no other |
| SessionPlanes.EditsLand | bff/app/routers/provider.py:246-254 | a polled, released or dropped grant, or a staged backup, once written back is that one field changed, and only where the route allows it |
| SessionPlanes.GoneSessionReturnsIff | bff/app/sessions.py:201-207 | a session logged out, replaced or expired is in the store again in some continuation if and only if it is an identity provider's session (with provider authority, if it is the provider's) and a request still holds a copy of it |
| SupportRouting.CredentialsReachTheirTenant | bff/app/relay.py:84-122 | in every joint run of sessions and gateway pool, a credential polled from a tenant only ever goes through the pool's client for that tenant, to an address that very tenant was listed at |
| SupportRouting.ReachedThenSent | bff/app/relay.py:110-128 | the call goes through the client the pool holds for the tenant at that moment, with the grant's credential |
| SupportRouting.PoolRunsAlone | bff/app/gateway_pool.py:53-104 | the pool of a joint run is that of its own events alone, so what holds of the pool over every run holds here |
| AuditChain.FrameInjective | bff/app/audit.py:94-99 | the text that is hashed determines sequence number, previous hash and payload, although the previous hash may hold newlines and a JSON boolean passes for a sequence number |
| AuditChain.VerifyChain | bff/app/audit.py:360-395 | accepts exactly the logs in which every writer's records hash to what they say and link one to the next; counts records and writers; otherwise names the fault of the first record that cannot follow |
| AuditChain.Replay | bff/app/audit.py:372-393 | the loop: the heads it keeps are where each writer's sub-chain must go on, and it stops at the first record that cannot follow |
| AuditChain.CheckRecord | bff/app/audit.py:375-392 | the checks of one record, in order: missing fields, altered, gap, broken link |
| AuditChain.VerdictSaysWhy | bff/app/audit.py:377-390 | behind an accepted file, the verdict on a record that cannot follow: missing fields, altered, gap or broken link, each exactly when that is what is wrong, with the numbers it names |
| AuditChain.DeletionIsAGap | bff/app/audit.py:384-387 | a record deleted between two of its writer's is reported as a gap that names its number |
| AuditChain.AcceptAppend | bff/app/audit.py:387-393 | appending a record keeps a log acceptable exactly when it hashes to what it says and follows its writer's last record |
| AuditChain.AcceptedPrefix | bff/app/audit.py:360-395 | every prefix of an accepted log is accepted |
| AuditChain.TamperEvidence | bff/app/audit.py:94-99 | an accepted sub-chain whose last hash is one the writer produced is a contiguous piece of what was written, ending there |
| AuditChain.AcceptedWithHeadIff | bff/app/audit.py:384-390 | and every such piece is accepted: a dropped prefix still verifies, nothing else does |
| AuditKeyring.SealOpens | bff/app/audit.py:157-184 | sealed content opens under the keyring that sealed it, and after the shred only if it was never encrypted |
| AuditKeyring.TenantKeyring.Add | bff/app/audit.py:150-151 | gives one tenant a key, replacing any it had, and touches no other |
| AuditKeyring.TenantKeyring.Shred | bff/app/audit.py:153-155 | forgets one tenant's key and no other, and says whether there was one |
| AuditKeyring.Read | bff/app/audit.py:300-327 | row i is the i-th of the tenant's records from the end of the file, for i below max(1, limit) and as many as there are: its number, time, tenant and instance as recorded, its content as recorded if it was never sealed, as decrypted under the tenant's key if that opens it, and otherwise none |
| AuditLog.WrittenIsReadBack | bff/app/audit.py:238-327 | round trip: wherever a record stands in the file, and whatever follows it, the row counted from the end of the tenant's records is that record, with the payload as it was given, while the tenant has the key it was sealed under |
| AuditLog.AuditLog.Read | bff/app/audit.py:300-309 | no file, no rows; without a tenant the log's own |
| AuditLog.AuditLog.RecordThenRead | bff/app/audit.py:238-327 | in place: what was just recorded is the first row, with this writer's next number and the payload |
| AuditKeyring.NewestAreTheTenants | bff/app/audit.py:311-316 | the records a tenant reads from are all of its own and nobody else's |
| AuditKeyring.ShredHidesOnlySealedContent | bff/app/audit.py:300-327 | after a shred the tenant's rows keep number, order and every field but content, which is readable exactly when it was never sealed; other tenants read as before |
| AuditLog.AuditLog.Record | bff/app/audit.py:238-291 | the record returned commits to the sealed content under this writer's chain, the chain advances whether or not the write succeeds, and the file gains exactly that line if it does |
| AuditLog.AuditLog.constructor | bff/app/audit.py:215-234 | a writer starts at genesis or after its own last record in the file |
| AuditLog.LastRecord | bff/app/audit.py:350-357 | the last record of this instance in the file, if any |
| AuditLog.FileGrows | bff/app/audit.py:281-291 | the file gains exactly the record its writer's chain commits to, if the write succeeds, or a foreign line, and never loses or changes one |
| AuditLog.AcceptedIffNotTorn | bff/app/audit.py:187-204 | over every run of writers, restarts, lost writes and foreign lines, the file is accepted exactly when no writer with a record in it wrote again right after losing one |
| AuditLog.IntactRunIsAccepted | bff/app/audit.py:238-296 | when writes succeed, every interleaving of writers and restarts produces an accepted file in which every sub-chain starts at genesis |
| AuditLog.LostWriteReportedIff | bff/app/audit.py:281-289 | a lost write followed by another from the same process is reported if and only if the file held a record of that writer before |
| AuditLog.RejectionIsPermanent | bff/app/audit.py:360-395 | nothing written later makes a rejected file acceptable |
| AuditLog.TamperEvidenceOverRuns | bff/app/audit.py:360-395 | for any run of writers, restarts and lost writes with an accepted file in which a writer starts at genesis, and any accepted file that keeps the hash of that writer's k-th record as its last: its records there are the last ones up to the k-th, unaltered, in order, none missing |
| AuditLog.IntactRunIsEvident | bff/app/audit.py:360-395 | in particular of every writer of every run without lost writes |
| LoginThrottle.BruteForceBound | bff/app/throttle.py:36-64 | with room for at least one address, in any closed interval of one window's length at most max(1, max_failures) failed passwords of an address are evaluated, from its last success or eviction on, over every run of logins |
| LoginThrottle.RefusedIff | bff/app/throttle.py:36-54 | over every run, an address is refused if and only if its failures inside the window, since it last succeeded or was evicted, have reached the cap |
| LoginThrottle.FewAddressesAreRemembered | bff/app/throttle.py:56-64 | with at most max_tracked distinct addresses nobody is ever evicted: an address is refused if and only if the failures it has made inside the window since its last success have reached the cap, whoever takes turns with it |
| LoginThrottle.ForgetsOnlyTheHead | bff/app/throttle.py:56-64 | a login of one address forgets another only if the table is full, and then the head of it |
| LoginThrottle.NothingTrackedNothingRefused | bff/app/throttle.py:56-64 | without room for any, no login is ever refused |
| LoginThrottle.RetryAfterSuffices | bff/app/throttle.py:48-54 | the next login of an address told to wait n seconds, made n seconds or more later, is not refused, whatever other addresses did meanwhile |
| LoginThrottle.RetryAfterIsTight | bff/app/throttle.py:48-54 | a login up to n - 1 seconds later is still refused, unless the window rolled off between the two readings of the clock |
| LoginThrottle.WaitBounds | bff/app/throttle.py:53-53 | the wait is at least 1, more than what is left of the window, and less than a second too long while any of it is left |
| LoginThrottle.TableStaysOk | bff/app/throttle.py:56-64 | the table stays within max_tracked, ordered by last failure, each deque sorted, nonempty and within the cap; the address evicted is one whose last failure is oldest |
| LoginThrottle.Throttle.Prune | bff/app/throttle.py:36-46 | drops exactly the failures older than a window, and the address when none is left |
| LoginThrottle.Throttle.RetryAfter | bff/app/throttle.py:48-54 | prunes at one reading of the clock and computes the wait at another |
| LoginThrottle.Throttle.RecordFailure | bff/app/throttle.py:56-64 | the failure is appended to the address's deque and the address moved to the end; another address is forgotten only if this one is new and the table holds max_tracked already, and then it is the head of the order; every other deque is as it was; raises, changing nothing, when there is nothing to evict |
| LoginThrottle.Throttle.RecordSuccess | bff/app/throttle.py:66-67 | forgets the address and nothing else |
| LoginThrottle.LogIn | bff/app/routers/auth.py:89-113 | refuses before evaluating the password, and otherwise records the outcome |
| ClientAddress.ClientIp | bff/app/throttle.py:116-157 | the first hop, from the peer leftwards through the header, that is not ours, if it is an address; otherwise the peer |
| ClientAddress.PrependIsIgnored | bff/app/throttle.py:150-157 | when the walk already stops, prepending any text and a comma to the raw header changes nothing |
| ClientAddress.PrependMattersIffAllTrusted | bff/app/throttle.py:150-157 | a prefix can change the answer exactly when every hop in the header and the peer is trusted |
| ClientAddress.UntrustedPeerIsFinal | bff/app/throttle.py:143-157 | an untrusted peer makes the header irrelevant |
| ClientAddress.SplitThenJoin | bff/app/throttle.py:150-150 | splitting at commas loses nothing and leaves no comma in an entry |
| ClientAddress.EntriesAreClean | bff/app/throttle.py:150-150 | an entry is never blank and carries no surrounding space |
| ClientAddress.EntryAppended | bff/app/throttle.py:150-150 | an entry appended behind a comma, padded as it may be, is the last one, stripped |
| ClientAddress.LastEntryIsFirstHop | bff/app/throttle.py:150-157 | and so the hop that is met right after the peer |
| ClientAddress.MappedHopIsItsV4 | bff/app/throttle.py:95-113 | an IPv4-mapped IPv6 hop is trusted exactly as the IPv4 address it carries |
| ClientAddress.TrustedIff | bff/app/throttle.py:95-113 | a hop is trusted exactly when it parses, its scope id dropped, and a network of its own version holds it; a mapped address counts as IPv4 |
| ClientAddress.UnparsedHopYieldsThePeer | bff/app/throttle.py:108-110 | a hop that does not parse ends the walk with the peer as the answer |
| CatalogClient.CatalogRunIsBounded | bff/app/catalog_client.py:201-265 | over every concurrent run: configured implies an address and a credential, the declared tenant is fixed, at most three sends and three resolver calls a request, every resend differs from what the client held when the failure was handled, one resolver call in flight, forced exactly when the client is configured, and an unforced one 30 s or more after any before it |
| CatalogClient.AnswerIsTheLastReply | bff/app/catalog_client.py:201-265 | over every concurrent run, what a finished request answers: misconfigured exactly when the last reply it got was a misdelivery 403; response c exactly when that was status c and not such a refusal; unavailable exactly when nothing was sent or the last send failed in transport; and a 401, where there is a resolver, only on the third send or after giving up the repeat |
| CatalogClient.BeginDoes | bff/app/catalog_client.py:201-210 | a configured request sends what the client holds; any other wants to resolve, or is unavailable without a resolver |
| CatalogClient.EnterDoes | bff/app/catalog_client.py:150-170 | under the resolve lock: one that has since been configured is sent, a cold one within 30 s of the last attempt is unavailable, every other asks |
| CatalogClient.ReceiveDoes | bff/app/catalog_client.py:209-246 | which replies make the request resolve again, and that every other finishes it |
| CatalogClient.ResolveDoes | bff/app/catalog_client.py:171-199 | what an answer changes, and that the call is repeated exactly when the address, or the credential, is now another |
| CatalogClient.RepeatIsPossibleIff | bff/app/catalog_client.py:226-246 | at any point of any run: a request whose send fails in transport, or is refused with a 401, can go on to repeat that very send if and only if the client's address, or its credential, has changed since it was made |
| CatalogClient.UntriedIsPossibleIff | bff/app/catalog_client.py:226-246 | and it can give up while the client holds an address, or a credential, it never sent, if and only if the same has changed |
| CatalogClient.ResolverIsAskedWhileConfigured | bff/app/catalog_client.py:226-227 | a run in which an explicitly configured client consults its resolver |
| CatalogClient.UnforcedCallsAreRare | bff/app/catalog_client.py:150-170 | at most 1 + floor(L / 30) unforced resolver calls in any closed interval of length L |
| CatalogClient.ConfigurationIsMonotone | bff/app/catalog_client.py:188-199 | from any point of any run, a configured client stays configured and keeps the tenant it declares |
| CatalogClient.Catalog.BeginResolve | bff/app/catalog_client.py:150-170 | whether to answer at once or call the resolver, and what the attempt records |
| CatalogClient.Catalog.EndResolve | bff/app/catalog_client.py:171-186 | only a nonblank address and credential are adopted, and the answer is whether the client is configured |
| CatalogClient.Catalog.Adopt | bff/app/catalog_client.py:188-199 | changes address, credential and configured, and not the declared tenant |
| CatalogClient.Catalog.constructor | bff/app/catalog_client.py:100-125 | configured only with both settings, and a provider console declares no tenant |
| TenantEstate.TenantDirectory.Entries | bff/app/tenant_directory.py:44-73 | after any refreshes: a tenant with a row in the last successful listing is shown as its last row there says, with the configured name where the row has none of its own; any other as configured, or not at all |
| TenantEstate.TenantDirectory.Overlay | bff/app/tenant_directory.py:62-73 | the loop builds configuration overlaid by the enrolled tenants |
| TenantEstate.TenantDirectory.Refresh | bff/app/tenant_directory.py:93-137 | the enrolled set is always that of the last successful listing, and stale says whether the last refresh failed |
| TenantEstate.EstateAfter | bff/app/tenant_directory.py:44-73 | the same of the estate as a function of the replies, failed ones included |
| TenantEstate.FailuresChangeNothing | bff/app/tenant_directory.py:103-116 | any number of failed refreshes leaves the estate as it was |
| TenantEstate.ListingIsTheLastRow | bff/app/tenant_directory.py:118-127 | a listing holds exactly the tenants with a row, each as its last row says |
| GatewayPool.TenantGatewayPool.BeginGet | bff/app/gateway_pool.py:53-93 | `get` up to its await: an unlisted tenant is refused, a cached client returned, one with a token file built at once from that tenant's own entry, and only a tenant of the catalog's waits for a credential |
| GatewayPool.TenantGatewayPool.EndGet | bff/app/gateway_pool.py:65-80 | `get` from the credential on: a new client for the entry read before, filed under its tenant whatever has happened meanwhile, or unreachable if the catalog could not be asked |
| GatewayPool.TenantGatewayPool.Get | bff/app/gateway_pool.py:53-93 | with nothing in between: a client only for a listed tenant, built on first use from that tenant's own entry and credential, the same one after that, and never shared between tenants |
| GatewayPool.TenantGatewayPool.Invalidate | bff/app/gateway_pool.py:95-104 | drops one tenant's client and keeps the others |
| GatewayPool.ClientsStayCurrentIff | bff/app/gateway_pool.py:65-80 | over every run, from the start or from an invalidation on: a tenant's client is always where the tenant was last listed if and only if no refresh moves the tenant while it has one, none lists it again elsewhere after it had gone, and no credential arrives for an address the tenant has left |
| GatewayPool.MovedTenantKeepsItsClient | bff/app/gateway_pool.py:65-80 | a client once cached stays as it is, whatever refreshes say, until its tenant is invalidated |
| GatewayPool.MovedTenantIsReachedAtItsOldAddress | bff/app/gateway_pool.py:66-80 | a run that ends with a tenant listed at one address and reached at another |
| GatewayPool.ClientsAreTheirTenants | bff/app/gateway_pool.py:53-80 | over every run, however lookups interleave, a tenant's client points to an address that tenant itself was listed at |
| GatewayPool.OldClientReturnsIff | bff/app/gateway_pool.py:95-104 | after an invalidation a client from before it can come back if and only if a lookup of that tenant is waiting for its credential when the invalidation happens |
| Enrolment.FourSteps | bff/app/routers/enrolment.py:131-251 | for every outcome of every call, calls that cannot be sent and answers that are lost after the catalog has acted included: success exactly when the gateway reports the requested tenant and its credential is recorded; one withdrawal attempted for each handled failure from redemption to verification and none otherwise; missing fields or settings reach no service; the outcome names the answer that ended it; and exactly when a minted credential is left neither withdrawn nor recorded |
| Enrolment.UnreadablePortLeavesCredential | bff/app/routers/enrolment.py:164-187 | a gateway address with an unreadable port leaves one, with every service up |
| Enrolment.LostMintLeavesCredential | bff/app/routers/enrolment.py:158-162 | so does a catalog that mints and whose answer is lost: nothing is withdrawn |
| Enrolment.LostWithdrawalLeavesCredential | bff/app/routers/enrolment.py:97-108 | so does a withdrawal that does not reach the catalog: it is neither retried nor reported |
| Enrolment.OutcomeDoesNotTell | bff/app/routers/enrolment.py:105-108 | the same calls and the same answer to the operator, with the credential left behind in one case and withdrawn in the other |
| Enrolment.Redeem | bff/app/routers/enrolment.py:111-266 | only after such a success is the pool's client for the tenant dropped and the estate read again, as the corresponding steps of the pool |
| BackupRestore.ApplyIsBoundToItsPreview | web/src/components/BackupRestore.tsx:66-115 | over every sequence of edits, file loads, clicks, answers and errors, each apply carries exactly the archive, passphrase, conflict mode and dead-letter flag of the preview that issued its plan token |
| BackupRestore.PreviewBetweenApplies | web/src/components/BackupRestore.tsx:100-111 | two applies always have an answered preview between them |
| BackupRestore.SignatureInjective | web/src/components/BackupRestore.tsx:25-32 | equal signatures mean equal inputs |
| BackupRestore.PreviewCarriesTheForm | web/src/components/BackupRestore.tsx:77-100 | a preview carries the archive, conflict mode, dead-letter flag and stripped passphrase the form shows, and no plan token; busy or blank, nothing happens |
| BackupRestore.ApplyCarriesThePlan | web/src/components/BackupRestore.tsx:77-192 | an apply goes out exactly when a plan made from the inputs as they are is on the screen, with those inputs and its token |
| BackupRestore.ReplyIsShown | web/src/components/BackupRestore.tsx:101-114 | the report on the screen is the one answered; a preview binds it to the inputs it was made from, an apply spends it, an error clears it |
| BackupRestore.RestorePanel.BeginRun | web/src/components/BackupRestore.tsx:77-100 | what `run` does up to its await |
| BackupRestore.RestorePanel.EndRun | web/src/components/BackupRestore.tsx:101-114 | what `run` does after its await: the report is bound to the inputs captured when it was sent |
| BackupRestore.RestorePanel.PickedFileLoaded | web/src/components/BackupRestore.tsx:117-128 | a file that finishes loading replaces the text and withdraws the plan |
| JsonText.DecodeEscape | web/src/components/BackupRestore.tsx:31-31 | a string written by JSON.stringify reads back, lone surrogates included, and its end is unambiguous |
| JsonText.EscapesOnlyWhatItMust | web/src/components/BackupRestore.tsx:31-31 | exactly the controls, quotes, backslashes and lone surrogates are escaped, in printable ASCII |
| ToolArguments.BuildArguments | web/src/toolArgs.ts:135-197 | the loop computes, field by field, the arguments or the errors the rule below says |
| ToolArguments.EveryFieldHasItsPlace | web/src/toolArgs.ts:143-194 | every required field lands in exactly one of arguments and errors, an optional one that is untouched or blank in neither; the argument is what was entered, as the field's kind reads it: the checkbox as ticked, the integer the digits denote, the number or JSON the text parses to, the stripped text; and the message is the one for what is wrong |
| ToolArguments.SuccessSendsExactly | web/src/toolArgs.ts:143-196 | on success the keys are exactly the fields required or touched, and boolean or not blank; it fails exactly when some field has to be reported |
| ToolArguments.UntouchedFormSendsTheRequired | web/src/toolArgs.ts:145-149 | an untouched form names exactly its required fields |
| ToolArguments.UntouchedSchemaSendsItsRequired | web/src/toolArgs.ts:64-86 | from a schema: the untouched form names exactly the properties the schema lists as required |
| ToolArguments.FieldsForIsWellFormed | web/src/toolArgs.ts:88-119 | one field per property, and a checkbox exactly for the boolean ones |
| ToolArguments.FieldDescribesItsProperty | web/src/toolArgs.ts:64-119 | each field has its property's name, kind, options and default, and is required exactly if the schema lists it |
| ToolArguments.InitialValuesAreTheFields | web/src/toolArgs.ts:122-124 | each control starts at its own field's default |

## Left out

- HTTP, cookies and their signing, Redis, file encodings and React rendering: only the state steps they trigger are modelled, with every reply nondeterministic.
- Token validation, PKCE, the code exchange and `oidc.py`; the actor pseudonym in an audit record, which arrives here as part of the payload text.
- The refresh protocol and the catalog client's `request` as imperative code: their steps interleave with other requests, so they are state machines on values; `Relay.RefreshOidcAccessToken` and `CatalogClient.Catalog` are the uninterrupted stretches in place.
- TokenRefresh.RefreshIsSafe: does not cover stale whole-session write-backs, for which `TokenRefresh.PersistIsSafeIffNotStale` gives the exact condition, nor a provider that consumes a refresh token and loses its answer.
- AuditLog.AuditLog.Record: does not model a write that leaves part of a line behind, nor a payload whose JSON text changes when read back (nested non-string keys).
- AuditChain.VerifyChain: does not model an `instance` field that is not a string, on some of which the source raises.
- ClientAddress.ClientIp: does not model `ipaddress` parsing and network membership, which are parameters; header text is Latin-1.
- GatewayPool.TenantGatewayPool.EndGet: does not model which of two credentials, from before or after a re-enrolment, the catalog hands a lookup that overlaps it.
- TenantEstate.TenantDirectory.Refresh: does not model a listing whose rows are not objects, on which the source raises.
- Enrolment.FourSteps: does not model a process that stops half-way, what the catalog does with a tenant it already lists, the audit records it writes, the stripping of form fields, or the status codes it answers with (a refusal by the gateway whose body is JSON but no object is answered with a 500, after the withdrawal). Which calls the HTTP library can build is a parameter.
- ToolArguments.BuildArguments: does not model a property named `__proto__`, titles and descriptions, or which number texts `Number` accepts.
- `readOutcome`, `hasFields`, `outcome_for`, `actor_from_session`, `provider_scopes_for_groups`, `requestable_scopes_for` and the route guards: short case splits.
- `routers/api.py`, `routers/catalog.py`, `routers/support.py`: relays; their session writes are the write-back steps of `TokenRefresh` and `SessionPlanes`.
- `bootstrap.py`, `config.py`, `tenant_registry.py`, `correlation.py`, `tokens.ts`, `useCountdown.ts` and the remaining components.
