# A model of the metering service's protocols, with proofs

The modules model five parts of the repository and prove what they promise over all inputs and all runs.

- **Workspaces, sessions and API keys** (`internal/auth`, with the tables and WHERE clauses of the SQLite
  repository). `AuthTables` has the tables and each committed statement as a value; `AuthPlans` says which
  statements an operation commits, in which order, and what it answers; `AuthService` is the service object,
  whose methods read, check and write step by step and are proved to carry out a prefix of that plan, all of it
  unless a repository call fails; `AuthRuns`, `AuthInvitations`, `AuthKeys` and `AuthSessions` prove properties of
  every finite run. `AuthGuards` says what a caller must have shown before each single statement and who can change or
  end a membership; `AuthAnswers` says exactly when each operation succeeds, for whom, and that a registered password
  logs in; neither statement mentions a plan. `AuthRoundTrips` follows tokens, keys and invitations
  from the call that issues them to the call that takes them. `AuthConformance` closes the circle: what a method did
  is a step of such a run.
  `Authorization` is the policy decision, `UsageTracking` the cache that throttles last-use updates,
  `WorkspaceChoice` the default-workspace query and `SqliteTime` the text in which SQLite keeps instants.
- **Retries** (`sdk/go/stream`, `sdk/go/retry`, `sdk/python`). `Wire` and `Bits` are the hand-written reader of
  protobuf bytes, after "Base 128 Varints" and "Message Structure" of the Protocol Buffers encoding;
  `RetryInfo` digs the server's delay out of them; `Backoff` has the policies and the two ways of computing a
  delay with 64-bit wrap-around written out; `RetryLoop` has the three loops, proved against one description of a trace;
  `RetryGuidance` follows a delay from the server's answer to the wait; `RetryWaits` tells, of the retries a run
  announces, how long each of its waits is.
- **The load generator** (`cmd/loadtest`): `LoadPlan` splits events into operations, `LoadShares` says what each
  scenario gets and in which shape, `WorkerPool` is the pool as a
  state machine under any schedule, `LoadSummary` the report, `NearestRank` the percentiles.
- **The dashboard's store** (`web/src/product`): `DashboardStore` is the generation guard as a state machine of
  requests, answers and session changes in any order, `DashboardLanding` says row by row what every answer leaves in
  its list, `AppStores` is the object whose actions refine it.
- `Runs` has what is shared by all state machines; `Text`, `Options`, `Numbers` and `Sequences` are small helpers.

## How the world outside is taken

Each repository call happens at once and may fail without effect; which one fails, what the clock shows and which
random names are drawn at each call site are arguments (`AuthPlans.Env`). Random ids and tokens are new, `HashToken`
is injective, emails are ASCII. Operations run one after another; a run may cut any of them short after any of its
writes. Nothing is assumed of the clock except where a statement compares two of its readings.
Whoever accepts an invitation carries the address stored for its user, as every principal the service hands out does
(`AuthSessions.PrincipalsStayAuthentic`, `AuthRoundTrips.LoginIsAuthentic`).
Network calls, contexts and random numbers of the clients are arguments too (`RetryLoop.World`).

## Where the code and what is expected of it part

Each of these is proved: the exact condition under which the expectation holds, and an input for which it does not.

- The doubling loop of the stream client is min(MaxBackoff, InitialBackoff * 2^(attempt-1)) on every attempt, and stays
  within its bounds, exactly when the first doubling to reach 2^62 is not below the maximum; no maximum up to 2^62 ns
  can overflow, the largest one does (`Backoff.LoopIsClosedExactly`, `Backoff.LoopStaysInRangeExactly`,
  `Backoff.LargestMaximumOverflows`). A delay that has gone negative fires at once, so the bound on the total wait
  holds for every policy all the same (`RetryLoop.TotalWaitIsBounded`).
- The shift form of the REST client is the capped product on its first n attempts exactly when
  InitialBackoff * 2^(n-1) fits 64 bits: the first product that does not comes out negative. So a whole run waits as
  intended exactly when its last wait can be computed (`RetryWaits.RestWaitsAreGrownExactly`; the stream client's
  counterpart is `RetryWaits.StreamWaitsAreGrownExactly`). With the default backoffs the 38th delay is negative, and from
  the 65th attempt on there is no wait at all (`Backoff.ShiftIsClosedExactly`, `Backoff.RestRunIsClosedExactly`,
  `Backoff.DefaultShiftGoesNegative`, `Backoff.ShiftVanishes`). It is the doubling loop of the stream client wherever
  the product fits, and for how long beyond is exact as well (`Backoff.LoopIsShiftWhileItFits`,
  `Backoff.LoopRunIsShiftExactly`).
- The REST client's normalisation leaves the maximum below the initial backoff exactly when the maximum is defaulted
  and the initial backoff exceeds five seconds (`Backoff.RestNormalExactly`, `Backoff.RestNormalFails`).
- A Retry-After number of seconds is honoured exactly up to 9,223,372,036; one second more turns negative, and the
  client falls back on its own backoff (`Backoff.SecondsHonouredExactly`, `RetryLoop.RestForgetsLongSeconds`).
- The Python client recognises a RetryInfo by the end of its type URL, the Go client by the message name; they
  agree on all statuses over given type URLs exactly when none of these ends in the name without naming it
  (`RetryInfo.ClientsAgreeExactly`). The type URL "xgoogle.rpc.RetryInfo" does (`RetryInfo.ImpostorParts`).
- The dashboard shows whoever is signed in rows asked for by that user and workspace, in the current generation, at
  every moment of a run exactly when no step of it is one of two kinds (`DashboardStore.AlwaysOwnedExactly`,
  `DashboardStore.StepKeepsOwnedExactly`): an alert evaluation, or the cancelling or retrying of an export job, that
  lands late with a row to show (`DashboardStore.LateEvaluationLeaks`), or a sign-out that settles after somebody else
  has signed in and has rows on show or requests under way (`DashboardStore.LateSignOutStrands`). The second kind
  strands rows with nobody signed in, but never shows them to somebody else (`DashboardStore.SignedInSeeTheirOwn`).
- SQLite compares instants as text without trailing zeros, and so does PostgreSQL under a bytewise ("C") collation
  (`internal/metering/adapters/postgres/migrations/001_init.up.sql:4-95`). That is the order of time except when both fall in
  one second and the digits of one fraction continue those of the other, where it is the reverse
  (`SqliteTime.TextOrderIsTimeOrderExactly`). So a session may outlive its expiry, and a revocation date move later, by
  less than a second (`SqliteTime.HalfASecondTooLong`, `SqliteTime.RevocationMovesLater`); an invitation's expiry and
  the age of a membership in the default-workspace order are compared in the same way.

Further conditions are exact where the program as it stands never meets their failing side, or meets it beyond any
sensible input: the "all" row of the load report is the sum of the scenario rows exactly when no scenario is itself
named "all" (`LoadSummary.AllRowIsTheSumExactly`), and the generator names none so (`LoadSummary.ReportIsComplete`);
the Go and the Python client, told a delay, wait for the same time exactly when it fits 64 bits of nanoseconds
(`RetryGuidance.GuidanceIsSharedExactly`). Member checks read the trimmed user id while the writes use it as given;
since stored ids carry no white space, the row written is the row checked (`AuthLawful.CheckedRowIsWrittenRow`).

## Model

| member | source | states |
|---|---|---|
| AuthTables.ApplyKeepsInv | internal/metering/adapters/sqlite/migrations/001_init.up.sql:1-105 | every committed statement keeps unique indexes, references, provenance of memberships, one open invitation per address, and lineage links |
| AuthTables.ApplyKeepsMembers | internal/metering/adapters/sqlite/auth_repository.go:63-77 | a membership stays the founder's own or the fruit of an invitation accepted by that very user |
| AuthTables.ApplyKeepsOneOpen | internal/metering/adapters/sqlite/migrations/001_init.up.sql:44-49 | the partial unique index: one open invitation per workspace and address |
| AuthTables.ApplyKeepsKeys | internal/metering/adapters/sqlite/migrations/001_init.up.sql:88-103 | token hashes stay unique and keys keep an existing user and workspace |
| AuthTables.ApplyKeepsLineage | internal/metering/adapters/sqlite/auth_repository.go:366-390 | a replaced key stays dated within the grace period and has at most one replacement |
| AuthHistory.ApplyEvolves | internal/auth/service.go:33-64 | a statement never rewrites users or workspaces, reopens invitations, postpones a revocation or revives a session |
| AuthHistory.ApplyKeepsOwners | internal/auth/workspace.go:180-222 | a workspace with an owner keeps one under every statement |
| AuthHistory.ApplyAllEvolves | internal/auth/service.go:33-64 | the invariant and the direction of history over any lawful sequence of statements |
| AuthLawful.PlansAreLawful | internal/auth/service.go:279-421 | for every operation, caller and state, each statement of its plan meets its unique, foreign and WHERE conditions when its turn comes |
| AuthLawful.CheckedRowIsWrittenRow | internal/auth/workspace.go:180-222 | the row the trimmed id is checked on is the row the raw id changes |
| AuthLawful.UpdateMemberLawful | internal/auth/workspace.go:180-202 | demoting an owner happens only beside another owner |
| AuthLawful.RemoveMemberLawful | internal/auth/workspace.go:204-222 | removing an owner happens only beside another owner |
| AuthLawful.WithdrawingClears | internal/auth/workspace.go:103-119 | after the expired invitation is withdrawn no open one is in the way |
| AuthLawful.AcceptLawful | internal/auth/workspace.go:143-171 | acceptance admits the addressee only, while the invitation is pending and the membership absent |
| AuthLawful.FirstExternalLoginLawful | internal/auth/service.go:503-525 | a first external login may commit user, identity, workspace, founder and both sessions, each prefix of it being lawful |
| AuthRuns.EveryPossibleRunIsARun | internal/auth/service.go:33-64 | from any tables that meet the invariant every sequence of operations by callers with their own address, each cut short or not, is a run: the invariant is established at every step |
| AuthRuns.RunKeepsInv | internal/auth/service.go:33-64 | the table invariant holds after the last step of a run too, also when operations are cut short |
| AuthRuns.RunEvolves | internal/auth/service.go:33-64 | any later state of a run extends the earlier ones |
| AuthRuns.OwnersNeverVanish | internal/auth/workspace.go:180-222 | a workspace that has ever had an owner has one in every later state |
| AuthRuns.OnlyAcceptanceAdmits | internal/auth/workspace.go:143-171 | a non-member of a standing workspace becomes a member only by accepting an invitation to it |
| AuthRuns.GrantsNeedMembership | internal/auth/service.go:535-542 | every login, refresh, switch, token or key that works is backed by a membership at that moment |
| AuthRuns.RemovalIsEffective | internal/auth/workspace.go:204-222 | once out, no access or refresh token, API key, login or switch succeeds for that workspace until an invitation to it is accepted |
| AuthRuns.RemovalRemoves | internal/auth/workspace.go:204-222 | a removal reported done has taken exactly that membership away |
| AuthGuards.EveryWriteIsWarranted | internal/auth/service.go:279-808 | every single statement of every operation, cut short or not, was preceded by what it takes: the password, a provider's vouched name, a token of the right kind, the owner's or administrator's role in that very workspace, the address invited, the ownership of the key |
| AuthGuards.OnlyOwnersRemove | internal/auth/workspace.go:204-222 | over any run a member that is gone was removed by a caller with the owner's role in its workspace, who named it |
| AuthGuards.OnlyOwnersChange | internal/auth/workspace.go:180-222 | over any run a membership stays as it is, role included, until an owner of its workspace changes or ends it |
| AuthGuards.RemovalExactly | internal/auth/workspace.go:204-222 | done iff the caller is owner, the user a member, and not the last owner; forbidden iff not owner; conflict iff last owner; done means exactly that membership gone, anything else nothing |
| AuthGuards.RoleChangeExactly | internal/auth/workspace.go:180-202 | done iff the caller is owner, the role known, the user a member, and an owner is left; forbidden iff not owner; done means exactly that role changed |
| AuthAnswers.RegistrationExactly | internal/auth/service.go:279-309 | registered iff the address is one and new and the password has eight characters; then the user is stored with that address and password and owns a workspace, and no other user has changed |
| AuthAnswers.LoginExactly | internal/auth/service.go:442-460 | unauthorized iff no user has the address and that password; otherwise that user is logged in, into the default workspace or a new one of its own |
| AuthAnswers.RegisteredPasswordLogsIn | internal/auth/service.go:279-460 | in every later state of a run the registered address lets in exactly those who give the password of the registration, as the user registered |
| AuthAnswers.ExternalLoginExactly | internal/auth/service.go:462-525 | logged in iff the provider's name is known, or verified with an address that is known or registration is open; forbidden iff only the closed registration stands in the way; as the tied user, the one with the address, or a new one |
| AuthAnswers.ExternalLoginTies | internal/auth/service.go:488-525 | the provider's name then leads to that user, and no other name's target has changed |
| AuthAnswers.AuthenticationExactly | internal/auth/service.go:750-786 | accepted iff an access session stands behind the token, unexpired, of a present member; as that user in its present role; nothing is written |
| AuthAnswers.RefreshExactly | internal/auth/service.go:695-748 | the same of refresh tokens |
| AuthAnswers.EndSessionExactly | internal/auth/service.go:788-794 | exactly the session of the token is gone |
| AuthAnswers.EndedForGood | internal/auth/service.go:788-794 | in no later state of a run does the token of an ended session let anyone in |
| AuthAnswers.SwitchExactly | internal/auth/workspace.go:47-58 | a session in the other workspace iff the user exists and is a member there, with each refusal told apart |
| AuthAnswers.KeyAuthenticationExactly | internal/auth/service.go:615-663 | accepted iff the key with the token's hash is neither revoked nor expired and its user a member; with the scopes, meters and dates of that key |
| AuthAnswers.KeyUseIsRecorded | internal/auth/service.go:633-642 | the use of a live key is recorded exactly when the throttle asks for it, and nothing else is written |
| AuthAnswers.KeyCreationExactly | internal/auth/service.go:311-362 | issued iff user, workspace, name, scopes and expiry are acceptable, with the refusals told apart |
| AuthAnswers.RotationExactly | internal/auth/service.go:382-421 | issued iff the key is the caller's own in its workspace, undated, unexpired, and the grace at most a day |
| AuthAnswers.KeyDeletionExactly | internal/auth/service.go:796-808 | done iff the key is the caller's own in its workspace and not yet revoked |
| AuthAnswers.InvitingTakes | internal/auth/workspace.go:82-100 | forbidden iff neither owner nor administrator, invalid iff the address or the offered role is not one |
| AuthAnswers.OfferedExactly | internal/auth/workspace.go:245-251 | exactly the administrator's and the viewer's role can be offered |
| AuthAnswers.WithdrawalExactly | internal/auth/workspace.go:173-178 | done iff owner or administrator and the invitation is open and of the workspace; then it is revoked and nothing else has changed |
| AuthRuns.InvitationHistory | internal/auth/workspace.go:261-272 | invitations never disappear and settle at most once |
| AuthRuns.KeyHistory | internal/auth/service.go:382-421 | keys never disappear, their rights are fixed, a revocation date only moves closer |
| AuthRuns.SessionHistory | internal/auth/service.go:695-794 | a token issued once has the session it had, or none |
| AuthInvitations.OneOpenPerAddress | internal/auth/workspace.go:82-133 | at most one invitation per workspace and case-folded address is neither accepted nor revoked in any reachable state |
| AuthInvitations.InviteConflictExactly | internal/auth/workspace.go:90-119 | conflict if and only if the address is a member's or has a pending invitation |
| AuthInvitations.ConflictChangesNothing | internal/auth/workspace.go:103-119 | a conflict leaves all tables as they were although the loop may revoke |
| AuthInvitations.StatusIsFinal | internal/auth/workspace.go:261-272 | with time and operations a status never returns to pending nor leaves accepted or revoked |
| AuthInvitations.AcceptSettles | internal/auth/workspace.go:143-171 | an acceptance finds the invitation pending and addressed to the user, and settles it |
| AuthInvitations.InvitationAdmitsOnce | internal/auth/workspace.go:143-171 | no invitation is accepted twice in a run, by anybody |
| AuthInvitations.MembershipsHaveProvenance | internal/auth/service.go:883-888 | from empty tables every member is the founder or was admitted by an earlier acceptance of its invitation |
| AuthInvitations.OriginsAreDistinct | internal/metering/adapters/sqlite/auth_repository.go:180-199 | two memberships never stem from one invitation |
| AuthKeys.RotatedOnce | internal/auth/service.go:382-421 | each key is rotated at most once in a run |
| AuthKeys.ChainsAgree | internal/auth/service.go:382-421 | chains of replacements from one key never fork |
| AuthKeys.OneUndatedKeyPerLineage | internal/metering/adapters/sqlite/auth_repository.go:366-390 | in any reachable state a lineage has at most one key without a revocation date |
| AuthKeys.RotatedKeyDies | internal/auth/service.go:388-396 | from 24 hours after its replacement was made a rotated key is dead |
| AuthKeys.DeadKeysStayDead | internal/auth/service.go:615-635 | a key once revoked or expired is refused by every later authentication, with nothing written |
| AuthKeys.RotationPreservesAuthority | internal/auth/service.go:651-662 | while both live, two keys of a lineage get the same verdict on every action and resource |
| AuthSessions.RefreshReplaces | internal/auth/service.go:695-748 | a successful refresh replaces the session by one access and one refresh session of the same user and workspace |
| AuthSessions.RefreshTokensAreSingleUse | internal/auth/service.go:695-748 | a refresh token succeeds at most once in any run |
| AuthSessions.TokenKindsNeverMix | internal/auth/service.go:589-591 | a token ever good for one use is never good for the other, in no later state and at no time |
| AuthSessions.PrincipalsStayAuthentic | internal/auth/service.go:601-663 | a principal handed out for a session or an API key carries the stored address of its user ever after |
| AuthRoundTrips.LoginIsAuthentic | internal/auth/service.go:535-587 | so does the principal that comes with a login, refresh, switch or acceptance |
| AuthSessions.AuthenticStays | internal/auth/workspace.go:143-171 | a principal with its user's own address, which is what acceptance compares, keeps it in every later state |
| AuthRoundTrips.LoginTokensWork | internal/auth/service.go:535-587 | after every successful login, refresh, switch or acceptance the access token stands for the reported session for exactly 15 minutes, the refresh token for 30 days, neither for the other's use |
| AuthRoundTrips.IssuedKeyWorks | internal/auth/service.go:311-362 | a new key's token names it until exactly the expiry asked for, with the normalised scopes and meters asked for |
| AuthRoundTrips.RotationHandsOver | internal/auth/service.go:382-421 | the new token works at once, the former one to the end of the grace period, both end with the same expiry |
| AuthRoundTrips.DeletionIsImmediate | internal/auth/service.go:796-808 | a deleted key is dead from the moment of deletion |
| AuthRoundTrips.InvitationLastsAWeek | internal/auth/workspace.go:120-133 | the token handed out leads to an invitation with the address and role asked for, pending for exactly seven days |
| AuthRoundTrips.InvitationAdmitsExactly | internal/auth/workspace.go:143-171 | the token admits its bearer, in the role offered, iff within the week, of the invited address, existing and no member |
| AuthRoundTrips.FirstUserOwns | internal/auth/service.go:279-309 | a registration in empty tables is a run, and leaves its user owning a workspace |
| AuthRoundTrips.FreshNamesExist | internal/auth/service.go:842-851 | whatever has been issued, the assumption of new, different, trimmed random names can be met |
| AuthConformance.ServedIsStep | internal/auth/service.go:33-64 | what a service method did to the tables and answered is one step of a run |
| AuthConformance.ServedIsWarranted | internal/auth/service.go:33-64 | every statement a service method has committed was warranted by what its caller had shown |
| AuthConformance.ServedLoginTakesPassword | internal/auth/service.go:442-460 | tokens from a served login are those of the user with the address and the password |
| AuthService.ServedKeepsInv | internal/auth/service.go:33-64 | whatever part of its plan a method carried out, the invariant holds and history moves forward |
| AuthService.Service.CreateLoginResultForWorkspace | internal/auth/service.go:535-587 | both sessions or an error, only for a member |
| AuthService.Service.EnsureDefaultWorkspace | internal/auth/service.go:864-893 | the default workspace, or a new one with its founder; a failure may leave the workspace without its founder |
| AuthService.Service.CreateLoginResult | internal/auth/service.go:527-533 | login into the default workspace |
| AuthService.Service.CreateUser | internal/auth/service.go:279-309 | user, workspace and founder in this order, or conflict, or invalid input |
| AuthService.Service.Login | internal/auth/service.go:442-460 | password login and all its refusals |
| AuthService.Service.LoginWithExternalIdentity | internal/auth/service.go:462-525 | known identity, linking a verified address, registration, or the refusals |
| AuthService.Service.AuthenticateToken | internal/auth/service.go:750-786 | the principal of a live session of the right kind whose user is still a member |
| AuthService.Service.RefreshSession | internal/auth/service.go:695-748 | consume the refresh session, then store two new ones |
| AuthService.Service.EndSession | internal/auth/service.go:788-794 | deletes the session of the token |
| AuthService.Service.SwitchWorkspace | internal/auth/workspace.go:47-58 | new sessions in another workspace of the user's |
| AuthService.Service.AuthenticateAPIKeyPrincipal | internal/auth/service.go:615-663 | the key's principal, the last-use update when due, the reservation given back when that fails, and the tracker untouched when no live key is found or the lookup fails |
| AuthService.Service.CreateAPIKey | internal/auth/service.go:311-362 | a key with normalised scopes and meters |
| AuthService.Service.RotateAPIKey | internal/auth/service.go:382-421 | replacement and scheduled revocation in one transaction |
| AuthService.Service.DeleteAPIKey | internal/auth/service.go:796-808 | revokes a live key of one's own |
| AuthService.Service.CreateWorkspaceInvitation | internal/auth/workspace.go:82-133 | the loop over the workspace's invitations carries out the plan: conflict, or withdraw an expired one and insert |
| AuthService.Service.ClearExpired | internal/auth/workspace.go:103-119 | the loop itself, in any order of the listing |
| AuthService.Service.AcceptWorkspaceInvitation | internal/auth/workspace.go:143-171 | membership, settled invitation and both sessions, or the refusals |
| AuthService.Service.RevokeWorkspaceInvitation | internal/auth/workspace.go:173-178 | withdraws an open invitation of one's workspace |
| AuthService.Service.UpdateWorkspaceMember | internal/auth/workspace.go:180-202 | role change with the last-owner guard |
| AuthService.Service.RemoveWorkspaceMember | internal/auth/workspace.go:204-222 | removal with the last-owner guard |
| WorkspaceChoice.DefaultIs | internal/metering/adapters/sqlite/queries/auth.sql:17-31 | the ordering leaves exactly one answer |
| WorkspaceChoice.DefaultExists | internal/metering/adapters/sqlite/queries/auth.sql:17-31 | whoever belongs anywhere has one |
| WorkspaceChoice.DefaultIsPreferred | internal/metering/adapters/sqlite/queries/auth.sql:17-31 | it is the one workspace preferred to all others: owned before administered before the rest, then the oldest membership, then the first id |
| WorkspaceChoice.FindDefaultWorkspace | internal/metering/adapters/sqlite/queries/auth.sql:17-31 | an answer is found whenever the user belongs anywhere, and it is the first in the ordering |
| Authorization.Decide | internal/auth/authorization.go:154-202 | without an engine everything passes, an engine's error is passed on; otherwise a session may iff it is owner's, administrator's, or a viewer's that reads, and a key iff the table has the action and neither role, dates, scopes nor meters hinder it |
| Authorization.KeyMayExactly | internal/auth/authorization.go:154-202 | a key may iff the action is one of the table's twelve rows and none of role, dates, scopes and meters stands in the way, each spelled out |
| Authorization.TableExactly | internal/auth/authorization.go:125-144 | the rows for keys are those twelve and no others |
| Authorization.CoveringExactly | internal/auth/authorization.go:249-260 | a scope covers an action iff it is the star, the action, or the star of what stands before the action's first colon |
| Authorization.AllowedScopesExactly | internal/auth/authorization.go:57-77 | the scopes a key may be given |
| Authorization.DefaultScopesArePlain | internal/auth/authorization.go:49-55 | the scopes of who asks for none |
| Authorization.ScopesRefusedExactly | internal/auth/authorization.go:204-230 | refused iff something unsupported or nothing but blanks is named |
| Authorization.CanMonotoneInScopes | internal/auth/authorization.go:249-260 | added scopes never take a permission away |
| Authorization.CanMonotoneInRole | internal/auth/authorization.go:154-202 | what a viewer may do, an admin or owner may do |
| Authorization.CanIgnoresLiveDates | internal/auth/authorization.go:154-202 | dates matter only through having passed |
| Authorization.WildcardIsReadAndWrite | internal/auth/authorization.go:249-260 | on every action keys may perform a family wildcard means read plus write |
| Authorization.NormalizeAPIKeyScopes | internal/auth/authorization.go:204-230 | the loop keeps first occurrences, refuses unsupported scopes and blank-only input |
| Authorization.NormalizeAllowedMeters | internal/auth/authorization.go:232-247 | first occurrences of the non-blank names, case kept |
| Authorization.FirstOccurrencesAreExact | internal/auth/authorization.go:204-247 | exactly the non-empty values survive, each once |
| Authorization.NormalizedScopesGrant | internal/auth/authorization.go:204-260 | stored scopes grant an action if and only if a cleaned requested scope covers it |
| UsageTracking.UsageTracker.ShouldUpdate | internal/auth/service.go:665-685 | answer and new state of the tracker, deleting loop included |
| UsageTracking.AnswersExactly | internal/auth/service.go:665-693 | for all call sequences with a clock that never goes back: yes iff the stored use is a minute old or missing and no unreleased grant of the key is younger |
| UsageTracking.UsageTracker.Release | internal/auth/service.go:687-693 | gives back exactly the reservation it names |
| UsageTracking.CleanupIsInvisible | internal/auth/service.go:665-693 | for all call sequences with a clock that never goes back, the same answers as a tracker that never forgets |
| UsageTracking.GrantsAreSpaced | internal/auth/service.go:665-685 | unreleased grants of one key are a minute apart |
| UsageTracking.MemoryIsBounded | internal/auth/service.go:675-683 | right after a grant every entry is younger than two intervals |
| Bits.OrIsSum | sdk/python/open_spanner_client/stream.py:335-348 | OR of a number and a shifted group that do not overlap is their sum |
| Bits.AndMask | sdk/python/open_spanner_client/stream.py:302-348 | a mask of low ones is the remainder |
| Wire.ReadVarint | sdk/python/open_spanner_client/stream.py:338-348 | the loop over shifts and ORs computes the base-128 value, malformed past ten groups or the end |
| Wire.ReadInvertsEncodeExactly | sdk/python/open_spanner_client/stream.py:338-348 | at any offset the encoding of a value is read back and the offset moves past it, if and only if it is below 2^70 |
| Wire.ProtobufBytes | sdk/python/open_spanner_client/stream.py:302-318 | the loop collects the wanted payloads from every offset on, or fails on a malformed varint |
| Wire.ProtobufVarint | sdk/python/open_spanner_client/stream.py:321-335 | the loop finds the first wanted varint |
| Wire.PayloadsRoundTrip | sdk/python/open_spanner_client/stream.py:302-318 | of any encoded list of fields exactly the wanted payloads, in order |
| Wire.NumberRoundTrip | sdk/python/open_spanner_client/stream.py:321-335 | of any encoded list of fields the first wanted varint, or none |
| RetryInfo.RetryInfoDelaySeconds | sdk/python/open_spanner_client/stream.py:281-299 | the loops over metadata and details give the first entry's first positive delay, skipping what is malformed |
| RetryInfo.PythonFollowsGo | sdk/go/stream/retry.go:96-103 | on every encoded status without impostors Python finds the delay of the detail the Go loop selects, and none when Go finds none |
| RetryInfo.MetadataFollowsGo | sdk/python/open_spanner_client/stream.py:281-299 | over a whole list of trailing metadata: the delay Go finds in the first status that has one, passing over other keys, text, malformed bytes and statuses without a delay |
| RetryInfo.OneStatusDecides | sdk/python/open_spanner_client/stream.py:281-299 | with one status among the entries, that status decides |
| RetryInfo.ImpostorParts | sdk/python/open_spanner_client/stream.py:287-290 | a readable status on which Python waits a second and Go sees no delay |
| RetryGuidance.PythonWaitsAsTold | sdk/python/open_spanner_client/stream.py:272-278 | what the metadata reader returns is what the retry loop waits for |
| RetryGuidance.FirstOfferDecides | sdk/go/stream/retry.go:96-103 | the Go client takes the delay of the first RetryInfo detail with a positive one, and of no other |
| RetryGuidance.GuidanceIsSharedExactly | sdk/go/stream/retry.go:96-103 | told a delay, both clients wait for the same time iff it fits 64 bits of nanoseconds |
| RetryInfo.ClientsAgreeExactly | sdk/python/open_spanner_client/stream.py:281-299 | the clients agree on all statuses over given type URLs if and only if none is an impostor |
| Backoff.DoublingLoop | sdk/go/stream/retry.go:104-111 | the loop with 64-bit doubling |
| Backoff.LoopIsClosedExactly | sdk/go/stream/retry.go:104-111 | the loop is the capped product on all attempts if and only if no doubling passes 2^63 below the maximum |
| Backoff.NoOverflowUpTo2To62 | sdk/go/stream/retry.go:104-111 | exact for every maximum up to 2^62 ns |
| Backoff.DoublingFits | sdk/go/stream/retry.go:104-111 | the loop is the capped product wherever the product fits 64 bits, whatever the maximum |
| Backoff.LoopRunIsClosedExactly | sdk/go/stream/retry.go:104-111 | the loop is the capped product on the first n attempts iff no doubling ever wraps or the n-th product fits 64 bits |
| Backoff.LoopIsShiftWhileItFits | sdk/go/retry/retry.go:95 | the doubling loop of the one client is the shift form of the other whenever the maximum is at least the initial backoff and the product fits 64 bits |
| Backoff.LoopRunIsShiftExactly | sdk/go/retry/retry.go:95 | for every normal policy they agree on the first n attempts iff the n-th product fits, or the maximum lies beyond all doublings that do not wrap and no wrapped product comes back up to it before |
| Backoff.LargestMaximumOverflows | sdk/go/stream/retry.go:104-111 | an input where the loop goes negative |
| Backoff.LoopIsMonotone | sdk/go/stream/retry.go:104-111 | the loop's delays never shrink and stay between initial and maximum while no doubling wraps |
| Backoff.LoopStaysInRangeExactly | sdk/go/stream/retry.go:104-111 | and they stay there on all attempts exactly for those policies |
| Backoff.ClosedIsMonotone | sdk/go/retry/retry.go:90-96 | the capped product never shrinks and stays between initial and maximum |
| Backoff.RestNormalExactly | sdk/go/retry/retry.go:64-79 | the REST policy is normal, and equal to the stream policy, unless a defaulted maximum meets a longer initial backoff |
| Backoff.ShiftIsClosedWhileItFits | sdk/go/retry/retry.go:90-100 | the shift form is the capped product while that fits 64 bits |
| Backoff.ShiftIsClosedExactly | sdk/go/retry/retry.go:90-100 | agreement with the capped product on the first n attempts iff the n-th product fits 64 bits |
| Backoff.RestRunIsClosedExactly | sdk/go/retry/retry.go:38-62 | a whole REST run waits as intended iff InitialBackoff * 2^(MaxAttempts-2) fits 64 bits |
| Backoff.ShiftVanishes | sdk/go/retry/retry.go:90-100 | no wait from the 65th attempt on |
| Backoff.DefaultShiftGoesNegative | sdk/go/retry/retry.go:90-100 | an input where the shift form goes negative |
| Backoff.SecondsHonouredExactly | sdk/go/retry/retry.go:131-140 | Retry-After seconds are honoured exactly up to the longest duration |
| Backoff.LongestSecondsWrap | sdk/go/retry/retry.go:131-140 | the least number of seconds that wraps, and what to |
| RetryLoop.RestForgetsLongSeconds | sdk/go/retry/retry.go:90-94 | the REST client takes one second more than a duration holds for no guidance at all |
| Backoff.JitterBound | sdk/go/stream/retry.go:112-115 | jitter stays between nothing and (1 + jitter) times the delay |
| RetryLoop.RetryDelay | sdk/go/stream/retry.go:96-116 | guidance first, else doubling and jitter |
| RetryLoop.RetryUnary | sdk/go/stream/retry.go:59-85 | the loop produces the described trace; the return after it is reached exactly by a policy without attempts |
| RetryLoop.TrackWithRetryPolicy | sdk/go/stream/client.go:116-121 | a policy that enters through normalisation never reaches that return |
| RetryLoop.Do | sdk/go/retry/retry.go:38-62 | the REST loop produces the described trace and never falls through |
| RetryLoop.PythonRetryUnary | sdk/python/open_spanner_client/stream.py:248-261 | the Python loop produces the same kind of trace |
| RetryLoop.PythonTrack | sdk/python/open_spanner_client/stream.py:97-112 | a policy normalised when the client is made never reaches the error after the loop |
| RetryLoop.TraceShape | sdk/go/stream/retry.go:59-85 | between 1 and MaxAttempts calls, all but the last retryable failures, retries numbered from 2, result the last call's or the cancelled wait's |
| RetryLoop.StreamDelayIsNaturalExactly | sdk/go/stream/retry.go:96-116 | no announced delay is negative iff no doubling wraps |
| RetryLoop.TotalWaitIsBounded | sdk/go/stream/retry.go:104-115 | for every normalised policy the unguided waits sum to at most (MaxAttempts - 1)(1 + Jitter) MaxBackoff |
| RetryLoop.RestTotalWaitIsBounded | sdk/go/retry/retry.go:90-100 | the same of the REST client for every policy it is given |
| RetryLoop.PythonTotalWaitIsBounded | sdk/python/open_spanner_client/stream.py:272-278 | the same of the Python client |
| RetryWaits.RestWaitsGrow | sdk/go/retry/retry.go:90-100 | of the retries a REST run announces: a guided wait is the guidance; an unguided one without jitter or at the middle draw is min(MaxBackoff, InitialBackoff * 2^i) while that product fits, and with jitter within 1 -/+ jitter of it |
| RetryWaits.RestWaitsAreGrownExactly | sdk/go/retry/retry.go:38-62 | for every policy, all waits of a run without guidance and jitter are those iff the product for the last of them fits 64 bits |
| RetryWaits.StreamWaitsGrow | sdk/go/stream/retry.go:96-116 | the same of the stream client's runs, as long as no doubling wraps |
| RetryWaits.StreamWaitsAreGrownExactly | sdk/go/stream/retry.go:59-116 | all waits are those iff the doublings pass the maximum without wrapping or the last product fits |
| RetryWaits.PythonWaitsGrow | sdk/python/open_spanner_client/stream.py:272-278 | the same of the Python client's runs, in seconds, without a condition |
| LoadPlan.Split | cmd/loadtest/main.go:627-636 | both loops give the equal shares |
| LoadPlan.SharesAddUp | cmd/loadtest/main.go:627-636 | shares sum to the total, differ by at most one, and are all positive iff there are enough events |
| LoadPlan.SixDigitsInjective | cmd/loadtest/main.go:291-305 | index formatting is injective, also past six digits |
| LoadPlan.KeyOfInjective | cmd/loadtest/main.go:291-305 | different indices give different keys |
| LoadPlan.Builder.ChunkEvents | cmd/loadtest/main.go:638-650 | the loop cuts consecutive new events into batches and records every key |
| LoadPlan.ChunksAreFull | cmd/loadtest/main.go:638-650 | batches are full except possibly the last, none is empty |
| LoadPlan.BuildOperations | cmd/loadtest/main.go:291-377 | all operations and expected keys, or the coverage error exactly when a scenario got nothing |
| LoadPlan.CoverageErrorExactly | cmd/loadtest/main.go:372-377 | the coverage error is reached exactly below five events |
| LoadPlan.OperationsPartitionKeys | cmd/loadtest/main.go:163-174 | for all accepted options: exactly `events` distinct keys, each in exactly one operation, nothing else carried |
| LoadShares.OperationsAreShaped | cmd/loadtest/main.go:307-371 | the two unary scenarios send single events, the others between one and a batch size, each event under its scenario's protocol |
| LoadShares.ScenariosGetTheirShare | cmd/loadtest/main.go:307-371 | each scenario's operations carry a fifth of the events, one more in the first scenarios if they do not divide |
| WorkerPool.StepKeepsSound | cmd/loadtest/main.go:406-438 | every step keeps the multiset of operations and closes the channel before giving up work |
| WorkerPool.OperationsAreConserved | cmd/loadtest/main.go:406-438 | under every schedule waiting, dropped, in-flight and measured operations are the original multiset |
| WorkerPool.NoWorkerBlocks | cmd/loadtest/main.go:407-418 | a worker that holds an operation always finds room in the result buffer |
| WorkerPool.SomeStepIsPossible | cmd/loadtest/main.go:409-432 | no deadlock before all workers have returned |
| WorkerPool.SchedulesAreFinite | cmd/loadtest/main.go:409-432 | every schedule ends, within twice the operations plus the workers plus two steps |
| WorkerPool.MeasurementsArePermutation | cmd/loadtest/main.go:432-438 | with a worker and without cancellation the measurements are a permutation of the operations |
| WorkerPool.WithoutWorkersNothingIsMeasured | cmd/loadtest/main.go:409-438 | why the concurrency must be positive |
| LoadSummary.Summarize | cmd/loadtest/main.go:440-462 | both loops: one row per scenario, the shared row, and the failure lines in order |
| LoadSummary.TallyCounts | cmd/loadtest/main.go:443-457 | a row counts the measurements that failed, as many as there are failure lines, and holds the duration of each measurement in order |
| LoadSummary.LinesInOrder | cmd/loadtest/main.go:449-460 | the line of a failed measurement names its scenario and error and stands behind those of the earlier failures |
| LoadSummary.ScenariosAddUp | cmd/loadtest/main.go:443-457 | the rows of distinct names covering the scenarios sum to the row of all measurements |
| LoadSummary.AllRowIsTheSumExactly | cmd/loadtest/main.go:441-447 | the shared row is that sum if and only if no scenario is named "all" |
| LoadSummary.ReportIsComplete | cmd/loadtest/main.go:97-148 | from accepted options through any shuffle and any uncancelled schedule, the shared row counts every operation once and all events, and is the sum of the scenario rows |
| NearestRank.Percentile | cmd/loadtest/main.go:652-660 | a sample of the nearest rank, zero for no samples, input unchanged |
| NearestRank.NearestRankIsMonotone | cmd/loadtest/main.go:652-660 | one sample per rank, and a higher rank never gives a smaller one |
| NearestRank.RankIsCeiling | cmd/loadtest/main.go:658-659 | for a quantile in (0, 1] the clamped index is the ceiling, monotone in the quantile |
| NearestRank.OrderDoesNotMatter | cmd/loadtest/main.go:656-657 | the percentile depends on the samples, not on the order they arrived in |
| DashboardStore.AlwaysTidy | web/src/product/app-store.ts:698-786 | under every interleaving ids stay distinct and a loading-more flag means a request of this generation in flight |
| DashboardStore.AlwaysOwnedExactly | web/src/product/app-store.ts:450-475 | all rows and requests of this generation belong to who is signed in, at every moment of a run, iff no step is a harmful late answer or a harmful late sign-out |
| DashboardStore.SignedInSeeTheirOwn | web/src/product/app-store.ts:466-475 | however late sign-outs settle: rows are of the current generation, and whoever is signed in sees only their own |
| DashboardStore.StepKeepsOwnedExactly | web/src/product/app-store.ts:917-931 | a step keeps everything owned by who is signed in iff it is no late unguarded answer with a row to show and no sign-out settling on somebody's rows or requests |
| DashboardStore.SignedOutExactly | web/src/product/app-store.ts:1685-1693 | a sign-out that settles keeps everything owned iff nobody is signed in or nothing is listed or under way |
| DashboardStore.LandKeepsRowsExactly | web/src/product/app-store.ts:2036-2066 | a landing answer keeps rows owned iff its request is of this generation, is guarded, or has no row to show |
| DashboardStore.StepKeepsFlags | web/src/product/app-store.ts:759-786 | the flag's meaning survives guarded and unguarded answers, resets and new loads |
| DashboardStore.StepKeepsDistinct | web/src/product/app-store.ts:2233-2243 | appending and merging pages with distinct ids keeps ids distinct |
| DashboardStore.QuietRefreshNeverShrinks | web/src/product/app-store.ts:732-758 | a quiet refresh never shortens a list nor loses its place |
| DashboardStore.MergeIsNoShorter | web/src/product/app-store.ts:2233-2243 | a merge is as long as either list |
| DashboardStore.AppendUniqueKeeps | web/src/product/app-store.ts:2237-2243 | the current rows stay in front and ids stay distinct |
| DashboardLanding.AnswersAreShown | web/src/product/app-store.ts:698-2066 | an answer that is not dropped does row by row what its action promises: full loads and details replace, a refresh replaces or is joined in front, further pages are joined behind, a new job or event comes first, an updated job stays in place, a deletion takes away the rows of its parent alone; other lists stay |
| DashboardLanding.MoreIsListed | web/src/product/app-store.ts:1552-1571 | after a further page the old rows keep place and content, the ids are the old ones and the page's, every new row stands once behind them in the page's order, the cursor is the page's, the flag is cleared |
| DashboardLanding.JoinedIds | web/src/product/app-store.ts:2233-2243 | a joined list shows exactly the ids of its parts |
| DashboardLanding.FailuresLeaveRows | web/src/product/app-store.ts:1024-1054 | a failed answer leaves every row, except that failed details empty their list |
| DashboardLanding.StaleAnswersAreDropped | web/src/product/app-store.ts:698-731 | a guarded answer of another generation changes nothing |
| DashboardStore.LateEvaluationLeaks | web/src/product/app-store.ts:917-931 | a run in which one user's alert event shows in another's list |
| DashboardStore.LateSignOutStrands | web/src/product/app-store.ts:1685-1693 | a run in which rows stay on show with nobody signed in |
| AppStores.AppStore.SetSession | web/src/product/app-store.ts:466-475 | resets exactly when user or workspace changes |
| AppStores.AppStore.ResetUserDataState | web/src/product/app-store.ts:458-464 | a new generation with empty lists |
| AppStores.AppStore.AlertsLoaded | web/src/product/app-store.ts:698-731 | the guarded continuation of a full load |
| AppStores.AppStore.PlansLoaded | web/src/product/app-store.ts:990-1022 | the second stage is sent for the generation of the first |
| AppStores.AppStore.PlanDetailsLoaded | web/src/product/app-store.ts:1024-1054 | the second stage replaces, or clears on failure |
| AppStores.AppStore.UsageControlsLoaded | web/src/product/app-store.ts:1472-1517 | replaces and clears the flag only when it lands |
| AppStores.AppStore.Reloaded | web/src/product/app-store.ts:1518-1543 | replace, or merge and keep the cursor |
| AppStores.AppStore.LoadMore | web/src/product/app-store.ts:1544-1551 | no request without a cursor or while one is loading |
| AppStores.AppStore.MoreLoaded | web/src/product/app-store.ts:1552-1571 | append, then clear the flag, only in the same generation |
| AppStores.AppStore.ExportQueued | web/src/product/app-store.ts:1992-2020 | prepend the job and refresh |
| AppStores.AppStore.AlertEvaluated | web/src/product/app-store.ts:917-931 | lands whatever the generation |
| AppStores.AppStore.ExportUpdated | web/src/product/app-store.ts:2036-2066 | lands whatever the generation |
| AppStores.AppStore.Deleted | web/src/product/app-store.ts:873-895 | filters whatever the generation |
| SqliteTime.TextOrderIsTimeOrderExactly | internal/metering/adapters/sqlite/sqlite.go:8-10 | the texts are ordered as the instants, except exactly when one fraction continues the other in the same second |
| SqliteTime.ExpiryIsExactToTheSecond | internal/metering/adapters/sqlite/queries/auth.sql:118-121 | the expiry test is right outside the second of the expiry |
| SqliteTime.RevocationMovesWithinASecond | internal/metering/adapters/sqlite/queries/auth.sql:159-163 | a revocation date moves later at most within its own second |
| SqliteTime.RevocationMovesLater | internal/metering/adapters/sqlite/queries/auth.sql:159-163 | a date that moves half a second later |
| SqliteTime.HalfASecondTooLong | internal/metering/adapters/sqlite/queries/auth.sql:118-121 | an expired session that passes |

## Left out

- Metering, entitlements, consumption, rollups, the outbox and alert delivery: their rules depend on interfaces and generated code that is not part of this model.
- Interleaving of several service calls: the check and the write of one operation are separate repository calls; operations run one after another here, with any of them cut short.
- bcrypt, SHA-256, UUIDs and token generation: injective or fresh values; bcrypt's 72-byte limit is not modelled.
- Display names, key prefixes, the API-key event log beyond the related key, and the list endpoints: they are read by no decision.
- The Casbin engine: only its inline matcher and policy table.
- Instants in the auth tables are numbers compared as such; what SQLite's text comparison changes is stated apart, in `SqliteTime`. The PostgreSQL repository stores and compares the same text; under a bytewise ("C") collation `SqliteTime` speaks of it as well, other collations are not modelled.
- AuthRuns.KeyHistory: compares instants as numbers; on the stored text a revocation date can move later within its own second (`SqliteTime.RevocationMovesWithinASecond`).
- AuthRoundTrips.LoginTokensWork: the limits are exact on numeric instants; on the stored text the test errs within the second of the expiry.
- AuthRoundTrips.InvitationAdmitsExactly: exact on numeric instants; the acceptance's own test of the expiry, on the stored text, errs within the second of the expiry.
- WorkspaceChoice.FindDefaultWorkspace: orders memberships by numeric instants; on the stored text two memberships made within one second may come in the other order.
- AuthHistory.ApplyEvolves: says nothing of membership roles beyond the owner guarantee, because owners may change them; who can is `AuthGuards.OnlyOwnersChange`.
- AuthGuards.EveryWriteIsWarranted: takes the role a caller's principal carries as shown; a principal handed out before a change of role carries the role it had then, as in the code.
- AuthSessions.TokenKindsNeverMix: asks for sessions whose users exist, so that the principal can be named; every reachable state has them.
- Wire.ProtobufBytes: covers what the reader does with the two wire types it knows; other types end the scan, as in the code. Negative durations, sent as ten-byte varints, are not given a meaning.
- RetryLoop.PythonRetryUnary: delays are exact reals; floating-point rounding and overflow of very large powers are not modelled.
- RetryLoop.RetryDelay: the jitter product is an exact real where Go rounds to a 64-bit float, in both Go clients; a jittered delay beyond 64 bits, whose conversion Go leaves to the platform, is kept as the number it is.
- RetryWaits.RestWaitsGrow: the bounds under jitter are about exact products, in `RetryWaits.StreamWaitsGrow` and `RetryWaits.PythonWaitsGrow` too.
- Backoff.JitterBound: about the exact product, without the rounding of 64-bit floats.
- RetryLoop.StreamDelayIsNaturalExactly: speaks of jittered delays as numbers, so of those that fit 64 bits after jitter.
- NearestRank.Percentile: the quantile times the sample count is an exact real; the rounding of the floating-point product is not modelled. Sorting is a library call and is taken as a function that sorts.
- WorkerPool.SomeStepIsPossible: an operation that never returns is a worker that takes no step; fairness of the scheduler is not modelled.
- DashboardStore.AlwaysOwnedExactly: lists keyed by a selected subject, and rules, destinations, plans and saved queries, follow the same guard and are not modelled; statuses, error texts and selections neither.
- Rendering, routing, fetching, generated SDK models, configuration, metrics, server start-up and shutdown.
