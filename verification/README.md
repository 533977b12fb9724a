# DP Beget Bridge: verified core

A Dafny model of the parts of the bridge whose correctness depends on many steps in
many orders, and proofs about them.

| files | what they model |
|---|---|
| `StateStore.dfy`, `Operations.dfy`, `Outcomes.dfy` | the managed-operation ledger: its rows and transactions, the store object, and every interleaving of command runners, monitors, interrupts, purges, crashes and restart reconciliation |
| `AuthTables.dfy`, `AuthInvariant.dfy`, `AuthSeal.dfy`, `AuthExact.dfy`, `AuthStore.dfy` | owners, clients, grants, token families and refresh tokens: the commits as functions, their invariant, the reset barrier, what each call answers and leaves behind, and the store object |
| `OAuth.dfy`, `OAuthInvariant.dfy`, `OAuthServer.dfy`, `OAuthEndpoints.dfy`, `OAuthAnswers.dfy` | the authorization server over that store and its in-memory maps, and exactly when each endpoint succeeds and what it leaves behind |
| `OAuthMachine.dfy`, `OAuthRuns.dfy`, `OAuthRefresh.dfy`, `OAuthApproval.dfy`, `OAuthBarrier.dfy`, `OAuthExamples.dfy` | whole runs of the server beside the owner's commands, one commit a step (section 4.14.2 of RFC 9700, section 4.1.2 of RFC 6749, section 4.6 of RFC 7636, section 2.1 of RFC 7009) |
| `Utf8.dfy`, `Transcript.dfy`, `TranscriptGaps.dfy`, `Segments.dfy`, `Capture.dfy`, `TranscriptFiles.dfy` | transcript cursors, chunked reading cut at code points (section 3 of RFC 3629), the segmented log, its inventory and its writer |
| `Migration.dfy`, `MigrationInit.dfy`, `MigrationSchemas.dfy` | schema migration and its recovery under crashes, and what the two migrations do to the rows |
| `Admission.dfy`, `AdmissionRuns.dfy`, `AdmissionSlips.dfy` | the session limit and the transcript quota, over runs in which a reservation looks at the sessions while they change |
| `PathPolicy.dfy`, `PathOverlap.dfy`, `Files.dfy` | which paths may be changed, which overlaps are recognised, and publishing, copying and moving files under failing system calls |
| `Results.dfy`, `Text.dfy`, `Numbers.dfy` | option and result values; decimal numerals, splitting and joining; minimum and maximum |

Objects whose methods update fields are classes whose methods are proved equal to
functions of the old state; what holds over whole runs is proved about those functions.
Where the source awaits, a step ends, and so it does at every commit to the auth store:
the owner's commands run in another process (auth-admin.mjs) and may commit between the
reading a request relies on and its write. A class method is one request undisturbed.
Clock readings, random identifiers, the contents of control files, liveness and the outcome
of each file system call are inputs, and the results hold for all of them; clocks need not
advance. Of control files it is assumed that one appears only for a command that was pasted
into its terminal.

Facts about the code that its documentation or a reader might expect otherwise, each
proved below:

- INTERRUPTED is not final while the writer of the operation is suspended.
- After an interrupt the one-writer index can refuse a RUNNING write.
- A reset that commits between a request's check and its insertion leaves a grant, and then
  bearers, active under an unconsumed bootstrap. The barrier holds exactly in the runs
  without such a stale write; bearers issued before the reset stay out in every run.
- A refresh that is refused for its scope, for want of time or because of an owner command
  after its rotation has nevertheless rotated.
- A crash while the migration marker is written stops every later init; no row is lost.
- An upload can report an error after it has published: exactly when the unlink fails, or
  the publication goes through and then the close of the parent directory fails.
- An overwriting move between two names of one file succeeds and changes nothing.
- An open that is saved and released between the listing and the count of another
  reservation is in neither: limits and quota can be exceeded by one session for each.
- Two removals that may fail, and a restart, leave logs that the quota does not count.
- Overlapping paths can pass the overlap test exactly when a path that is not a root lies
  strictly between two configured roots (of roots with one name each); a configured root
  "/" admits nothing.

## Model

| member | source | states |
|---|---|---|
| StateStore.AdmitKeepsConstraints | apps/agent/src/state-store.js:383-433 | admission keeps the foreign key, the unique (session, key) pair and the one-writer index, without the index ever having to refuse |
| StateStore.UpdateKeepsConstraints | apps/agent/src/state-store.js:450-471 | no column or status an update may carry can break a constraint: the update either goes through or is refused by the one-writer index |
| StateStore.PurgeKeepsConstraints | apps/agent/src/state-store.js:374-381 | deleting a session with its operations leaves the other rows and every constraint intact |
| StateStore.ExitRecordReadsBack | apps/agent/src/state-store.js:276-296 | a control record is accepted exactly when it is the plain decimal of an exit code up to 255, with at most one newline, and then reads back as that code |
| StateStore.Store.AdmitOperation | apps/agent/src/state-store.js:383-433 | the store object admits a fresh request, returns the row of a repeated one, refuses a conflicting or a busy one; only the first changes the tables |
| StateStore.Store.UpdateOperation | apps/agent/src/state-store.js:450-471 | the row takes the new status and the given columns and keeps the others; an update the index refuses, or of no row, changes nothing |
| StateStore.Store.InterruptActiveOperation | apps/agent/src/state-store.js:473-480 | the session's one active operation, if any, becomes INTERRUPTED |
| StateStore.ExaminesExactly | apps/agent/src/state-store.js:276-296 | no evidence exactly without a file; an exit code n exactly for a file that holds the decimal of some n up to 255 with at most one newline, together with the file's time; an error for every other file |
| StateStore.Store.ReadOperationCompletion | apps/agent/src/state-store.js:276-296 | what a caller gets: null exactly when there is no file, code and time exactly when the file is the record of that code, an error exactly when it is the record of none |
| StateStore.VerdictSettles | apps/agent/src/state-store.js:215-244 | what a control record leads to: the record of 0 to SUCCEEDED, of any other code to FAILED, each with that code and the time of the file, no record and an unreadable one to UNKNOWN with its own reason; all other columns are kept |
| StateStore.Store.ReconcileUncertainOperations | apps/agent/src/state-store.js:215-244 | after the loop every ACCEPTED or RUNNING row reports what its own control record says, column by column, and every other row is untouched |
| StateStore.DecidesExactly | apps/agent/src/state-store.js:383-433 | a bound key finds its own row or conflicts, a new key is refused while the session has an active operation, and otherwise the new row says what was asked; each outcome exactly in its case, and only the last changes anything |
| StateStore.PurgesExactly | apps/agent/src/state-store.js:374-381 | the session goes with exactly its own operations |
| StateStore.Store.Purge | apps/agent/src/state-store.js:374-381 | only a closed session is deleted, with its operations and nothing else |
| Operations.StepKeepsInv | apps/agent/src/tmux.js:508-552 | every step of every actor, crash and restart keeps the ledger invariant: rows agree with their writers, evidence with the records, outcomes with the evidence |
| Outcomes.MonitorReports | apps/agent/src/tmux.js:508-552 | a monitor that reads a control file reports what it says on the stored RUNNING row, column by column, and ends; without a file nothing is reported while it asks whether the terminal lives |
| Outcomes.PublishedIs | apps/agent/src/tmux.js:620-623 | what the command wrapper has moved into place is the record that a later reading finds |
| Outcomes.JudgesExactly | apps/agent/src/tmux.js:516-532 | the same with other steps between its reading and its writing: the row reports the file, or the index refuses, which it cannot for a RUNNING row |
| Outcomes.ProbesExactly | apps/agent/src/tmux.js:533-540 | without a record: it goes on watching a live terminal, and a RUNNING row of a dead one becomes UNKNOWN, lost with its session |
| Outcomes.ReconcilesExactly | apps/agent/src/state-store.js:215-244 | one row of the restart reconciliation in the machine, by the record it has read |
| Outcomes.WritesExactly | apps/agent/src/tmux.js:592-646 | what starting, a failed preparation, a failed paste and an interrupt write, column by column |
| Operations.SettledIsFinal | apps/agent/src/tmux.js:508-683 | in any run a settled row whose writer is gone never changes again |
| Operations.OutcomeIsFinal | apps/agent/src/tmux.js:508-683 | SUCCEEDED and FAILED are absorbing under every interleaving, crash and reconciliation: no column changes later |
| Operations.UnknownLeavesOnlyToInterrupted | apps/agent/src/tmux.js:508-683 | UNKNOWN is left only by an interrupt, and then for good |
| Operations.OutcomeHasEvidence | apps/agent/src/state-store.js:215-244 | SUCCEEDED is reported only with a published exit code 0 of that very command, pasted once; FAILED only with a nonzero one or if it was never pasted; this assumes that a control record appears only for a command that was pasted |
| Operations.InjectedAtMostOnce | apps/agent/src/tmux.js:592-646 | in one life of a session a key's command reaches the terminal at most once, over retries, crashes and restarts |
| Operations.RetryReturnsTheRow | apps/agent/src/state-store.js:383-433 | until its session is purged, a retry gets the first row back, a different fingerprint is refused, and neither changes anything |
| Operations.RejectedExactly | apps/agent/src/state-store.js:144-146 | the one-writer index refuses an issued update exactly when an interrupt released the slot and another operation holds it |
| Operations.IndexIdleWithoutInterrupt | apps/agent/src/state-store.js:144-146 | in every run without an interrupt the index never refuses an update: admission alone keeps one active operation per session |
| Operations.IndexCanRefuse | apps/agent/src/tmux.js:624-636 | a concrete run with one interrupt in which the RUNNING write is refused |
| Operations.InterruptedCanBeOverwritten | apps/agent/src/tmux.js:624-636 | from any reachable INTERRUPTED row whose writer is suspended some steps overwrite it; with SettledIsFinal, INTERRUPTED is final exactly when no writer is left |
| AuthInvariant.ReplayTestsAgree | packages/auth/src/auth-store.js:557 | in an active family the two replay tests, token status and generation, decide the same |
| AuthInvariant.NextGenerationFree | packages/auth/src/auth-store.js:562-580 | the generation a rotation inserts is never taken, so its uniqueness constraint cannot fail |
| AuthInvariant.RotatedSafe | packages/auth/src/auth-store.js:562-590 | a rotation keeps the whole invariant: generations filled once, older ones consumed, one active |
| AuthInvariant.RotateSafe | packages/auth/src/auth-store.js:511-597 | every outcome of a rotation, success, expiry, replay or storage failure, keeps the invariant and moves rows only forward |
| AuthInvariant.RegisterSafe | packages/auth/src/auth-store.js:333-364 | an undisturbed registration keeps the invariant, whatever its outcome |
| AuthInvariant.CreateGrantSafe | packages/auth/src/auth-store.js:381-425 | an undisturbed grant keeps the invariant, whatever its outcome |
| AuthInvariant.CreateTokenFamilySafe | packages/auth/src/auth-store.js:441-483 | a new family, undisturbed, is nested in its grant and keeps the invariant, and a refused one leaves the tables consistent |
| AuthInvariant.WriteFamilySafe | packages/auth/src/auth-store.js:464-482 | the inserting transaction alone keeps the invariant for any row whose fixed columns fit its grant, whatever has become of the grant's status since it was read |
| AuthInvariant.ResetSafe | packages/auth/src/auth-store.js:710-755 | a reset keeps the invariant and moves rows only forward |
| AuthExact.BootstrapsExactly | packages/auth/src/auth-store.js:282-306 | each answer of a bootstrap exactly in its case, and the pending row it stores |
| AuthExact.ConsumesExactly | packages/auth/src/auth-store.js:308-327 | a bootstrap is consumed exactly while pending and unexpired with its own secret, each refusal told apart; only the time of consumption changes |
| AuthExact.WritesClientExactly | packages/auth/src/auth-store.js:342-363 | the writing of a client goes through exactly for a new one or one stored with this very owner and redirect |
| AuthExact.RegistersExactly | packages/auth/src/auth-store.js:333-364 | a registration is accepted exactly from a paired owner for such a client; the row is enabled with exactly that owner and redirect, and a refusal changes nothing |
| AuthExact.CreatesGrantExactly | packages/auth/src/auth-store.js:381-425 | each answer of a grant exactly in its case, and the row it stores |
| AuthExact.ReadsGrantExactly | packages/auth/src/auth-store.js:427-439 | the row read, expired first exactly when it is active and due |
| AuthExact.CreatesFamilyExactly | packages/auth/src/auth-store.js:441-483 | a family and its first token are stored exactly for a grant that holds and that they do not outlive; the two rows, and nothing else |
| AuthExact.ReadsFamilyExactly | packages/auth/src/auth-store.js:485-509 | the row read, expired with its active tokens first exactly when it is active and due |
| AuthExact.RefusesRotationExactly | packages/auth/src/auth-store.js:537-561 | each refusal of a rotation exactly in its case; a due family expires, a reused one is compromised with its active tokens revoked, and nothing else changes |
| AuthExact.RotatesRows | packages/auth/src/auth-store.js:562-590 | the rows of a rotation: the token consumed now, its successor the next generation expiring with the family |
| AuthExact.RevokesFamilyExactly | packages/auth/src/auth-store.js:599-625 | a family is revoked exactly for its own owner, with exactly its active tokens |
| AuthExact.RevokesTokenExactly | packages/auth/src/auth-store.js:627-648 | a stored token revokes its family exactly when no client is named or its own is |
| AuthExact.RevokesGrantExactly | packages/auth/src/auth-store.js:650-676 | a grant is revoked exactly for its own owner, with exactly its families that are active or compromised and its active tokens |
| AuthExact.RevokesOwnerExactly | packages/auth/src/auth-store.js:678-708 | an owner's access ends exactly for a stored owner: its active grants, open families and active tokens, and nothing of another owner |
| AuthExact.ResetsExactly | packages/auth/src/auth-store.js:710-755 | a reset also disables exactly the owner's clients and leaves the new bootstrap pending; each refusal exactly in its case |
| AuthSeal.WriteClientSeals | packages/auth/src/auth-store.js:342-358 | the writing of a client keeps the reset barrier exactly when the owner is paired at that moment |
| AuthSeal.WriteGrantSeals | packages/auth/src/auth-store.js:409-423 | the insertion of a grant keeps the barrier exactly when the owner is paired at that moment |
| AuthSeal.WriteFamilySeals | packages/auth/src/auth-store.js:464-478 | the insertion of a family keeps the barrier and the closure under revocation exactly when the owner is paired and the grant not revoked at that moment |
| AuthSeal.UnpairedOwnerHasNothing | packages/auth/src/auth-store.js:710-755 | behind the barrier, an owner whose bootstrap is unconsumed has no active client, grant, family or refresh token |
| AuthStore.Store.CreateOwnerBootstrap | packages/auth/src/auth-store.js:282-306 | creates the single owner row, or refuses and changes nothing |
| AuthStore.Store.ConsumeOwnerBootstrap | packages/auth/src/auth-store.js:308-327 | consumes the pending bootstrap once, with the right secret and before it expires |
| AuthStore.Store.InsertClient | packages/auth/src/auth-store.js:342-363 | the commits after the reading of the owner: a client is written, re-enabled or refused for its redirect or owner, whatever the owner's state is by then |
| AuthStore.Store.RegisterClient | packages/auth/src/auth-store.js:333-364 | undisturbed: registers or re-enables a client of a paired owner; a client never changes owner or redirect |
| AuthStore.Store.InsertGrant | packages/auth/src/auth-store.js:409-424 | the commit after the reading of the client: the grant is stored unless its id is taken, whatever the client's state is by then |
| AuthStore.Store.CreateGrant | packages/auth/src/auth-store.js:381-425 | undisturbed: a grant is stored only for an enabled client of the same owner, with supported scopes and a positive lifetime |
| AuthStore.Store.GetGrant | packages/auth/src/auth-store.js:427-439 | reading a grant expires it when it is due |
| AuthStore.Store.InsertFamily | packages/auth/src/auth-store.js:464-482 | the transaction after the reading of the grant: family and first token together or, after the rollback, neither |
| AuthStore.Store.CreateTokenFamily | packages/auth/src/auth-store.js:441-483 | undisturbed: a family and its first token for an active grant that matches and outlives them, or neither |
| AuthStore.Store.GetTokenFamily | packages/auth/src/auth-store.js:485-509 | reading a family expires it and its tokens when it is due |
| AuthStore.Store.ReplaceToken | packages/auth/src/auth-store.js:562-590 | consume, insert and advance happen all or not at all |
| AuthStore.Store.RotateRefreshToken | packages/auth/src/auth-store.js:511-597 | the statements, with their early commits and their rollback, perform exactly one rotation transaction |
| AuthStore.Store.RevokeTokenFamily | packages/auth/src/auth-store.js:599-625 | ends the family of the given owner and its active token, or reports that there is none |
| AuthStore.Store.RevokeRefreshToken | packages/auth/src/auth-store.js:627-648 | ends the family of any stored token of the given client, consumed ones included |
| AuthStore.Store.RevokeGrant | packages/auth/src/auth-store.js:650-676 | ends the grant and every open family of it |
| AuthStore.Store.RevokeOwnerAccess | packages/auth/src/auth-store.js:678-708 | ends every grant and open family of the owner |
| AuthStore.Store.ResetOwnerAccess | packages/auth/src/auth-store.js:710-755 | also disables the owner's clients and puts a new unconsumed bootstrap in place |
| OAuthServer.OAuthSpike.CleanupAll | packages/auth/src/oauth-spike.js:333-338 | the three deleting loops leave exactly the entries that have not expired |
| OAuthServer.OAuthSpike.BeginAuthorization | packages/auth/src/oauth-spike.js:340-350 | up to the await: clean up, then response type, required parameters, resource and PKCE method and form in their order, each with its error |
| OAuthServer.OAuthSpike.ResumeAuthorization | packages/auth/src/oauth-spike.js:351-370 | after the await, undisturbed: registers the client and adds one pending transaction, or refuses |
| OAuthServer.OAuthSpike.ApproveTransaction | packages/auth/src/oauth-spike.js:372-411 | undisturbed: the transaction is consumed whatever the outcome; approval stores a grant and one code |
| OAuthServer.OAuthSpike.ExchangeAuthorizationCode | packages/auth/src/oauth-spike.js:449-509 | undisturbed: the code is consumed whatever the outcome; success creates one family and one bearer |
| OAuthServer.OAuthSpike.ExchangeRefreshToken | packages/auth/src/oauth-spike.js:511-552 | undisturbed: rotation commits first, and a refusal afterwards does not undo it |
| OAuthServer.OAuthSpike.RevokeToken | packages/auth/src/oauth-spike.js:563-597 | an access token of the client is dropped and its family revoked, anything else is tried as a refresh token |
| OAuthServer.OAuthSpike.AuthenticateBearer | packages/auth/src/oauth-spike.js:599-643 | undisturbed: the checks in their order, with the lazy expiries they commit |
| OAuthAnswers.CleansExactly | packages/auth/src/oauth-spike.js:333-338 | exactly the expired entries are gone |
| OAuthAnswers.ChecksRequestExactly | packages/auth/src/oauth-spike.js:340-350 | which requests go on, and the error of each other |
| OAuthAnswers.ParsesScopeExactly | packages/auth/src/oauth-spike.js:54-63 | no words ask for every supported scope, supported words for themselves, and one unsupported word is refused |
| OAuthAnswers.ResumesExactly | packages/auth/src/oauth-spike.js:351-370 | a transaction is opened exactly for a paired owner, a client that is new or stored with this very redirect, supported scopes and while there is room; it carries what was asked for |
| OAuthAnswers.ApprovesExactly | packages/auth/src/oauth-spike.js:372-411 | an approval succeeds exactly for a pending, unexpired transaction with the configured secret and an enabled client of the owner; the one grant and the one code it stores; the transaction is gone in any case and a refusal stores nothing |
| OAuthAnswers.CodeAnswersExactly | packages/auth/src/oauth-spike.js:413-509 | the code is gone in any case; an answer comes with one family, its first token and one bearer bound like the grant, the lifetime in whole seconds, and a refusal with none of them |
| OAuthAnswers.RefreshAnswersExactly | packages/auth/src/oauth-spike.js:511-552 | an answer comes with one bearer bound like the grant of the token presented, and a refusal with none |
| OAuthAnswers.RevokesExactly | packages/auth/src/oauth-spike.js:563-597 | an unexpired access token, of the named client if one is named, is dropped and exactly its family ends; anything else is tried as a refresh token |
| OAuthMachine.StepKeepsInv | packages/auth/src/oauth-spike.js:333-643 | every commit of a request, every owner command between two of them and every restart keeps the invariant, and what the request under way has read of fixed columns stays true |
| OAuthRuns.RunKeepsInv | packages/auth/src/oauth-spike.js:333-643 | in every run of requests split at their commits, with commands of other processes anywhere between and restarts, tables, codes and bearers keep their invariant |
| OAuthRuns.FamilyShape | packages/auth/src/auth-store.js:441-597 | in every reachable state a family's tokens occupy the generations 0 to current exactly once, older ones consumed, the current one active exactly while the family is |
| OAuthRuns.LifetimesNest | packages/auth/src/auth-store.js:456-482 | in every reachable state refresh tokens expire with their family, families and bearers no later than their grant, and a bearer carries its grant's scopes |
| OAuthRuns.RevocationClosure | packages/auth/src/auth-store.js:599-708 | over every run: no grant or family ever becomes active again, and every family of a grant that has ended is dead from then on, a family written later included |
| OAuthRuns.RunEvolves | packages/auth/src/auth-store.js:441-755 | no row is deleted, rebound or revived over any run |
| OAuthRuns.RotatedAtMostOnce | packages/auth/src/auth-store.js:511-597 | in any run a refresh token is rotated at most once |
| OAuthRuns.ReplayKills | packages/auth/src/auth-store.js:546-561 | presenting a consumed token with its own client and resource is refused and leaves its family dead |
| OAuthRuns.ReplayKillsForever | packages/auth/src/auth-store.js:511-597 | from a replay on, in any continuation, the family is dead: no token of it rotates, no bearer of it authenticates, no access token is issued for it, and the replay itself does not rotate |
| OAuthRuns.DeadForever | packages/auth/src/oauth-spike.js:511-643 | a family that is not active, or whose grant is not, stays so; at every later step none of its tokens rotates and its requests are refused |
| OAuthRuns.CallKills | packages/auth/src/auth-store.js:650-755 | ending a grant, an owner's access or resetting the owner kills every family below |
| OAuthRuns.RevokeKills | packages/auth/src/oauth-spike.js:563-597 | revoking any stored refresh token or unexpired access token kills its family |
| OAuthBarrier.StepSealsExactly | packages/auth/src/auth-store.js:333-483 | a step keeps the reset barrier exactly when it is not a stale write: a client, grant or family written after an owner command has undone what was read for it |
| OAuthBarrier.SealedExactly | packages/auth/src/auth-store.js:710-755 | the barrier holds in every state of a run if and only if no write in the run is stale |
| OAuthBarrier.BarrierHolds | packages/auth/src/auth-store.js:710-755 | as long as no write was stale, an unpaired owner has nothing active and a revoked grant no open family |
| OAuthBarrier.UndisturbedNeverStale | packages/auth/src/auth-store.js:333-483 | when no command that ends anything commits between a request's check and its write, no write is stale and the barrier holds throughout |
| OAuthExamples.BarrierCanFail | packages/auth/src/auth-store.js:394-423 | a run from a new installation with a reset between the check of the client and the insertion of the grant: the grant, its family and a bearer are active under an unconsumed bootstrap, and the bearer authenticates |
| OAuthRuns.OldBearersStayOut | packages/auth/src/oauth-spike.js:599-633 | a bearer issued before its owner was reset or revoked never authenticates again, not even after re-pairing |
| OAuthEndpoints.AuthenticatesExactly | packages/auth/src/oauth-spike.js:599-643 | undisturbed, authentication succeeds exactly for an unexpired bearer with active, unexpired grant and family, and returns the grant's own binding and scopes |
| OAuthEndpoints.BearerCheckedExactly | packages/auth/src/oauth-spike.js:622-642 | with other commits between its two readings, authentication succeeds exactly when the family is still active and unexpired at the second; then the grant is still active, and its own binding and scopes are returned |
| OAuthEndpoints.RotatesExactly | packages/auth/src/auth-store.js:511-597 | rotation succeeds exactly for the active token of an active family before it expires, presented by its own client and resource; its successor is then the one active token |
| OAuthEndpoints.ExchangesExactly | packages/auth/src/oauth-spike.js:449-509 | a code exchange succeeds exactly for an unexpired code with its own client, redirect, resource and verifier and a current grant |
| OAuthEndpoints.CodeResponseWorks | packages/auth/src/oauth-spike.js:478-508 | what a code exchange returns can be used: bearer and refresh token are current, with the shorter of configured and grant lifetimes |
| OAuthEndpoints.RefreshResponseWorks | packages/auth/src/oauth-spike.js:534-552 | what a refresh returns can be used |
| OAuthEndpoints.RefreshesExactly | packages/auth/src/oauth-spike.js:511-552 | undisturbed, a refresh succeeds exactly for the active token of an active family before it expires, presented by its own client for its own and the server's resource, when the scopes asked for are the grant's and time is left; the tables are those of the rotation in either case |
| OAuthEndpoints.FailsAfterRotatingExactly | packages/auth/src/oauth-spike.js:520-551 | undisturbed, a refresh is refused although it has consumed the presented token exactly when that token could be rotated and the scopes were not the grant's or no time was left |
| OAuthRefresh.FailsAfterRotatingInRun | packages/auth/src/oauth-spike.js:520-551 | in any run, with owner commands between the rotation's commit and the issuing: the presented token could be rotated and is consumed, and the refresh is refused exactly if the scopes are not the grant's, no time is left, or one of those commands has ended the family or the grant |
| OAuthExamples.RevokedInBetween | packages/auth/src/oauth-spike.js:520-551 | a run in which an owner command in between is the only reason for the refusal |
| OAuthExamples.FailsAfterRotating | packages/auth/src/oauth-spike.js:520-551 | for every such scope or time, a run from a new installation in which that happens |
| OAuthExamples.BothRefusals | packages/auth/src/oauth-spike.js:534-551 | both refusals occur: for another scope, and for want of time |
| OAuthEndpoints.PartsOfRegistration | packages/auth/src/oauth-spike.js:351-370 | when nothing commits in between, the parts of a registration are the endpoint |
| OAuthEndpoints.PartsOfApproval | packages/auth/src/oauth-spike.js:372-411 | the same for an approval |
| OAuthEndpoints.PartsOfExchange | packages/auth/src/oauth-spike.js:449-509 | the same for a code exchange and its three commits |
| OAuthEndpoints.PartsOfRefresh | packages/auth/src/oauth-spike.js:511-552 | the same for a refresh |
| OAuthEndpoints.PartsOfAuthentication | packages/auth/src/oauth-spike.js:599-643 | the same for an authentication |
| OAuthRuns.TransactionUsedOnce | packages/auth/src/oauth-spike.js:372-411 | in any run a pending transaction is found by one approval only |
| OAuthApproval.ApprovalFliesExactly | packages/auth/src/oauth-spike.js:372-398 | split at its commits: an approval goes on to its insertion exactly with the configured secret, for a pending transaction of an enabled client |
| OAuthApproval.CodesOrdered | packages/auth/src/oauth-spike.js:372-411 | in any run every code was ordered by an approval of its transaction with the configured secret |
| OAuthApproval.GrantsOrdered | packages/auth/src/oauth-spike.js:372-398 | in any run every grant was ordered by an approval with the configured secret, of a transaction that asked for just its client, resource and scopes |
| OAuthApproval.NothingWithoutSecret | packages/auth/src/oauth-spike.js:372-411 | from a new installation no code, grant, refresh token or bearer exists without an approval that carried the configured secret |
| OAuthApproval.RunKeepsRedirects | packages/auth/src/auth-store.js:346-360 | in every state of a run, transactions and codes are for the redirect under which their client is stored |
| OAuthApproval.RedeemedRedirect | packages/auth/src/oauth-spike.js:449-461 | in any run a code is redeemed only by its own client with the redirect under which that client is stored |
| OAuthRuns.CodePerTransaction | packages/auth/src/oauth-spike.js:398-410 | in any run no two codes are written for one transaction, and a writing adds one code at most |
| OAuthRuns.CodeUsedOnce | packages/auth/src/oauth-spike.js:449-509 | in any run a code is found by one exchange only, successful or not |
| OAuthRuns.ResponsePerCode | packages/auth/src/oauth-spike.js:478-508 | in any run at most one family is inserted for a code |
| OAuthRuns.PendingBounded | packages/auth/src/oauth-spike.js:351-370 | pending transactions never exceed the maximum, under interleaved beginnings |
| Transcript.CursorRoundTrip | apps/agent/src/tmux.js:23-51 | a written cursor parses to its offset, and to a mismatch exactly in a session with another stream or epoch |
| TranscriptGaps.ParsesExactly | apps/agent/src/tmux.js:27-51 | which cursors are accepted, by their text, and which offset and mismatch each asks for |
| TranscriptGaps.RequestedMaxExactly | apps/agent/src/tmux.js:384 | at least one byte, at most 256 KiB, 64 KiB when nothing usable is asked for |
| TranscriptGaps.ReadsExactly | apps/agent/src/tmux.js:373-420 | what one read returns for every cursor: a piece of the log from the retained offset asked for; from the earliest byte, with a gap that names both offsets, like a first read, when the cursor is another stream's or too old; nothing, at the end, when it is ahead; and more exactly when the returned offset is before the end |
| TranscriptGaps.RestartsReadAll | apps/agent/src/tmux.js:373-420 | a reader that comes back with a cursor of another stream, or one too old, is told so once and then reads the whole retained text |
| Transcript.ReadTranscript | apps/agent/src/tmux.js:362-436 | the reading loop returns what the reader's specification says, gaps and refusals included |
| TranscriptFiles.ReadFiles | apps/agent/src/tmux.js:362-436 | reading through the inventory and the segment files, while the writer appends, gives what the specification gives on the listed log, or the inventory's error |
| Transcript.ReadChunk | apps/agent/src/tmux.js:395-410 | the two reads of a chunk skip the leading continuation bytes and cut the rest safely |
| Utf8.Utf8SafePrefixLength | apps/agent/src/tmux.js:61-73 | the backward scan computes the safe cut, at most the larger of the preferred length and 4 |
| Utf8.CutAtBoundary | apps/agent/src/tmux.js:61-73 | a buffer that begins at a character boundary of a text is cut at a boundary, wherever it ends: the last one within the preferred length, or after the first character when that alone is longer |
| Utf8.EncodeAllInjective | apps/agent/src/tmux.js:53-59 | bytes determine the text they encode |
| Transcript.ProgressExactly | apps/agent/src/tmux.js:395-420 | on arbitrary bytes a read does not advance exactly when nothing is left, or what is left begins a character that is incomplete as far as the read looks: then fewer than 4 bytes are left |
| Transcript.Reassembly | apps/agent/src/tmux.js:362-436 | reads of a growing log, with any sizes and resumed at the returned cursors, concatenate to whole characters of the text up to the last cursor, with no gap |
| Transcript.Resumed | apps/agent/src/tmux.js:395-420 | a resumed read returns all the characters that fit: the next one has not been captured or exceeds what was asked for, and only a single character may exceed it |
| Transcript.ReadsContinue | apps/agent/src/tmux.js:362-436 | whatever has been captured by then and whatever size is asked for, a returned cursor is never refused |
| Transcript.CompleteReads | apps/agent/src/tmux.js:384-420 | on a complete log each read returns at least one more character |
| Transcript.ReadsToTheEnd | apps/agent/src/tmux.js:362-436 | on a complete log as many reads as there are characters return the whole text |
| Segments.ReadTranscriptBytes | scripts/transcript-segments.mjs:68-94 | over an intact inventory the copying loop returns exactly the requested slice of the concatenated log, or reports that the log is shorter |
| Segments.GrowthKeepsLog | scripts/transcript-segments.mjs:84-88 | bytes appended after the listing change nothing a reader of that listing sees |
| Capture.InspectTranscriptSegments | scripts/transcript-segments.mjs:25-66 | an inventory is returned exactly for well-formed files, and lists all of them where they start; each refusal exactly in its case |
| Capture.InventoryIsSnapshot | scripts/transcript-segments.mjs:25-94 | an inventory keeps describing the log as it was, whatever the writer appends |
| Capture.Writer.CaptureTranscript | scripts/transcript-capture.mjs:34-98 | the log grows by a prefix of the input, never beyond the ceiling, and stays one that the inventory accepts; from any accepted log, the empty file an open creates and a resumed log included, the segment limit is never met when segments of the size the capture goes on with can hold the ceiling; while writes succeed and storage suffices, all the input is captured up to the ceiling, and the limit reported exactly when it is reached |
| Capture.FullSize | apps/session-host/src/config.js:36-43 | full segments account for every byte, which is what the configured ceiling relies on |
| Migration.StepKeepsInv | packages/auth/src/auth-store.js:129-280 | every step and every crash, also inside recovery, keeps the original image recoverable |
| Migration.CrashSafety | packages/auth/src/auth-store.js:129-280 | in every state of every crash schedule the rows are on the disk, and a store that is ready holds them fully migrated with no marker |
| Migration.CompletesExactly | apps/agent/src/state-store.js:52-173 | an undisturbed init completes exactly when the marker was not cut short and the schema is not newer; otherwise it changes nothing |
| Migration.RecoversExactly | packages/auth/src/auth-store.js:162-197 | what recovery does with each marker: open, stop for a torn or distrusted one, drop that of a completed migration, bring back the backup it names, or remove the database |
| Migration.BlockedForever | packages/auth/src/auth-store.js:162-182 | a torn or distrusted marker stops every later init and nothing on the disk changes |
| Migration.MarkerCanBeTorn | packages/auth/src/auth-store.js:199-207 | a crash while the marker is written does leave such a marker, with the database intact |
| Migration.OriginalKept | apps/agent/src/state-store.js:107-173 | migration and recovery themselves never commit other rows |
| MigrationInit.Store.RecoverInterruptedMigration | packages/auth/src/auth-store.js:162-197 | recovery as written leads to the open database or to its error with the disk as the step machine leaves it |
| MigrationInit.Store.Migrate | apps/agent/src/state-store.js:107-173 | backup, marker, transaction and removal in their order give the upgraded image and no marker |
| MigrationInit.Store.Init | packages/auth/src/auth-store.js:129-154 | init is the undisturbed run of the step machine |
| MigrationSchemas.StateMigrationSafe | apps/agent/src/state-store.js:149-163 | a completed init keeps every session and operation and gives each session a stream its cursors can name, stopped exactly if it was closed |
| MigrationSchemas.AuthMigrationSafe | packages/auth/src/auth-store.js:209-270 | a completed init keeps the owner, clients and grants of version 1 and satisfies the whole token invariant and the reset barrier |
| Admission.CheckRetained | apps/agent/src/tmux.js:159-184 | the summing loop that stops early decides what the full sum decides |
| Admission.CountsExactly | apps/agent/src/tmux.js:144-156 | the two counts of a reservation are the sessions listed as open, and those of them found alive |
| Admission.MaximumExactly | apps/agent/src/tmux.js:148 | the session limit as configured, or eight |
| Admission.Manager.ReserveOpenSlot | apps/agent/src/tmux.js:138-192 | on what it has seen of the sessions, a slot is reserved exactly when both limits admit it, and only then counted |
| Admission.Manager.Release | apps/agent/src/tmux.js:185-189 | giving a slot back twice counts once |
| Admission.ConfiguredBudgetSuffices | apps/session-host/src/config.js:46-49 | with the configured budget the quota alone never refuses while nothing closed is retained and fewer sessions are open than allowed |
| AdmissionRuns.StepKeepsInv | apps/agent/src/tmux.js:138-238 | every step of reservations, opens, closes, purges and restarts keeps the limits, up to one session for each one that a count has missed; a reservation lists, probes, counts, reads logs and takes its slot in steps of their own |
| AdmissionRuns.RunKeepsInv | apps/agent/src/tmux.js:138-238 | over every run of these steps the quota and the session limit are exceeded by no more sessions than some count has missed: never, if none has missed one |
| AdmissionRuns.WithinLimits | apps/agent/src/tmux.js:138-238 | after every run the allowances of open and pending sessions plus the bytes of closed ones, the bytes stored for them and the terminals running or starting are within the limits and that many sessions more |
| AdmissionSlips.FigureExactly | apps/agent/src/tmux.js:157-171 | the figure a reservation compares with the budget, against all that is held when it counts: too high by what has been closed, purged, given up or counted twice, too low by the sessions saved and released since the listing |
| AdmissionSlips.CoversExactly | apps/agent/src/tmux.js:144-184 | a reservation that passes leaves everything within the budget, whatever the budget, exactly if what its count misses is no more than what it charges too much |
| AdmissionSlips.PlacesExactly | apps/agent/src/tmux.js:144-151 | the places a reservation compares with the session limit, against those taken when it counts: too many by what has died, been closed, given up or is counted twice, too few by the terminals it misses |
| AdmissionSlips.PlacesCoverExactly | apps/agent/src/tmux.js:144-151 | a reservation that passes leaves no more terminals than the session limit, whatever the limit, exactly if the places its count misses are no more than those it counts too much |
| AdmissionSlips.LimitsCanBeExceeded | apps/agent/src/tmux.js:144-184 | a run from a new installation in which an open is saved and released between another reservation's listing and its count: one terminal more runs and one allowance more is stored than the limits allow |
| AdmissionSlips.Undisturbed | apps/agent/src/tmux.js:138-192 | when nothing else happens, the steps of a reservation see the sessions as they are and grant exactly what the limits admit |
| AdmissionRuns.LeaksExactly | apps/agent/src/tmux.js:229-236 | a step lets a log escape the quota exactly when a removal fails or a restart forgets an open that had not saved its row |
| AdmissionRuns.CoveredExactly | apps/agent/src/tmux.js:138-238 | in a run the quota knows of every log in every state if and only if no step of it leaks |
| AdmissionRuns.EverythingWithinBudget | apps/agent/src/tmux.js:138-238 | after every run without a leak all the bytes stored on the disk are within the budget and one allowance for each session a count has missed |
| AdmissionRuns.NewInstallation | apps/agent/src/tmux.js:138-238 | the invariant of these runs holds of a new installation |
| Files.FileManager.CommitTemporary | apps/agent/src/files.js:72-83 | publication replaces the destination in one step, or links it without overwriting; an unlink that fails has published |
| Files.FileManager.Upload | apps/agent/src/files.js:103-152 | in every state of the disk and under every failure the destination is the old file or the whole new one; the temporary file is gone unless its removal failed; an error has published exactly when the publication went through and the close of the parent failed, or the unlink did; after any other outcome the destination's entry is what it was; when no call fails, it is refused exactly for its size, a destination it may not replace, or a directory |
| Files.CloseFailsAfterPublishing | apps/agent/src/files.js:136-144 | on every disk and over every file, an upload all of whose calls go well but for the close of the parent reports an error and has published |
| Files.FileManager.Copy | apps/agent/src/files.js:189-234 | the same for a copy, whose source stays as it was; when no call fails, it succeeds exactly for a regular file and a destination that is free or may be replaced, and each refusal is exact |
| Files.FileManager.Move | apps/agent/src/files.js:236-289 | the file is reachable in every state, an existing destination is replaced only on demand, and the source is gone afterwards except when both names were one file; when no call fails, it succeeds exactly for a regular file and a destination that is free, or may be replaced and is not a directory, and each refusal is exact |
| Files.FileManager.AcquireTransfer | apps/agent/src/files.js:32-49 | transfers never exceed the configured number |
| PathPolicy.WithinExactly | packages/core/src/path-policy.js:13-15 | the text test is containment of segment lists, except that nothing but itself is within the root directory |
| PathPolicy.Policy.Mutate | packages/core/src/path-policy.js:89-122 | succeeds exactly for a path within a configured root that is not itself one, and names plain segments below the deepest root that contains it; a root itself is protected, anything outside not allowed |
| PathPolicy.OverlapExactly | packages/core/src/path-policy.js:124-136 | two mutations are refused exactly when, under one root, one segment list is a proper prefix of the other |
| PathOverlap.EscapesExactly | packages/core/src/path-policy.js:89-136 | for every configuration, aliases included: some pair of mutations, one inside the other, passes the overlap test if and only if one root lies inside another and the way to it passes a path for which a name of the outer root is still the deepest |
| PathOverlap.EscapesExactlyBetween | packages/core/src/path-policy.js:89-136 | for roots without a second name: if and only if a path that is not a root lies strictly between two roots, so roots one level apart are safe |
| PathOverlap.MutatePath | packages/core/src/path-policy.js:89-122 | the text of a path is mapped to the one mutation the configuration determines for it |
| PathOverlap.EscapingPair | packages/core/src/path-policy.js:89-136 | for every configuration with such a gap, the two results of the mutation mapping that are one inside the other and pass |

## Left out

- Cryptography and syntax checks: digests, HMACs and PKCE challenges are injective, and ids, URLs, timestamps and keys are taken as already valid and canonical. The two URL normalisations differ on a trailing slash (oauth-spike.js:40-52, auth-store.js:45-52), which canonical ids do not show.
- Constant-time comparison, and the expiry text formats of timestamps (milliseconds here).
- Scope lists are sets: the source compares duplicate-free lists.
- AuthStore.Store.RegisterClient: the contract is the undisturbed one; what a commit of another process between the owner's reading and the insertion can do is in OAuthRuns and OAuthBarrier.
- AuthStore.Store.CreateGrant: the same, for the client's reading.
- AuthStore.Store.CreateTokenFamily: the same, for the grant's reading.
- AuthStore.Store.InsertClient: the insertion, the reading after a conflict and the re-enabling are one step; the update's own condition makes them act like their last commit.
- AuthStore.Store.ConsumeOwnerBootstrap: secret and expiry are checked on a reading before the update. In OAuthMachine the update runs alone and may come at any time, so that a consumption whose secret was read before a reset is covered.
- OAuthServer.OAuthSpike.ExchangeRefreshToken: in OAuthMachine the two readings after the rotation's commit are one step with the issuing; no await or write is between them.
- OAuthServer.OAuthSpike.BeginAuthorization: the form of a challenge is a given truth value, and only the parameters that the model uses are required.
- The server's configuration, scopes included, is the same across restarts, and the per-session transcript cap is too.
- Admission.Manager.ReserveOpenSlot: one call on what has been seen; the steps it is made of, and what happens between them, are in AdmissionRuns.
- Session rows: `save` reads and then writes over awaits, so that a transcript update under way during a close or a purge writes back the row it has read (state-store.js:297-371). Here a save is one step. In Operations a save may close, reopen or insert any session, and of a session it keeps only whether it is closed; in AdmissionRuns a closed session stays closed and a purged one is gone.
- A capture process that still drains output after its session was closed: AdmissionRuns lets logs grow only until then.
- Legacy session import, transcript capture states and gap reasons, and the storage reserve of the reader (tmux.js:303-360).
- The `-wal` and `-shm` files beside a database: the database file is one value with atomic commits, and a copy that was cut short fails the integrity check.
- MigrationInit.Store.Init: the undisturbed run only; crashes and failed calls at each point are steps of Migration.
- Capture.InspectTranscriptSegments: the numbered files are contiguous here; a missing middle file, a hard link, and a byte count beyond the safe integers are further errors of the source.
- Files.FileManager.Upload: creating missing parent directories, permissions and ACLs, the stream's buffering and the SHA-256; the temporary name is fresh, as a random UUID is, and no other process changes the directory between two calls.
- PathPolicy.Policy.Mutate: opening the parent directory by descriptor and the checks on it (path-policy.js:140-213), realpath, and the resolving of read paths.
- OAuth client metadata documents, form and JSON bodies, HTML approval, HTTP servers, MCP tools, telemetry, logging, download tokens, attachments, the owner map and agent contexts: plumbing, or easy members.
- Owner access summaries and other read-only reports.
- Installation, release and rollback scripts.
