# A verified model of the multi-tenant backend

The repository is a NestJS backend for a multi-tenant workspace product: sign-in with a second factor and
rotating sessions, file uploads to a cloud store, workspace tasks, Stripe billing, and operator analytics. This
project models the parts in which state, interleavings or exact text matter, and proves what they keep.
`dafny verify dfyconfig.toml` checks everything.

How the model is laid out:

- **Second factor and sessions.** `MfaProtocol` is a transition system. Each step is one database operation, a
  request in flight is a program counter with its locals, and the steps of any number of requests interleave
  with enrolment, reset, expiry and clean-up steps. `MfaSafety` proves invariants of every reachable state;
  `MfaCapTight` shows that the bound on wrong guesses cannot be improved, `MfaRoles` says which role a session
  carries, and `MfaCodes` when records fit their recovery codes. `RefreshRace` is a second transition system, for
  refresh requests in flight. `AuthServices` and
  `AuthRepositories` are the service and repository classes, proved against functions of the stores
  (`AuthSerial`, `AuthRequests`); `AuthSerial.AloneIsVerifyChallenge` connects the sequential reading with the
  transition system, and `AuthRuns` covers runs of served requests.
- **File finalisation.** `FileSaga` holds the rename-and-promote loop and its rollback, `FileSagaSafety` the
  theorems, `FileServices` the classes, `FileRace` the interleaving of uploads, finalisations, deletions and
  the cleanup sweep, and `FileRaceSerial` ties the two together.
- **Business life cycles.** `TaskModel`/`TaskSafety`/`TaskServices`, `BillingModel`/`BillingSafety`/`BillingServices`,
  and `Analytics`. `TaskFiles` joins task requests with the file saga they run inside their database transaction.
- **Text.** `OriginPatterns`, `HtmlEscape`, `Base64`/`Utf8`/`SecretPayload`, `OpaqueTokens`, `BackupCodes`, `PlanOrder`,
  over `JsText` and `JsCollections`.

- **Outcomes.** `AuthOutcomes`, `FileOutcomes`, `TaskOutcomes`, `BillingOutcomes` and `CodecOutcomes` say of each request
  when it succeeds, what it answers and what it changes, spelled out on the stored fields and independently of the
  functions that the classes are proved against.

bcrypt, the keyed digest, AES-GCM, the TOTP check, lower-casing, name comparison, clocks and random values are
parameters. Fresh identifiers are assumed to be new. A precondition on them says what the proof uses.

Where the code differs from what its comments or the obvious reading promise:

- A session issued after a challenge takes its role from the user row that the request read
  (`src/auth/auth.service.ts:851-916`), not from the role stored in the challenge, as the comment at
  `src/auth/auth.service.ts:596-597` has it. It has the challenge's role exactly if that row had it at that step
  (`MfaRoles.RoleIsThatOfTheRowRead`, `MfaRoles.RoleIsKeptIffUnchanged`, `MfaRoles.RoleOfChallengeIsNotBinding`).
- With `k` requests for a challenge in flight, it admits up to `maxAttempts + k - 1` wrong guesses, and no better
  bound holds (`MfaSafety.AttemptCap`, `MfaCapTight.CapIsReached`).
- A token family keeps to one live token or rotation exactly if no request reads a token that another request has
  read and not yet deleted
  (`RefreshRace.SingleIffReadOnce`, `RefreshRace.RacingRefreshesForkTheFamily`).
- A disable or an operator reset removes the stored tokens, not the refreshes on their way. Until the next sign-in the
  user stays signed out exactly if none of those reaches its create step
  (`RefreshRace.StaysSignedOutIff`, `RefreshRace.RefreshOutlivesSignOut`).
- A factor record fits its recovery codes at all times exactly if no regenerate request, past its check, meets a
  factor that has been disabled since (`MfaCodes.FitsIffNoLateRegeneration`).
- The database transaction around a task request does not cover the cloud. Whether a request is all or nothing can be
  told from the names beforehand: it is not exactly if, at the first file whose names are not free, only a row is in the
  way, or all names are free and the commit is refused (`TaskFiles.AllOrNothingIff`). Two uploads of one name but of
  different types are such files (`FileSagaSafety.SameNameBlocksPromotion`).
- The cleanup deletes by id alone. It can never hit a finalised row, and it deletes another row than the expired one
  it read exactly if one was registered under that id since (`FileRace.CleanupTakesAnotherRowIff`,
  `FileRace.CleanupCanTakeRenewedRow`).
- A blob goes to its final name ahead of its row. It stays there without one exactly if no promotion follows, nor the
  reverse rename, nor a destroy (`FileRace.BareIffLeftBare`); a sweep in between is enough (`FileRace.SweepStrandsBlob`).
- The mark of a task deletion does not look at the status again: it deletes a finished task exactly if a request
  served since the check completed it and none deleted it (`TaskSafety.RacingDeleteTakesDoneIff`).
- A webhook is claimed before it is handled, and every error is swallowed, the insert's and the handler's. An event is
  lost exactly if no insert of it goes through, or its first delivery with one meets a handler that fails ahead of its
  write, gives up, or finds nothing to write and nothing to announce; later deliveries change nothing
  (`BillingSafety.EventIsLostIff`, `BillingSafety.RetriesAreDropped`, `BillingSafety.FailedLookupLosesEvent`).
- After a deletion event, two upserts may reactivate a tenant together, one with the price and one with the
  status, so "until an upsert sets both" is not the exact condition (`BillingSafety.FloorAfterDeletion`).
- A secret with a lone surrogate does not survive encryption, and an unpadded base 64 key that happens to
  consist of hexadecimal digits is refused (`SecretPayload.DecryptInvertsEncrypt`, `SecretPayload.UnpaddedKeyIsReadIff`).

## Model

| member | source | states |
|---|---|---|
| `MfaSafety.RunIsSafe` | src/auth/auth.service.ts:599-643 | In every reachable state of every interleaving, all protocol invariants hold together: stored challenges come from issued ones, each challenge has at most one request able to mint and none once a session exists, every request past the factor check is backed by an accepted factor, recorded attempts cover the counted ones, factor rows match their history |
| `MfaSafety.AttemptCap` | src/auth/mfa/services/mfa-challenge.service.ts:76-132 | With at most `k` requests for a challenge in flight, wrong guesses judged against it plus its requests past `load` that are still open never exceed its attempts plus `k - 1`, in every interleaving and however many other requests run |
| `MfaSafety.SerialClientsStayWithinMaxAttempts` | src/auth/mfa/services/mfa-challenge.service.ts:118-132 | Clients that wait for each answer about a challenge get at most `maxAttempts` wrong guesses |
| `MfaCapTight.CapIsReached` | src/auth/mfa/services/mfa-challenge.service.ts:118-132 | For every positive budget and every `k` there is a run that reaches `maxAttempts + k - 1` wrong guesses, so the cap is exact |
| `MfaSafety.OneSessionPerChallenge` | src/auth/auth.service.ts:599-643 | In every interleaving a challenge yields at most one session; it belongs to the challenge's owner, is a platform session exactly for the platform scope, and follows a factor accepted for that owner: the claim of a step that the library read off six digits with a readable secret, the spending of a recovery code with the lookup hash of its twelve characters, or six digits that match the hash emailed for the challenge |
| `MfaSafety.DecoysYieldNothing` | src/auth/auth.service.ts:494-550 | A challenge issued without an owner, for an unknown or ineligible address, never yields a session |
| `MfaRoles.RoleIsThatOfTheRowRead` | src/auth/auth.service.ts:599-643 | In every interleaving a session carries the role and platform flag of its owner's row as the user step of its request read it; so it has the role stored in the challenge exactly if that row had it at that step |
| `MfaRoles.RoleIsKeptIffUnchanged` | src/auth/auth.service.ts:594-643 | If a challenge was issued with its owner's role of the moment, as `login` demands, the session keeps that role exactly if the owner's role at the later user step is still the same |
| `MfaRoles.RoleOfChallengeIsNotBinding` | src/auth/auth.service.ts:851-916 | For every library, right code and other role there is a run in which a challenge issued for one role ends in a session with the other |
| `MfaRoles.SessionNeedsGoodStanding` | src/auth/auth.service.ts:605-613 | In every interleaving a session goes to a user who was active and in the challenge's scope when the request read the row, and who passed the tenant step as an operator or with an active tenant and a verified address |
| `MfaSafety.StepsNeverReplayed` | src/auth/mfa/repositories/user-mfa.repository.ts:154-172 | Between two resets, the time steps that concurrent verifications claim for a user strictly increase, so a code is redeemed at most once (section 5.2 of RFC 6238) |
| `MfaSafety.BackupCodesConserved` | src/auth/mfa/repositories/user-mfa.repository.ts:175-190 | In every interleaving, codes spent since the last generation plus codes reported as remaining equal the codes installed, and no code is spent more often than it was installed |
| `MfaSafety.FactorRecordsConsistent` | src/auth/mfa/repositories/user-mfa.repository.ts:102-148 | At every database step TOTP is enabled exactly while an active secret and an enabled date are present |
| `FactorStore.SpendTakesOne` | src/auth/mfa/repositories/user-mfa.repository.ts:175-190 | Marking a code used takes exactly one copy of its hash out of the unused ones, and fails exactly if there is none |
| `FactorStore.RemainingIsUnused` | src/auth/mfa/mfa.service.ts:327-341 | The count of remaining codes in a status answer is the number of codes that can still be redeemed |
| `FactorStore.FreshIsUnused` | src/auth/mfa/services/backup-code.service.ts:30-37 | Right after generation exactly the generated hashes can be redeemed |
| `MfaSerial.DriveIsAlone` | src/auth/auth.service.ts:599-643 | Scheduling one request until it ends has exactly the effect of running it uninterrupted, so what holds of all interleavings holds of serial requests |
| `MfaSerial.DriveExtendsRun` | src/auth/auth.service.ts:599-643 | A request driven to its end extends a run of the transition system to a run |
| `AuthSerial.AloneIsVerifyChallenge` | src/auth/auth.service.ts:599-643 | The transition system, uninterrupted, changes challenges, factor rows and sessions exactly as the sequential reading of the method does |
| `AuthSerial.CheckMatchesService` | src/auth/mfa/services/mfa-verification.service.ts:23-66 | The transition system takes the same one of the failing, throwing, code-spending and step-claiming branches as the verification service |
| `AuthRuns.OneLiveTokenPerFamily` | src/auth/auth.service.ts:699-733 | Over every run of served login, verification, refresh, logout, enrolment, disable and reset requests, each token family has at most one live token and each token is rotated at most once |
| `AuthRuns.RefreshStaysInFamily` | src/auth/auth.service.ts:699-733 | A rotation replaces exactly the presented token by one of the same user and family; a refused refresh adds no token, and only the presented one can go |
| `AuthRuns.CodesFitTheRecord` | src/auth/mfa/mfa.service.ts:110-272 | Over every such run a disabled record holds no recovery codes and an enabled one holds ten |
| `AuthRuns.DisableSignsOutEverywhere` | src/auth/mfa/mfa.service.ts:185-237 | A completed disable or operator reset leaves the user no challenge, no refresh token, no codes and no secret; the reset succeeds exactly for a known user |
| `MfaCodes.FitsIffNoLateRegeneration` | src/auth/mfa/mfa.service.ts:239-272 | In every interleaving, with generations of ten codes, a disabled record holds no codes and an enabled one ten at all times exactly if no write of a regeneration meets a disabled factor |
| `AuthRuns.RegenerateRacesDisable` | src/auth/mfa/repositories/user-mfa.repository.ts:192-204 | The write of a regenerate request leaves the record fitting its codes exactly if the factor is still enabled then; after a disable in between it does not |
| `AuthOutcomes.LoginOutcome` | src/auth/auth.service.ts:430-485 | A sign-in passes exactly with a known active user, a right password against a non-empty hash, the right scope, and for a tenant a verified address and the role of the portal; then a challenge is stored if the second factor is on, else a token if the user's tenant is active, with the session's fields; in every other case it is denied and nothing changes |
| `AuthOutcomes.LoginCodeOutcome` | src/auth/auth.service.ts:494-581 | Exactly one challenge is stored for everybody; it has owner and code exactly if the user is active, in scope, of the portal's role, verified and has not switched emailed codes off |
| `AuthOutcomes.VerifySucceedsIff` | src/auth/auth.service.ts:599-643 | A session is issued exactly if the token names a stored row that is unconsumed, unexpired and under its cap, its secret matches, its owner is a known active user in its scope whose tenant is active or who is an operator, and the code is right: six emailed digits that match the non-empty hash, an unused recovery code, or a code of the authenticator for a step above the last |
| `AuthOutcomes.VerifyOutcome` | src/auth/auth.service.ts:599-643 | The rest of the same request, for every row and code: when the challenge is deleted, counted against, consumed or left alone, what the check takes from the factor, which challenges go with a session, and the token stored |
| `AuthOutcomes.FactorOutcome` | src/auth/mfa/services/mfa-verification.service.ts:23-66 | A code passes exactly if it is an unused recovery code of twelve characters or stands for a new step, throws exactly if the secret cannot be read, and takes one code or sets the step and changes nothing else |
| `AuthOutcomes.RefreshOutcome` | src/auth/auth.service.ts:699-733 | With the right secret of a live token of a user in good standing the token is replaced by one of its family; an expired token, or one whose user or tenant fails the checks, goes without one; a wrong secret changes nothing |
| `AuthOutcomes.RotationOutcome` | src/auth/auth.service.ts:699-733 | A token counts as rotated exactly if it is live, of a known user, and presented with its secret |
| `AuthOutcomes.LogoutOutcome` | src/auth/auth.service.ts:735-779 | A token is removed exactly if it is the one presented and its secret matches |
| `AuthOutcomes.ResetOutcome` | src/auth/auth.service.ts:650-686 | For exactly the known users: the factor is cleared but for the preference, that user's challenges and tokens go, and nothing else changes |
| `AuthOutcomes.DisableOutcome` | src/auth/mfa/mfa.service.ts:185-237 | Done exactly with the right password and a right code for a factor that is on; then the same is cleared, otherwise nothing changes |
| `AuthOutcomes.RegenerateOutcome` | src/auth/mfa/mfa.service.ts:239-272 | Done exactly with the right password for a factor that is on; then its codes are the new ones, all unused, and nothing else changes |
| `AuthOutcomes.EnrollmentOutcome` | src/auth/mfa/mfa.service.ts:74-108 | Done exactly while the factor is off; sets the pending secret and its expiry and nothing else |
| `AuthOutcomes.EnableOutcome` | src/auth/mfa/mfa.service.ts:110-179 | Done exactly for a pending secret that is there, readable, in time and confirmed by six digits; then it is the secret, with new codes and no used step |
| `AuthOutcomes.TokensAreEarned` | src/auth/auth.service.ts:851-916 | Whatever request is served, a token appears only for a user in good standing after the right password without a second factor, an open challenge with a right code, or a live token with its secret |
| `AuthOutcomes.SecondFactorGuardsTokens` | src/auth/auth.service.ts:430-485 | A user with an enabled second factor gets a token only for an open challenge of theirs with a right code, or in place of a live token of theirs |
| `AuthOutcomes.ChallengesAreEarned` | src/auth/auth.service.ts:430-485 | A challenge with an owner appears only after that user's right password, with the factor on, or where a code is mailed to that user |
| `AuthOutcomes.ManagementIsSteps` | src/auth/mfa/mfa.service.ts:74-179 | Served enrolments, confirmations, resets and regenerations change the factor rows as the steps of the transition system do |
| `AuthOutcomes.CheckIsAStep` | src/auth/mfa/mfa.service.ts:185-237 | The code check of a disable request spends a code or claims a step as its step does, or leaves the rows alone |
| `RefreshRace.SingleIffReadOnce` | src/auth/auth.service.ts:699-733 | In every interleaving of refreshes in flight with sign-ins, logouts, removals and changes of users: a family has at most one live token or rotation at all times exactly if no request read a token of it that another request had read and not yet deleted |
| `RefreshRace.ReadOnceKeepsOneToken` | src/auth/auth.service.ts:699-733 | Without such a second read no family ever has two live tokens |
| `RefreshRace.RacingRefreshesForkTheFamily` | src/auth/auth.service.ts:699-733 | For every acceptable token there is a run of two refreshes that ends with two live tokens of its family |
| `RefreshRace.StaysSignedOutIff` | src/auth/auth.service.ts:650-662 | In every interleaving, a user whose tokens were all removed has none until the next sign-in exactly if no refresh that was past its read at the removal has reached its create step since |
| `RefreshRace.RefreshOutlivesSignOut` | src/auth/auth.service.ts:699-733 | A run in which a refresh in flight signs the user in again after the removal |
| `RefreshRace.AloneIsRefresh` | src/auth/auth.service.ts:699-733 | A request that is not interrupted does to the tokens exactly what the served request does |
| `AuthRepositories.MfaChallengeRepository.RecordFailedAttempt` | src/auth/mfa/repositories/mfa-challenge.repository.ts:67-76 | Counts one attempt on an existing row and gives the new count, or none for a missing row; nothing else changes |
| `AuthRepositories.MfaChallengeRepository.TryConsume` | src/auth/mfa/repositories/mfa-challenge.repository.ts:79-86 | Succeeds exactly on an unconsumed row, which it marks |
| `AuthRepositories.UserMfaRepository.TryConsumeTotpStep` | src/auth/mfa/repositories/user-mfa.repository.ts:154-172 | Advances the stored step exactly if it is absent or lower |
| `AuthRepositories.UserMfaRepository.MarkBackupCodeUsed` | src/auth/mfa/repositories/user-mfa.repository.ts:175-190 | Marks the first unused entry with the hash, if there is one |
| `AuthRepositories.UserMfaRepository.ActivateTotp` | src/auth/mfa/repositories/user-mfa.repository.ts:102-127 | Installs secret, date and codes, clears the pending secret and the last step, on an existing row only |
| `AuthRepositories.UserMfaRepository.DisableTotp` | src/auth/mfa/repositories/user-mfa.repository.ts:129-148 | Clears every secret, date, step and code and keeps the email preference |
| `AuthServices.MfaChallengeService.Issue` | src/auth/mfa/services/mfa-challenge.service.ts:47-69 | Stores an unconsumed challenge with no attempt counted, under the identifier drawn |
| `AuthServices.MfaChallengeService.Load` | src/auth/mfa/services/mfa-challenge.service.ts:76-111 | Gives the challenge only if it is present, unconsumed, unexpired, has attempts left and its secret matches; deletes it if expired or used up |
| `AuthServices.MfaChallengeService.RegisterFailedAttempt` | src/auth/mfa/services/mfa-challenge.service.ts:118-132 | Counts the failure and deletes the challenge once no attempt remains |
| `AuthServices.MfaVerificationService.Verify` | src/auth/mfa/services/mfa-verification.service.ts:23-66 | Spends a recovery code or claims a time step, with the branch chosen by the shape of the code, and says whether the factor passed |
| `AuthServices.AuthService.IssueTokenPair` | src/auth/auth.service.ts:851-916 | Stores one token, in the given family or a new one, unless the tenant is inactive or unverified; the session carries the flags of the user row |
| `AuthServices.AuthService.Login` | src/auth/auth.service.ts:430-485 | After all password and portal checks, issues a challenge if TOTP is enabled and a session otherwise |
| `AuthServices.AuthService.RequestLoginCode` | src/auth/auth.service.ts:494-581 | Issues a challenge in every case; only an eligible user's has an owner and a code |
| `AuthServices.AuthService.VerifyMfaChallenge` | src/auth/auth.service.ts:599-643 | Changes the three stores as the sequential reading says, which `AloneIsVerifyChallenge` ties to the transition system |
| `AuthServices.AuthService.Refresh` | src/auth/auth.service.ts:699-733 | Replaces the presented live token by a new one of its family, or removes it if expired or ownerless, or changes nothing |
| `AuthServices.AuthService.Logout` | src/auth/auth.service.ts:735-779 | Removes the presented token exactly if its secret matches |
| `AuthServices.AuthService.ResetMfaForUser` | src/auth/auth.service.ts:650-686 | For a known user removes factor, challenges and tokens |
| `AuthServices.MfaService.StartTotpEnrollment` | src/auth/mfa/mfa.service.ts:74-108 | Stores a pending secret unless TOTP is already enabled |
| `AuthServices.MfaService.EnableTotp` | src/auth/mfa/mfa.service.ts:110-179 | Activates the unexpired pending secret exactly if the code confirms it |
| `AuthServices.MfaService.DisableTotp` | src/auth/mfa/mfa.service.ts:185-237 | After password and code, removes factor, challenges and tokens; changes nothing without both |
| `AuthServices.MfaService.RegenerateBackupCodes` | src/auth/mfa/mfa.service.ts:239-272 | After the password, replaces all codes of an enabled factor |
| `OpaqueTokens.RoundTrip` | src/auth/auth.service.ts:814-823 | A printed token is read back exactly if both parts are non-empty, hold no dot, and have no white space on the outside |
| `OpaqueTokens.ParseShape` | src/auth/mfa/services/mfa-challenge.service.ts:169-178 | Whatever is accepted is, up to outer white space, the printed form of a well-formed token |
| `OpaqueTokens.ParseIff` | src/auth/mfa/services/mfa-challenge.service.ts:169-178 | A string is read as a token exactly if it is that token's printed form with white space around it |
| `OpaqueTokens.IssuedTokensRoundTrip` | src/auth/auth.service.ts:883-896 | Every issued token, a UUID and a base64url secret, is read back to exactly its parts |
| `BackupCodes.CreateCode` | src/auth/mfa/services/backup-code.service.ts:43-54 | A code is twelve characters of the alphabet, one for each draw, in three groups of four joined by dashes; it is recognised as a recovery code and read back to those characters |
| `BackupCodes.AppendGroup` | src/auth/mfa/services/backup-code.service.ts:43-54 | A further dash-separated group adds exactly its characters to what is read back |
| `BackupCodes.NormalizeIsIdempotent` | src/auth/mfa/services/backup-code.service.ts:57-62 | Reading a read code changes nothing, and exactly the digits that the authenticator path reads are among the characters kept, in their order |
| `BackupCodes.OneCharacter` | src/auth/mfa/services/backup-code.service.ts:57-62 | Which characters either reader keeps, and in which case |
| `FileSaga.RollbackIsExactInverse` | src/file/file.service.ts:730-751 | After any renames that all went through, no rename of the reverse loop fails and the cloud is restored exactly |
| `FileSaga.RollbackLeavesUnlistedRename` | src/file/file.service.ts:730-751 | If one further rename is not in the list, the reverse loop still succeeds throughout and leaves exactly that one rename |
| `FileSaga.RenamesCommute` | src/file/file.service.ts:730-751 | Undoing an earlier rename behind a later one with no name in common gives what the later one alone would give |
| `FileSagaSafety.RollbackOutcome` | src/file/file.service.ts:413-469 | A failed rename leaves the cloud exactly as before; a failed promotion leaves exactly that one asset moved, because its pair is recorded only after the promotion |
| `FileSagaSafety.WalkSucceedsIff` | src/file/file.service.ts:413-465 | The loop succeeds exactly if every blob is there and every new name is free in the cloud, among the rows and among the files, and then exactly those blobs and rows have moved |
| `FileSagaSafety.WalkConserves` | src/file/file.service.ts:413-465 | Wherever the loop stops, the row count is unchanged and the finalised count and byte sum have grown by exactly the files promoted |
| `FileSagaSafety.SweepRemovesExactly` | src/file/file.service.ts:609-643 | A sweep removes exactly the rows of its batch that the cloud lets go, and no finalised row, and exactly the blobs of those rows |
| `FileSagaSafety.FinalizeSucceedsIff` | src/file/file.service.ts:355-466 | A call succeeds exactly if the task is known, all ids are in the temporary folder, all are temporary unexpired rows and all names are free; then one item per id in order, rows and blobs moved, totals grown by those rows |
| `FileSagaSafety.FinalizeFailureUndoes` | src/file/file.service.ts:355-470 | A refused call changes nothing; a failed rename leaves the cloud unchanged; a failed promotion leaves one named asset moved. A failing call changes the cloud exactly if it passes the checks and, at the first file whose names are not free, the blob can be renamed and a row has the new id |
| `FileSagaSafety.WalkFailsAtIff` | src/file/file.service.ts:413-449 | The loop fails with the rename of a given file exactly if the files before it are free and its blob is missing or its new name is in the cloud or an earlier file's of its type; with its promotion exactly if instead only a row or an earlier file of another type has the new id |
| `FileSagaSafety.PromotionFailsIff` | src/file/file.service.ts:433-449 | A promotion fails exactly if at some file, behind files that are free, only the row is in the way |
| `FileSagaSafety.SameNameBlocksPromotion` | src/file/file.service.ts:576-586 | An image and a video of one name in two subfolders: the second promotion fails, the image's rename is undone, and the video stays under the final id |
| `FileSagaSafety.FailedLoopKeepsRowsIff` | src/file/file.service.ts:413-469 | A loop over files whose names are not all free leaves the rows as they were exactly if already the first file's are not |
| `FileSagaSafety.SingleFileFailsCleanly` | src/file/file.service.ts:318-336 | A call for one file, the only kind made outside a session, leaves the rows as they were when it fails |
| `FileSagaSafety.WantedIds` | src/file/file.service.ts:366-375 | The ids worked on are the trimmed non-blank ones, each once, in the order of first occurrence |
| `FileSagaSafety.FirstOutsideIsFirst` | src/file/file.service.ts:377-385 | The id reported is the first one outside the temporary folder, and none is reported exactly if all are inside |
| `FileModel.FinalIdLeavesTemp` | src/file/file.service.ts:576-586 | With a one-segment scope other than `tmp` a final id lies in the scope's folder and never under the temporary one |
| `FileModel.UnspacedScope` | src/file/file.service.ts:576-586 | A scope without white space is only put in lower case |
| `FileModel.TenantsAreApart` | src/file/file.service.ts:520-538 | Folders of different tenants never overlap when tenant ids hold no slash |
| `FileModel.PromoteMovesOneRow` | src/file/repositories/file-asset.repository.ts:93-118 | A promotion keeps the number of rows and adds exactly that row to the finalised count and byte sum |
| `FileModel.PromotedOnce` | src/file/repositories/file-asset.repository.ts:93-118 | After a promotion neither the old nor the new id can be promoted again, and no other row has changed |
| `FileModel.TotalWithout` | src/file/repositories/file-asset.repository.ts:153-177 | A total over the rows does not depend on the order in which they are visited |
| `FileServices.SortedReadIsRequest` | src/file/file.service.ts:387-411 | However the database orders the rows it returns, equally many as requested means all are temporary, and sorting gives the order of the request |
| `FileOutcomes.FinalizeOutcome` | src/file/file.service.ts:355-470 | Which error a request is refused with, in the order of the checks, and that it then changes nothing: unknown task, an id outside the upload folder, a missing or finalised row, a time to live that is over; past them it moves all its files exactly if their names are free |
| `FileOutcomes.RegisteredFileIsFinalized` | src/file/file.service.ts:159-234 | An upload that is registered and finalised by the end of its time, under a final name that is free, ends up as one finalised row of the task and its blob under that name |
| `FileOutcomes.RegisterOutcome` | src/file/file.service.ts:159-234 | A registration stores exactly the temporary row of the upload, or is refused for an unknown task, a foreign folder, an existing row or a full quota, in this order |
| `FileOutcomes.DeleteOutcome` | src/file/file.service.ts:472-510 | Row and blob, by type and id, go together, or neither does |
| `FileOutcomes.PromoteOutcome` | src/file/repositories/file-asset.repository.ts:93-118 | A promotion needs a temporary row and its new id free or its own, sets every field of the final row, and changes no other row |
| `FileOutcomes.FinalIdOutcome` | src/file/file.service.ts:576-586 | The final id is tenant folder, scope, entity and the trimmed last segment, or the random name for a blank one |
| `FileOutcomes.ScopeOfWords` | src/file/file.service.ts:576-586 | White space between the words of a scope becomes one dash |
| `FileOutcomes.CountOutcome` | src/file/repositories/file-asset.repository.ts:153-157 | A row counts one exactly if it is finalised and the tenant's |
| `FileOutcomes.BytesOutcome` | src/file/repositories/file-asset.repository.ts:163-177 | A row adds its size exactly if it is finalised, the tenant's, and has one |
| `FileServices.FileAssetRepository.FindTemporary` | src/file/repositories/file-asset.repository.ts:120-136 | Reads exactly the temporary rows among the ids, each once, in any order |
| `FileServices.FileAssetRepository.FindExpired` | src/file/repositories/file-asset.repository.ts:138-150 | Reads expired temporary rows, at most the limit, in the order of expiry, leaving out only later ones and only at the limit |
| `FileServices.FileAssetRepository.CountFinalizedByTenant` | src/file/repositories/file-asset.repository.ts:153-157 | Counts the tenant's finalised rows |
| `FileServices.FileAssetRepository.SumFinalizedBytesByTenant` | src/file/repositories/file-asset.repository.ts:163-177 | Sums the sizes of the tenant's finalised rows, leaving out rows without a size |
| `FileServices.FileService.RollbackRenamedAssets` | src/file/file.service.ts:730-751 | Undoes the recorded renames last to first, passing over failures, as the function whose exactness is proved above |
| `FileServices.FileService.RenameAndPromote` | src/file/file.service.ts:413-465 | Renames and promotes file by file up to the first error |
| `FileServices.FileService.FinalizeTemporaryAssets` | src/file/file.service.ts:355-470 | Refuses without credentials; otherwise first sweeps a batch of expired rows, outside the session, and then does what the theorems on finalisation speak of; an abort of the session takes the rows back to right after the sweep |
| `FileServices.FileService.CleanupExpiredTemporaryAssets` | src/file/file.service.ts:609-643 | Sweeps exactly one batch, skipping the assets that the cloud refuses to destroy |
| `FileServices.FileService.RegisterAsset` | src/file/file.service.ts:159-234 | Refuses without credentials; otherwise first sweeps, and then stores a temporary row with an expiry, or refuses a foreign folder, an existing row, an unknown task or a full quota |
| `FileServices.FileService.DeleteAsset` | src/file/file.service.ts:472-510 | Removes blob and row, or reports a missing row or a refusal and changes nothing |
| `FileRace.FinalizedRowsAreSafe` | src/file/file.service.ts:609-643 | In every interleaving a finalised row changes only by a user's deletion, and no cleanup delete ever names it |
| `FileRace.FinalizedBlobsAreSafe` | src/file/file.service.ts:620-627 | In every interleaving a cleanup never destroys the blob of a finalised row of any tenant, when tenant ids hold no slash |
| `FileRace.RunKeepsInvariant` | src/file/file.service.ts:609-643 | In every interleaving temporary rows lie under the temporary folder with an expiry, finalised ones under the disjoint task folder with a task and none, and every id a sweep holds is temporary by its name |
| `FileRaceSerial.FinalizeIsSteps` | src/file/file.service.ts:355-470 | A whole call, with its cleanup and its rollback, is a sequence of steps of the interleaving model, so what holds of every interleaving holds of served calls |
| `FileRaceSerial.RegisterIsAStep` | src/file/file.service.ts:159-234 | A registration that succeeds, with a time to live, is one insertion of a new temporary row |
| `FileRaceSerial.DeleteIsSteps` | src/file/file.service.ts:472-510 | A deletion that succeeds is the user's two steps, blob first |
| `FileRaceSerial.StepsKeepInvariant` | src/file/file.service.ts:609-643 | Any such sequence keeps the placement of rows and of the ids that sweeps hold |
| `FileRace.CleanupTakesAnotherRowIff` | src/file/file.service.ts:609-643 | In every interleaving, a row that a cleanup deletes is not the expired one it read exactly if a row was registered under that id after the read; otherwise it is that row, expired at the read and at the delete |
| `FileRace.TempRowHistory` | src/file/repositories/file-asset.repository.ts:44-118 | Over any stretch of a run, a temporary row is the one from its start, or was created since and expires after that moment |
| `FileRace.CleanupCanTakeRenewedRow` | src/file/file.service.ts:631-634 | A run in which a sweep in flight deletes a re-registered row that has not expired |
| `FileRace.BareIffLeftBare` | src/file/file.service.ts:413-469 | In every interleaving, a blob under a task folder has no finalised row of its id and type exactly if it was renamed ahead of its row, or outlived it, and was since neither caught up by a promotion that found its temporary row and a free id, nor renamed back, nor destroyed |
| `FileRace.AllHaveRowsIff` | src/file/file.service.ts:413-469 | All blobs under task folders have their finalised rows exactly if each such rename and each such row deletion was made up for |
| `FileRace.SweepStrandsBlob` | src/file/file.service.ts:609-643 | A run in which a sweep between a rename and its promotion leaves the blob under its final name without a row |
| `TaskSafety.TraceMatchesTasks` | src/workspace/workspace.service.ts:201-230 | In every state of every serialised run: one Created event per task, exactly one Completed event if it is done and none otherwise, the latest Assigned event names the current assignee, urls are trimmed, non-blank and distinct, and active tasks have their workspace |
| `TaskSafety.UpdateKeepsInvariant` | src/workspace/workspace.service.ts:353-452 | An update keeps trace and task in agreement, whichever fields it carries |
| `TaskSafety.CreateKeepsInvariant` | src/workspace/workspace.service.ts:139-230 | A creation emits what its task needs and disturbs no other |
| `TaskSafety.RequestConfinement` | src/workspace/workspace.service.ts:325-350 | A request never leaves DONE, never changes a deleted task, changes only tasks of its own tenant and workspace, deletes a done task only with its workspace, and as a member changes only title, description and status of a task assigned to the caller |
| `TaskSafety.DoneIsFinal` | src/workspace/workspace.service.ts:642-645 | Over any stretch of a run a done task stays done, a deleted one stays unchanged, and none disappears |
| `TaskSafety.DoneIsDeletedByCascade` | src/workspace/workspace.service.ts:102-135 | A done task that has become deleted was deleted together with its workspace |
| `TaskSafety.RacingDeleteTakesDoneIff` | src/workspace/workspace.service.ts:467-499 | Whatever requests are served between the check and the mark of a deletion, the mark deletes a finished task exactly if one of them completed it and none deleted it |
| `TaskSafety.TaskOverStretch` | src/workspace/workspace.service.ts:353-452 | Over any stretch of requests from any state, a task is still active exactly if none deleted it, and then done exactly if it was or one completed it |
| `TaskSafety.DeleteRacesCompletion` | src/workspace/workspace.service.ts:478-496 | One update in between, from any state in which the deletion may go on, is enough |
| `TaskSafety.MergedUrlsAreClean` | src/workspace/workspace.service.ts:626-636 | Merged attachment urls are trimmed, non-blank and distinct, whatever is merged |
| `TaskSafety.CleanUrlsAreKept` | src/workspace/workspace.service.ts:180-187 | Merging nothing into clean urls keeps them, order included |
| `TaskOutcomes.UpdateOutcome` | src/workspace/workspace.service.ts:325-465 | An update may be made exactly if a member sends nothing reserved and has the task, something is sent, workspace and task are the tenant's and open, a new assignee is of the tenant, and a done task keeps its status; each field is then the one sent, with the title trimmed, or the one before, urls are merged, a new assignee and a completion are announced, and a refused update says why and changes nothing |
| `TaskOutcomes.UpdateSucceedsIff` | src/workspace/workspace.service.ts:325-465 | Joined with its files: it succeeds exactly if it may be made, credentials are there, every temporary id is an upload in time with a free final name, and the transaction commits |
| `TaskOutcomes.CreateOutcome` | src/workspace/workspace.service.ts:139-242 | A creation may be made exactly by a non-member, in a workspace of the tenant, for nobody or a user of the tenant; every field of the task and the events that follow |
| `TaskOutcomes.CreateSucceedsIff` | src/workspace/workspace.service.ts:139-242 | The same with its files and the commit |
| `TaskOutcomes.AssigneesAreFromTenant` | src/workspace/workspace.service.ts:590-598 | In every state of every run the assignee of a task is a user of the task's tenant |
| `TaskOutcomes.DeleteOutcome` | src/workspace/workspace.service.ts:467-507 | A deletion marks exactly an open, unfinished task of the tenant's workspace, for a non-member, and changes nothing else |
| `TaskOutcomes.DeleteWorkspaceOutcome` | src/workspace/workspace.service.ts:102-135 | The workspace goes and exactly its open tasks are marked |
| `TaskOutcomes.CreateWorkspaceOutcome` | src/workspace/workspace.service.ts:68-88 | A non-member within the plan's limit makes a workspace of the own tenant |
| `TaskOutcomes.MergeOutcome` | src/workspace/workspace.service.ts:626-636 | The merged urls are exactly the non-blank trimmed ones of both lists, each once, in the order of first occurrence |
| `TaskOutcomes.CleanupOutcome` | src/file/file.service.ts:609-643 | The cleanup ahead of a request's files takes exactly the rows of its batch that the cloud lets go, with their blobs, and nothing without credentials |
| `TaskServices.WorkspaceService.CreateTask` | src/workspace/workspace.service.ts:139-242 | Inserts, finalises files with the file service, merges their urls and emits the events; changes tasks, trace, file rows and cloud exactly as the request that the theorems of `TaskFiles` speak of |
| `TaskServices.WorkspaceService.UpdateTask` | src/workspace/workspace.service.ts:325-465 | Checks, finalises files with the file service, applies the patch and emits the events, with the same tie to `TaskFiles` |
| `TaskServices.WorkspaceService.DeleteTask` | src/workspace/workspace.service.ts:467-507 | Marks an active, unfinished task deleted |
| `TaskServices.WorkspaceService.DeleteWorkspace` | src/workspace/workspace.service.ts:102-135 | Removes the workspace and marks all its active tasks deleted, both or neither |
| `TaskFiles.FailureLeavesTasksAndRows` | src/workspace/repositories/task.repository.ts:306-321 | A request past its checks succeeds exactly if its finalisation does and the transaction commits; otherwise tasks and file rows are as after the cleanup, and the cloud is as then or one asset away after an error inside the finalisation, and differs by exactly the finalised files after an abort behind it |
| `TaskFiles.AllOrNothingIff` | src/workspace/workspace.service.ts:353-433 | A request past its checks is all or nothing on tasks, rows and cloud together unless its ids are unexpired temporary files and either, at the first file whose names are not free, only a row is in the way, or all names are free and the commit is refused; both directions |
| `TaskFiles.SuccessFinalizesForTask` | src/workspace/workspace.service.ts:153-199 | A request that succeeds has moved exactly its files, rows and blobs, each row naming the task, and the tenant's totals have grown by them |
| `TaskFiles.CreateIsTransaction` | src/workspace/workspace.service.ts:139-199 | Past its checks a creation succeeds exactly if files and commit do, and a failing one changes no task |
| `TaskFiles.UpdateIsTransaction` | src/workspace/workspace.service.ts:325-433 | The same of an update |
| `TaskServices.TaskRepository.UpdateByIdAndWorkspace` | src/workspace/repositories/task.repository.ts:242-264 | Sets the fields given on an active task of the workspace and tenant, and nothing otherwise |
| `BillingSafety.WebhooksAreIdempotent` | src/billing/services/stripe-webhook.service.ts:91-126 | Any delivery list, with repeats and failed inserts and writes of the billing service in between, leaves rows, claims and notices exactly as its accepted first deliveries alone |
| `BillingSafety.AcceptedAreFirsts` | src/billing/services/stripe-webhook.service.ts:109-113 | The accepted inputs are exactly the direct writes and the first claimable delivery of each event, in the order in which they came in |
| `BillingSafety.AcceptedOnce` | src/billing/repositories/stripe-webhook-event.repository.ts:21-28 | Accepted deliveries are new and have distinct event ids |
| `BillingSafety.EveryEventIsAccepted` | src/billing/repositories/stripe-webhook-event.repository.ts:21-28 | Every unclaimed event with an insert that goes through is among the accepted ones |
| `BillingSafety.EventIsLostIff` | src/billing/services/stripe-webhook.service.ts:109-125 | No delivery of an event changes a row or announces anything exactly if none claims it, or the handler of the one that does throws ahead of its write, lacks the lookup, tenant, subscription or price it needs, or finds the row up to date and announces nothing, for lack of an end of period or because it throws first |
| `BillingSafety.RetriesAreDropped` | src/billing/services/stripe-webhook.service.ts:109-113 | At most one delivery claims an event, and any other leaves the whole state unchanged, whatever its own lookups would answer |
| `BillingSafety.LostLeavesNoTrace` | src/billing/services/stripe-webhook.service.ts:109-125 | After everything else has been processed too, rows and notices are as if a lost event had never been sent |
| `BillingSafety.FailedLookupLosesEvent` | src/billing/services/stripe-webhook.service.ts:115-122 | From any state: one failing lookup at the first delivery loses an update whose insert went through, though the retry alone would have written the tenant's row |
| `BillingSafety.ClaimedIff` | src/billing/repositories/stripe-webhook-event.repository.ts:21-28 | After any deliveries an id is claimed exactly if it was before or one of its inserts went through |
| `BillingSafety.ProcessKeepsOneRow` | src/billing/repositories/subscription.repository.ts:81-123 | Any processing keeps at most one row per tenant |
| `BillingSafety.RowIsItsHistory` | src/billing/repositories/subscription.repository.ts:81-136 | A tenant's row after any processing is its row before with that tenant's own writes applied, and nothing else |
| `BillingSafety.FloorAfterDeletion` | src/billing/services/subscription-entitlements.service.ts:55-83 | After a deletion event a tenant has an active subscription exactly if the status set last is active or trialing and a price was set since; until then free limits and no assistant |
| `BillingSafety.ReactivationInTwoParts` | src/billing/repositories/subscription.repository.ts:81-123 | A price under an inactive status and then an active status without a price reactivate, though neither does alone |
| `BillingSafety.CatalogueDecidesAiAccess` | src/billing/services/subscription-entitlements.service.ts:163-205 | When the catalogue has the plan, the mirrored plan key has no say, and an explicit flag decides |
| `BillingOutcomes.CheckoutOutcome` | src/billing/services/stripe-webhook.service.ts:180-248 | After a claimed checkout with tenant, subscription and price, each field of the tenant's row: plan name or price id, status, customer, subscription, price, start and end of the period in milliseconds or, out of range, as before, and the flag; the notice has the row's end; otherwise nothing changes |
| `BillingOutcomes.UpdateOutcome` | src/billing/services/stripe-webhook.service.ts:250-301 | The same of an update, for the tenant that the customer names or whose row holds the subscription; a missing price keeps price and the holder's plan key |
| `BillingOutcomes.DeletionOutcome` | src/billing/services/stripe-webhook.service.ts:303-330 | The tenant's row, if there is one, is canceled without subscription and price, and the end is announced |
| `BillingOutcomes.InvoiceOutcome` | src/billing/services/stripe-webhook.service.ts:332-375 | An invoice is announced exactly to the tenant its customer names, and changes no row; other events do nothing |
| `BillingOutcomes.FaultOutcome` | src/billing/services/stripe-webhook.service.ts:115-122 | An error ahead of the write leaves the rows as they were, any error leaves out the notice, and the claim stays |
| `BillingOutcomes.UpsertOutcome` | src/billing/repositories/subscription.repository.ts:81-123 | Each field is the one given or the one before, on the tenant's first row in its place or on one with the defaults at the end |
| `BillingOutcomes.CancelOutcome` | src/billing/repositories/subscription.repository.ts:523-543 | Each field of a canceled row; without a row none is made |
| `BillingOutcomes.LimitsOutcome` | src/billing/services/subscription-entitlements.service.ts:55-83 | The limits are those of a paid plan in the catalogue that has any, and otherwise one workspace, three users, fifty files and 500 MB |
| `BillingOutcomes.AccessOutcome` | src/billing/services/subscription-entitlements.service.ts:163-205 | The assistant is there exactly for a paid plan by its own flag, else by its name, else by the plan key kept in the row |
| `BillingServices.StripeWebhookService.HandleEvent` | src/billing/services/stripe-webhook.service.ts:91-126 | Claims and then dispatches, keeping the claim when the handler throws, or changes nothing |
| `BillingServices.StripeWebhookService.OnCheckoutSessionCompleted` | src/billing/services/stripe-webhook.service.ts:180-248 | Writes the tenant's row from a subscription checkout that has tenant, subscription and price, and announces it if an end of period is known; an error ends it before or behind the write |
| `BillingServices.StripeWebhookService.OnSubscriptionUpdated` | src/billing/services/stripe-webhook.service.ts:250-301 | Writes the row of the customer's tenant, or of the row holding the subscription, keeping price and plan key when none is sent |
| `BillingServices.StripeWebhookService.OnSubscriptionDeleted` | src/billing/services/stripe-webhook.service.ts:303-330 | Marks that tenant's row canceled and announces it |
| `BillingServices.SubscriptionRepository.UpsertForTenant` | src/billing/repositories/subscription.repository.ts:81-123 | Sets the fields given on the tenant's row, made with the defaults if missing, and returns the row as it now is |
| `BillingServices.SubscriptionRepository.SetStripeCustomerId` | src/billing/repositories/subscription.repository.ts:125-136 | Sets the customer alone |
| `BillingServices.SubscriptionRepository.MarkCanceledByTenant` | src/billing/repositories/subscription.repository.ts:523-543 | Cancels an existing row and removes its subscription and price; makes none |
| `Analytics.DensifyTenantGrowth` | src/platform/services/platform-analytics.service.ts:167-185 | One bucket for each of the consecutive days; each running total is the seed plus the prefix sum, and the last is the seed plus all rows of the window less the overwritten ones, which are none if dates are distinct |
| `Analytics.WindowIsConserved` | src/platform/services/platform-analytics.service.ts:167-185 | The days of a window add up to the rows of the window less what rows of an equal date overwrite |
| `Analytics.DistinctDatesShadowNothing` | src/platform/services/platform-analytics.service.ts:173-173 | Rows with distinct dates lose nothing |
| `Analytics.LastOutcome` | src/platform/services/platform-analytics.service.ts:173-173 | A day has the value of the last row of its date, and none without one |
| `Analytics.OverwrittenRowsAreLost` | src/platform/services/platform-analytics.service.ts:173-173 | A hypothetical, since the aggregation groups by date: of two rows of one date only the later one would reach the chart |
| `Analytics.DensifyNewMrr` | src/platform/services/platform-analytics.service.ts:187-206 | One bucket for each of the consecutive days, with the last row of that date or zeros |
| `Analytics.GroupingConserves` | src/platform/services/platform-analytics.service.ts:129-138 | Grouping by lower-case currency keeps total revenue and subscribers, has each currency once, and gives each exactly the revenue of its rows |
| `Analytics.RevenueByCurrency` | src/platform/services/platform-analytics.service.ts:129-148 | The report is the grouping in falling order; there is a dominant currency exactly if there are rows, none has more revenue, and none that occurs before it has as much |
| `Analytics.HeadingsAreApart` | src/platform/services/platform-analytics.service.ts:119-127 | No subscription is counted under two headings, and all are counted exactly if no other status has any |
| `Analytics.HeadingStatuses` | src/platform/services/platform-analytics.service.ts:119-127 | Which statuses count as active, at risk and canceled |
| `OriginPatterns.CompilationKeepsMeaning` | src/bootstrap/http-app.config.ts:147-161 | For every pattern the compiled text is a valid expression, and it accepts a string exactly if that is the pattern with each star replaced by some string without a line break |
| `OriginPatterns.OneLineInstance` | src/bootstrap/http-app.config.ts:147-161 | For strings without line breaks the replacements may be any strings |
| `OriginPatterns.ParseJoined` | src/bootstrap/http-app.config.ts:152-155 | Escaped segments joined by dot-stars read as exactly their literals with a dot-star for each star |
| `OriginPatterns.CompiledListMeaning` | src/bootstrap/http-app.config.ts:138-145 | No listed pattern is dropped, and the compiled list accepts exactly the instances of the listed patterns |
| `OriginPatterns.AllowedIff` | src/bootstrap/http-app.config.ts:124-136 | An origin is let through exactly if it is not blank and is listed, or is an instance of a listed pattern, or nothing is listed at all |
| `OriginPatterns.SpecialSigns` | src/bootstrap/http-app.config.ts:152-155 | Every sign of the expression language but the star is escaped, and nothing else |
| `OriginPatterns.NormalizeOutcome` | src/bootstrap/http-app.config.ts:163-169 | An origin is trimmed and loses one slash at its end; a blank one is none |
| `HtmlEscape.FourPassesAreOne` | src/email/utils/html-escape.util.ts:1-7 | The four replacements over the whole text equal one substitution character by character |
| `HtmlEscape.EscapedIsSafe` | src/email/utils/html-escape.util.ts:1-7 | The result holds no angle bracket or double quote, and every ampersand in it starts one of the four entities |
| `HtmlEscape.EscapeRoundTrip` | src/email/utils/html-escape.util.ts:1-7 | A reader of the four entities recovers every text |
| `HtmlEscape.UnchangedIffPlain` | src/email/utils/html-escape.util.ts:1-7 | Escaping, once or again, changes nothing exactly on texts without the four characters |
| `Base64.RoundTrip` | src/common/crypto/secret-cipher.util.ts:56-61 | Every byte string is read back from its base 64 text, which has no dot and a length fixed by the number of bytes |
| `Base64.ReadPadded` | src/common/crypto/secret-cipher.util.ts:36-36 | Padding at the end does not change what is read |
| `Utf8.ScalarsRoundTrip` | src/common/crypto/secret-cipher.util.ts:50-53 | Every sequence of scalars is read back from its UTF-8 bytes |
| `Utf8.RoundTripIff` | src/common/crypto/secret-cipher.util.ts:50-53 | A text is read back from its bytes exactly if surrogates occur in pairs only; otherwise lone ones are replaced |
| `SecretPayload.PayloadShape` | src/common/crypto/secret-cipher.util.ts:47-62 | A payload splits into exactly four segments: version, sixteen characters of iv, twenty-two of tag, and the ciphertext, each read back to its bytes |
| `SecretPayload.DecryptInvertsEncrypt` | src/common/crypto/secret-cipher.util.ts:64-92 | Under the same key decryption succeeds on every payload made, and gives the plaintext itself, the empty one included, exactly if it has no lone surrogate |
| `SecretPayload.LoneSurrogateIsLost` | src/common/crypto/secret-cipher.util.ts:47-92 | A plaintext that does not come back |
| `SecretPayload.DecryptsIffSealed` | src/common/crypto/secret-cipher.util.ts:64-92 | Decryption gives a text exactly for the payloads of four segments with the right version and lengths that carry its bytes, sealed under this key and the iv they name |
| `SecretPayload.HexKeyIsRead` | src/common/crypto/secret-cipher.util.ts:28-44 | A key in hexadecimal is read back |
| `SecretPayload.PaddedKeyIsRead` | src/common/crypto/secret-cipher.util.ts:28-44 | A key in padded base 64, of either alphabet, is read back |
| `SecretPayload.UnpaddedKeyIsReadIff` | src/common/crypto/secret-cipher.util.ts:34-42 | An unpadded key is read back exactly if its text does not consist of hexadecimal digits |
| `SecretPayload.ZeroKeyIsRefused` | src/common/crypto/secret-cipher.util.ts:34-42 | A key whose unpadded text is refused |
| `CodecOutcomes.PayloadOutcome` | src/common/crypto/secret-cipher.util.ts:47-62 | The payload is version, iv, tag and ciphertext, in this order, with dots between, in the url-safe alphabet |
| `CodecOutcomes.DecryptOutcome` | src/common/crypto/secret-cipher.util.ts:64-92 | Malformed exactly if there are not four segments, the version differs, or iv or tag has another length; otherwise what the cipher says |
| `CodecOutcomes.KeyOutcome` | src/common/crypto/secret-cipher.util.ts:28-44 | A key is read as hexadecimal exactly if it consists of such digits, otherwise as base 64, and accepted exactly with 32 bytes |
| `CodecOutcomes.EncodedSextet` | src/common/crypto/secret-cipher.util.ts:56-61 | The tables of both base 64 alphabets |
| `CodecOutcomes.SextetBits` | src/common/crypto/secret-cipher.util.ts:56-61 | Three bytes are four sextets of the same bits, in their order; the rest is filled up with zeros |
| `CodecOutcomes.ScalarBytes` | src/common/crypto/secret-cipher.util.ts:50-53 | How many bytes of UTF-8 a scalar takes and where its bits go |
| `CodecOutcomes.EncodedText` | src/common/crypto/secret-cipher.util.ts:50-53 | A pair of surrogates is one scalar, a lone one the replacement character, anything else itself |
| `CodecOutcomes.DecodedBytes` | src/common/crypto/secret-cipher.util.ts:82-92 | Bytes are decoded by the table of RFC 3629; a sequence that breaks off is replaced once, up to the byte that does not fit |
| `PlanOrder.DisplayTierIndex` | src/billing/utils/subscription-plan-display-order.util.ts:7-16 | The loop finds the first tier that matches the trimmed lower-case name, or the number of tiers |
| `PlanOrder.TierIndexIff` | src/billing/utils/subscription-plan-display-order.util.ts:7-16 | A name has a tier's index exactly if that tier matches: no name matches two tiers |
| `PlanOrder.TierOutcome` | src/billing/utils/subscription-plan-display-order.util.ts:1-16 | Free, Starter, Pro and Enterprise, by themselves or with a blank or hyphen behind, have the places 0 to 3, and everything else comes after them |
| `PlanOrder.AssistantOutcome` | src/billing/utils/subscription-plan-ai-chatbot.util.ts:7-21 | The assistant comes with names of Pro and Enterprise and no other |
| `PlanOrder.ComparatorIsPreorder` | src/billing/utils/subscription-plan-display-order.util.ts:25-37 | Given a consistent comparison of names, the three-key comparator is total and transitive |
| `PlanOrder.PlansAreOrdered` | src/billing/utils/subscription-plan-display-order.util.ts:22-38 | The result is a permutation of the plans, by tier, then amount, then name |
| `PlanOrder.AssistantFollowsDisplayOrder` | src/billing/utils/subscription-plan-ai-chatbot.util.ts:7-21 | A plan name includes the assistant exactly if its display index is that of Pro or Enterprise |
| `JsCollections.SortCorrect` | src/billing/utils/subscription-plan-display-order.util.ts:25-37 | Sorting by a total preorder gives a sorted permutation |
| `JsCollections.SortKeepsTies` | src/platform/services/platform-analytics.service.ts:147-147 | Sorting is stable: items not told apart keep their order |
| `JsCollections.DistinctKeepsItems` | src/file/file.service.ts:366-372 | A set turned into a list holds each item once and no other |
| `JsCollections.DistinctKeepsOrder` | src/file/file.service.ts:366-372 | Its items come in the order of first occurrence |
| `JsText.TrimShape` | src/bootstrap/http-app.config.ts:163-169 | Trimming gives a text without outer white space and leaves exactly such texts alone |
| `JsText.TrimIsPart` | src/bootstrap/http-app.config.ts:163-169 | What trimming takes away is white space at the two ends and nothing else |
| `JsText.JoinSplit` | src/bootstrap/http-app.config.ts:152-155 | The parts of a split hold no separator and join back to the text |
| `JsText.SplitJoin` | src/common/crypto/secret-cipher.util.ts:56-66 | Parts without the separator are split back out of the joined text |

## Left out

- NestJS controllers, guards, DTO decorators, Swagger, throttling and configuration parsing: framework plumbing. What validation promises about a body is a named predicate (`TaskModel.IsProper`); a `null` status, which `@IsOptional` lets through, is not modelled.
- Stripe, Cloudinary, Resend, LLM, JWT and Socket.IO: foreign services. Stripe objects are event data with the answers to lookups in them; Cloudinary is the rename and destroy map, and a refused destroy is a parameter. A rename fails only because its source is missing or its target is taken.
- bcrypt, HMAC, AES-GCM, otplib and QR internals: abstract functions; no timing and no cryptographic strength.
- MongoDB aggregation pipelines, text search, indexes, pagination and invalid object ids: only the atomic find, update and delete steps and the unique keys are kept.
- Registration, email verification, invitations, the assistant and notifications: only easy members.
- Access tokens (JWT) and `getMe`: no stored state. A session is the user, the platform flag and the role.
- Unicode case folding: `toLowerCase` and `localeCompare` are parameters. Strings are sequences of characters, except in `Utf8` and `SecretPayload`, where they are UTF-16 code units.
- Exactly-once handling of webhooks: the code gives at most once (`BillingSafety.WebhooksAreIdempotent`); `BillingSafety.EventIsLostIff` says when it is not once. One token per family under racing refreshes: the exact condition is in the table.
- Handlers of two webhooks running at the same time: deliveries are processed in the order of their claims.
- Listeners of domain events: they are assumed not to make a request fail. Realtime refresh signals are left out.
- Floating-point money: cents, without rounding; the dates of chart days are given by a function of the day number.
- The padding sign inside a base 64 text: `Base64.Read` passes over it wherever it stands.
- `FileServices.FileService.RegisterAsset`: stands for the metadata row; the upload signature of the step before it is left out.
- Aborts of a transaction: one answer, whether the commit fails, a write conflict is found or the task has vanished by the time of its update.
- `FileRace.CleanupTakesAnotherRowIff`: relies on a row being registered before it expires; registration gives at least five minutes.
- `AuthRuns.DisableSignsOutEverywhere`: speaks of served requests; `RefreshRace.StaysSignedOutIff` says when it lasts under refreshes in flight.
- `AuthRuns.OneLiveTokenPerFamily`: holds of requests served one after another; `RefreshRace.SingleIffReadOnce` says exactly when it holds under racing refreshes.
- `MfaSafety.BackupCodesConserved`: counts entries, because generation does not exclude that two codes of a set are equal.
