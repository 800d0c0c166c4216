# Auth core: a verified model

A Dafny model of the authentication core of the API template: refresh-token rotation with
theft detection, one-time codes in Redis, TOTP two-factor login, the rate limiter, access-token
secret rotation, user listing and the HTML escaper of the mails. `dafny verify dfyconfig.toml`
checks all of it.

## What is modelled

**Refresh-token rotation (`Tables`, `Rotation`, `RotationInvariant`, `RotationClaims`,
`FamilyLife`, `Accounts`, `Authority`, `Challenges`, `Cutoff`, `Outrun`).** A request is a program counter with its locals;
any number of requests are in flight, and each SQL statement is one atomic step between any
steps of the others. The state holds the `refresh_tokens` and `users` tables, the clock, the
login challenges with their expiry and number of answers, the requests, and a ledger of what happened (who minted, inserted
and claimed each token, the lineage of each family) that the service never reads. Refresh,
login, 2FA verification, registration, logout, account removal, password reset and the expiry
sweep are all there. Results are about every run from empty tables, or about every run from any
state that satisfies the invariant.

Assumed: token strings, family ids, user ids and challenge ids are fresh when drawn; SHA-256 is
injective, so a token stands for its digest; passwords are compared as argon2 would compare
them; there is one clock and it never goes back; a token is presented only after its row was
inserted; the claiming UPDATE and the `now` it compares with are one step; a challenge is written
in one step, and a 2FA answer reads and updates it, reads its user row and is judged in one step;
whether a submitted code is right is decided from outside, and 2FA may be turned on and off
between any two steps. Two things in the state are history the service does not store: the
number of password updates of an account, and who was granted and who spent a challenge.

**The services over those tables (`Auth`, `Undisturbed`).** `AuthService` is a class over the two
tables, one request at a time. `Undisturbed` takes any legal run in which only one request moves,
and proves what `AuthService` promises of the operation, by the same predicates, with draws as
fresh as the protocol demands; every request has such a run.

**Redis and one-time codes (`RedisStore`, `Keys`, `Tickets`, `TicketServices`).** Redis is a class
with SET EX, GET, EXISTS, INCR (which creates at 1 without an expiry), EXPIRE, TTL and DEL; a key
is dead from its expiry on. Email verification and password reset run on it. Their three keys are
refined to a ticket with a code, an issue time and a number of tries, and the ticket to what the
log of calls says. Each service call is atomic at one instant, with any time between calls and
calls of other users and services anywhere in between. Codes stand for their digests.
`TicketRaces` takes the same calls apart again, one Redis command a step, for any number of
issues and tries of one user at once, with time passing between any two commands.

**Two-factor login (`Totp`, `TotpLogin`, `TotpAnswers`).** The TOTP library is a relation: it answers some step
in -1..1 whose counter's code matches (RFC 6238, section 5.2), or nothing if none does. The
lifetime of the replay guard is a parameter, so that the choice of 90 s can be judged. These three
take each call as one step; `Enrolment` interleaves the statements of setup, enable and disable.

**Smaller pieces.** `RateLimit` (fixed windows in Redis), `Jwt` (two secrets over time), `Listing`
(ordered paging), `MailTemplates` (the five-pass escaper).

## Findings

- Reuse detection deletes every row of the family, but the comment that the entire family is
  revoked does not hold of every interleaving. A rotation that has claimed its token before the
  burn inserts its successor after it, and the family lives on with an unused token. The burn is
  final exactly when no request in flight may still store a token of the family
  (`FamilyLife.BurnIsFinalIff`); `Outrun.ContainmentCanBeOutrun` is a run in which it is not.
- A password reset deletes the refresh tokens of the account but not its login challenges: at any
  moment within five minutes of the revocation, one granted for the old password can be answered
  for tokens (`Cutoff.ResetCanBeOutlived`). A reset is final exactly when, as it revokes, no request
  past its claim, no checked login and, for an active account, no open challenge is in flight
  (`Cutoff.ResetIsFinalIff`); five minutes later challenges no longer matter
  (`Cutoff.FiveMinutesLater`). Each such login or challenge yields at most one session
  (`Authority.OneFamilyPerSource`). Here a good code for a challenge is assumed to exist: one that
  expires before any counter above the last accepted one becomes valid cannot in fact be answered.
- Two-factor login can go live with a secret nobody proved: a setup that checked the account before
  an enable writes after it (`Enrolment.UnprovedSecretGoesLive`). The promise holds in exactly those
  runs where each setup writes with 2FA off and each enable with a proved secret in place, which the
  two UPDATEs do not ask (`Enrolment.OnMeansProvedIff`). Two enables around a disable even leave 2FA
  on with no secret (`Enrolment.LockoutHappens`), for good unless a setup or disable already past its
  check has yet to write (`Enrolment.LockoutIsFinalIff`).
- One emailed code can be used twice: two tries that both read it before either deletes it are both
  answered "right" (`TicketRaces.OneCodeTwoUses`). Only such an overlap allows it
  (`TicketRaces.UsesOverlap`); a try that has read its code can still succeed whatever becomes of the
  code, its lifetime and its counter (`TicketRaces.ReadIsEnough`). The counter keeps limiting tries,
  five for each fresh start of it (`TicketRaces.ComparisonsAreLimited`).
- The limiter admits at most `2 * max - 1` requests in any half-open interval of one duration, one
  less than the obvious bound, and that many do get in (`RateLimit.BoundIsMet`). The bound on code
  guesses is met too (`Tickets.GuessBoundIsMet`).
- When a window is about to end, in its last half second, the limiter reports a reset a whole
  duration away: TTL rounds to 0 seconds, and 0 is taken for "no expiry"
  (`RateLimit.RedisRateStore.Increment`).
- Remembering an accepted counter for three periods is exactly enough for a window of one step;
  any shorter lifetime lets a code in twice (`Totp.ThreePeriodsExactly`).
- Of all orders of the five escaping passes, exactly those with `&` first keep different texts
  apart (`MailTemplates.AmpersandMustGoFirst`).
- A change of secrets costs no token exactly when changes are an access-token lifetime apart
  (`Jwt.ZeroDowntimeIff`).

## Model

| member | source | states |
|---|---|---|
| `RotationInvariant.InitialInv` | src/db/schema/refresh-tokens.ts:4-26 | the invariant of the interleaved protocol holds of empty tables |
| `RotationInvariant.NextInv` | src/modules/auth/service.ts:143-194 | every statement of every request keeps the invariant: linear lineages, rows that agree with them, one baton per family, unique active addresses |
| `RotationInvariant.NextKnows` | src/modules/auth/index.ts:83-185 | every family, challenge and checked login belongs to an account on record, under a password no newer than its current one |
| `RotationInvariant.ReachedInv` | src/modules/auth/service.ts:129-142 | the invariant holds in every state of every run |
| `RotationClaims.BatonInvariant` | src/modules/auth/service.ts:149-161 | in every reachable state unused rows plus requests entitled to insert number at most one per family, and all its rows belong to one user |
| `RotationClaims.ChainShape` | src/modules/auth/index.ts:229-251 | surviving rows are a contiguous stretch of one linear lineage with nondecreasing expiries, reaching its last token or the one before, all but the last used |
| `RotationClaims.SweepRemovesPrefix` | src/modules/auth/service.ts:90-96 | the sweep removes exactly the expired rows of a family, and they are a prefix of its stretch |
| `RotationClaims.FirstClaimWins` | src/modules/auth/service.ts:138-161 | a claim wins if and only if the row is there, unexpired, and no earlier claim for the token ran |
| `RotationClaims.ClaimedAtMostOnce` | src/modules/auth/service.ts:138-142 | no token is claimed successfully twice in any run |
| `RotationClaims.EarlierClaimSpoils` | src/modules/auth/service.ts:138-142 | after any presentation ran its claim, won or lost, the token is gone, used or expired for good |
| `RotationClaims.FailedClaimOf` | src/modules/auth/service.ts:163-168 | a request that asks why its claim failed did run that claim and lose it, at the instant it remembers |
| `RotationClaims.DiagnosisIsRight` | src/modules/auth/service.ts:163-193 | though read later, "expired" means expired and unused at the claim, "reuse" means another request claimed the token, anything else means the row is gone |
| `RotationClaims.RunLater` | src/modules/auth/service.ts:143-207 | along any run history only grows, rows only wear, accounts only age |
| `FamilyLife.DeadStays` | src/modules/auth/service.ts:197-207 | a family with no rows and no baton holder stays so in every continuation |
| `FamilyLife.FirstRowBack` | src/modules/auth/index.ts:48-60 | if an emptied family has a row again, the first one is alone and was inserted by the single request that held the baton when the family was empty |
| `FamilyLife.EmptyIsFinalIff` | src/modules/auth/service.ts:172-188 | from a state where the family is empty, some continuation gives it a row if and only if a request in flight may still store one |
| `FamilyLife.BurnIsFinalIff` | src/modules/auth/service.ts:172-177 | a burn for reuse or logout deletes every row, and is final if and only if no request in flight may still store |
| `FamilyLife.DeadRefusesAll` | src/modules/auth/service.ts:129-136 | no claim ever wins in a dead family |
| `FamilyLife.ReplayBurnsEverything` | src/modules/auth/service.ts:172-188 | with no rotation of the family in flight, a presented used ancestor leaves the family dead, is refused, and no later refresh in the family wins |
| `FamilyLife.NothingIsLost` | src/modules/auth/service.ts:90-96 | while no burn races a rotation, every token ever stored has its row, has expired, or is of a dead family |
| `FamilyLife.ReplayIsAlwaysNoticed` | src/modules/auth/service.ts:132-136 | in such runs an unexpired rotated token of a living family is there, marked used |
| `FamilyLife.SequentialReplayBurns` | src/modules/auth/service.ts:132-136 | with one request at a time, presenting any unexpired rotated token leaves its family dead and no later refresh in it wins |
| `Outrun.ContainmentCanBeOutrun` | src/modules/auth/service.ts:134-136 | a reachable run where reuse burns the family and an unused, unexpired token of it exists afterwards |
| `Accounts.FirstRegistrationWins` | src/modules/auth/service.ts:33-58 | of interleaved registrations of a free address the first INSERT succeeds, and every later one is a conflict |
| `Accounts.OneActiveAccountPerAddress` | src/db/schema/users.ts:38-44 | in every reachable state at most one active account holds an address |
| `Accounts.DeletedAccountDrains` | src/modules/user/service.ts:72-83 | after a soft delete nobody new gets past its lookup or credential check, and each request already past it stores at most one more token |
| `Accounts.LateLookupFails` | src/modules/auth/index.ts:244-245 | a refresh that looks its user up after the deletion is refused, whatever row it claimed |
| `Accounts.OldTokensStayOut` | src/modules/auth/service.ts:84-87 | no row stored before a revocation exists in any later state |
| `Authority.StaleRun` | src/modules/auth/service.ts:98-115 | what carries authority under an older password was there before, or is a family or checked login that spent a challenge open before, or granted to a login checked before |
| `Authority.OneFamilyPerSource` | src/modules/auth/totp.service.ts:145-179 | families rooted on older authority after any moment number no more than the checked logins and open challenges of that age at that moment: each yields one at most |
| `Authority.ChallengesRunOut` | src/modules/auth/totp.service.ts:132-137 | 300 s after the last checked login on older authority got its challenge, none of that age is open |
| `Authority.ResetCutsOff` | src/modules/auth/password-reset.service.ts:71-76 | after a reset every row of the account is of a family being extended at the revocation, or rooted under the new password, or owed to a login checked or a challenge open when the new password was written |
| `Cutoff.OldAuthorityIsSpentIff` | src/modules/auth/totp.service.ts:132-138 | older authority has a row in some continuation if and only if it has one, or a request past its claim or a checked login holds it, or the account is active and a challenge of that age is open or about to be granted |
| `Cutoff.ResetIsFinalIff` | src/modules/auth/password-reset.service.ts:74-76 | the revocation leaves no row of the account, and older authority returns in some continuation if and only if such a thing was in flight as it ran |
| `Cutoff.FiveMinutesLater` | src/modules/auth/totp.service.ts:132-150 | 300 s after a moment with no such login awaiting its challenge, older authority can have a row again if and only if it has one or a request past its claim or a checked login holds it |
| `Cutoff.ResetCanBeOutlived` | src/modules/auth/password-reset.service.ts:29-30 | for every delay under 300 s, a reachable run where a challenge granted for the old password yields a token that long after the revocation |
| `Undisturbed.RunsToItsEnd` | src/modules/auth/index.ts:83-310 | every request, left alone, has a legal run to its end |
| `Challenges.AnswersAreCounted` | src/modules/auth/totp.service.ts:149-158 | in every reachable state the answers counted against a challenge are those given to it, by name, while it was open, five at most; it is spent if and only if one was accepted |
| `Challenges.GrantOf` | src/modules/auth/totp.service.ts:132-138 | every challenge was granted by a checked login, for its account and password, to expire 300 s later |
| `Challenges.AnswerAcceptedIff` | src/modules/auth/totp.service.ts:145-179 | in any interleaving an answer is accepted if and only if its code is good, the challenge is granted and unexpired, none was accepted and fewer than five were given to it, and its account is active with 2FA on |
| `Undisturbed.ReachedTables` | src/db/schema/refresh-tokens.ts:9-9 | every reachable state meets what the lemmas on single requests ask of the tables: rows hold tokens that were drawn, active addresses are unique |
| `Undisturbed.OthersWait` | src/modules/auth/index.ts:83-310 | a request that runs alone moves no other |
| `Undisturbed.RefreshAlone` | src/modules/auth/index.ts:234-250 | run alone, the refresh leaves the table and gives the answer of the sequential refresh, with a successor never drawn before |
| `Undisturbed.LoginAlone` | src/modules/auth/index.ts:130-151 | the right credentials of an account without 2FA get a fresh token in a new family, and nothing else changes |
| `Undisturbed.ChallengeAlone` | src/modules/auth/index.ts:136-141 | with 2FA on they get a fresh unanswered challenge that expires in 300 s, and nothing else changes |
| `Undisturbed.WrongLoginAlone` | src/modules/auth/service.ts:105-112 | any other credentials are refused and change nothing |
| `Undisturbed.CodeAlone` | src/modules/auth/index.ts:161-175 | a good code for an answerable challenge of an active account with 2FA on spends it and gets a fresh token in a new family; any other answer to an answerable one is counted against it and refused; any other is refused; no other challenge changes |
| `Undisturbed.RegisterAlone` | src/modules/auth/index.ts:85-120 | a free address gets a new account, its only holder, and a fresh token in a new family; a taken one a conflict and no change |
| `Undisturbed.LogoutAlone` | src/modules/auth/service.ts:197-207 | logout deletes the presented token's family and nothing else |
| `Undisturbed.RemoveAlone` | src/modules/user/service.ts:72-83 | removal marks an active account and deletes its rows, and answers not-found otherwise |
| `Undisturbed.ResetAlone` | src/modules/auth/password-reset.service.ts:74-76 | an accepted reset changes that account's password and deletes its rows, no other's |
| `Undisturbed.SweepAlone` | src/modules/auth/service.ts:90-96 | the sweep request removes exactly the rows whose expiry had passed when it read the clock |
| `Auth.AuthService.constructor` | src/modules/auth/service.ts:32-32 | empty tables satisfy the unique index |
| `Auth.AuthService.CreateUser` | src/modules/auth/service.ts:33-58 | succeeds exactly when no active account holds the address, and then the new one is its only holder; otherwise nothing changes |
| `Auth.AuthService.FindByEmail` | src/modules/auth/service.ts:69-76 | answers the only active holder of the address, or none exactly when there is none |
| `Auth.AuthService.FindById` | src/modules/auth/service.ts:60-67 | answers exactly the active accounts, each the only active holder of its address |
| `Auth.AuthService.VerifyCredentials` | src/modules/auth/service.ts:98-115 | succeeds exactly when an active account has this address and password; one error for both failures |
| `Auth.AuthService.UpdatePassword` | src/modules/auth/service.ts:79-82 | changes the password of this account, deleted or not, and no other |
| `Auth.AuthService.StoreRefreshToken` | src/modules/auth/service.ts:117-127 | adds one row, claimable until it expires, and changes no other; a token already there is refused and nothing changes |
| `Auth.AuthService.UseRefreshToken` | src/modules/auth/service.ts:143-194 | usable if and only if there, unused and unexpired, and then only its mark changes; unknown changes nothing, reuse removes exactly the family, expiry exactly the row |
| `Auth.AuthService.RevokeRefreshToken` | src/modules/auth/service.ts:197-207 | deletes the family of a known token, nothing for an unknown one |
| `Auth.AuthService.RevokeAllRefreshTokens` | src/modules/auth/service.ts:85-87 | the rows removed are exactly those of the user |
| `Auth.AuthService.DeleteExpiredRefreshTokens` | src/modules/auth/service.ts:90-96 | removes exactly the rows whose expiry has passed and counts them |
| `Auth.AuthService.Refresh` | src/modules/auth/index.ts:242-248 | a usable token of an active owner is marked used and its successor added in its family; of a deleted owner it is only marked; otherwise as above |
| `Auth.AuthService.Remove` | src/modules/user/service.ts:72-83 | marks an active account and removes its rows; otherwise changes nothing |
| `Tables.FreeAddressTaken` | src/db/schema/users.ts:41-43 | inserting an account under a free address keeps the partial unique index and makes it the only holder |
| `RedisStore.Redis.Read` | src/lib/cache.ts:32-32 | sees a key exactly when it is there and not past its expiry |
| `RedisStore.Redis.Set` | src/lib/cache.ts:34-40 | later reads give the value until `seconds` have passed and nothing afterwards; other keys read as before |
| `RedisStore.Redis.Increment` | src/lib/cache.ts:44-45 | a live counter goes up and keeps its expiry; a dead one restarts at 1 without one |
| `RedisStore.Redis.SetExpiry` | src/lib/cache.ts:47-48 | later reads of a live key give its value until `seconds` have passed, whatever its expiry was; a dead key stays dead and other keys read as before |
| `Keys.NamesNeverCollide` | src/modules/auth/password-reset.service.ts:13-15 | the rendered names of all services' keys collide for no two keys whose ids hold no colon |
| `Tickets.StoreStandsForDesk` | src/modules/auth/otp.service.ts:31-66 | after every log of calls the three keys stand for the ticket; a live code has a live counter with the same expiry, and no counter is without one |
| `Tickets.KeysAnswerLikeTickets` | src/modules/auth/otp.service.ts:31-66 | every call gets from the keys the answer the ticket gives |
| `Tickets.AnswerIff` | src/modules/auth/otp.service.ts:49-66 | each of the four answers characterised by the calls before: no code, too many, wrong, right |
| `Tickets.RightIff` | src/modules/auth/otp.service.ts:49-66 | a try succeeds if and only if it carries the latest code sent, within its lifetime, after fewer than five tries on it, none of them right |
| `Tickets.SentIff` | src/modules/auth/otp.service.ts:31-40 | a code is sent if and only if none was sent to the user within the last 60 s |
| `Tickets.ComparisonsArePaid` | src/modules/auth/otp.service.ts:53-61 | comparisons never exceed the tries left at the start plus five per code sent |
| `Tickets.CodesAreSpaced` | src/modules/auth/otp.service.ts:32-40 | codes sent to a user are at least a cooldown apart |
| `Tickets.GuessBound` | src/modules/auth/password-reset.service.ts:34-69 | in any window of T > 0 ms at most 5 * (1 + ceil(T / 60 s)) codes are compared for a user, for both services |
| `Tickets.GuessBoundIsMet` | src/modules/auth/otp.service.ts:6-8 | for both services and every T > 0 some log has exactly that many comparisons in a window of T ms |
| `TicketServices.OtpService.Issue` | src/modules/auth/otp.service.ts:31-43 | outside the cooldown a code that reads for 600 s, its counter at 0 and a cooldown of 60 s; no other key changes; inside it nothing |
| `TicketServices.OtpService.Verify` | src/modules/auth/otp.service.ts:49-66 | right if and only if the code is the one stored and alive and fewer than five tries were counted; a wrong try counts, a right or sixth one removes the code; no other key changes |
| `TicketServices.Redeem` | src/modules/auth/password-reset.service.ts:58-72 | the same for both services, and equal to the verification of the log model |
| `TicketServices.PasswordResetService.Request` | src/modules/auth/password-reset.service.ts:34-45 | nothing for an unheld address; for a held one, outside the cooldown, a code that reads for 900 s and a cooldown of 60 s; no other key changes |
| `TicketServices.PasswordResetService.Reset` | src/modules/auth/password-reset.service.ts:48-76 | answers "set" if and only if an active account holds the address, the submitted code is the one stored and alive, and fewer than five tries were counted; "too many" if and only if a code is alive and five were; then and only then that account's password is the new one and exactly its rows are gone |
| `TicketRaces.ComparisonsAreLimited` | src/modules/auth/otp.service.ts:53-59 | command by command, tries ever compared number at most 5 * (1 + 2 * codes issued + tries answered right): five for each start, expiry or deletion of the counter |
| `TicketRaces.AcceptedWasRead` | src/modules/auth/otp.service.ts:50-61 | a code is accepted only from a try that found that code stored and unexpired |
| `TicketRaces.UsesOverlap` | src/modules/auth/otp.service.ts:63-65 | of two tries that use one code, the second read it before the first deleted it |
| `TicketRaces.ReadIsEnough` | src/modules/auth/otp.service.ts:49-66 | a try that has read its code is answered right in some continuation if and only if it matched what it read |
| `TicketRaces.OneCodeTwoUses` | src/modules/auth/otp.service.ts:45-48 | a run, for either service, with one code issued and two tries answered right |
| `TicketRaces.IssueAlone` | src/modules/auth/otp.service.ts:31-43 | an issue whose commands run together does what the whole call does |
| `TicketRaces.TryAlone` | src/modules/auth/otp.service.ts:49-66 | a try whose commands run together is answered, and leaves the keys, as the whole call |
| `Totp.EveryLogRuns` | src/modules/auth/totp.service.ts:66-179 | every log of calls has a run |
| `Totp.CountersIncrease` | src/modules/auth/totp.service.ts:163-174 | accepted login counters of a user strictly increase over every run, though the guard key dies |
| `Totp.ShorterGuardFails` | src/modules/auth/totp.service.ts:170-174 | with any shorter guard some run accepts the same counter twice |
| `Totp.ThreePeriodsExactly` | src/modules/auth/totp.service.ts:57-58 | codes are single-use in every run if and only if the guard lives at least three periods |
| `TotpAnswers.ChallengeHolds` | src/modules/auth/totp.service.ts:132-177 | until it expires, the two keys of a challenge are there exactly while no answer passed and at most five were made, and hold the user and the number of answers |
| `TotpAnswers.AcceptedIff` | src/modules/auth/totp.service.ts:145-179 | with the guard, a code is accepted for a user if and only if it answers a challenge granted to them under 300 s ago, not yet used, after fewer than five answers, while 2FA is on, the library finds its counter, and no code of that counter or a later one was ever accepted |
| `TotpLogin.ChallengesAreSingleUse` | src/modules/auth/totp.service.ts:176-177 | no two accepted codes answer the same challenge |
| `TotpLogin.AcceptanceRate` | src/modules/auth/totp.service.ts:32-37 | in any window of L ms at most ceil(L / 30 s) + 3 codes are accepted for a user |
| `TotpLogin.ProtectedRootsNeedCode` | src/modules/auth/index.ts:136-141 | while 2FA is on a family is rooted only by an accepted code |
| `TotpLogin.ProtectedRootsAreDistinct` | src/modules/auth/index.ts:161-172 | two families rooted while 2FA is on have different challenges and increasing accepted counters |
| `TotpLogin.ProtectedLoginRate` | src/modules/auth/totp.service.ts:145-179 | at most ceil(L / 30 s) + 3 such families arise in L ms |
| `TotpLogin.FiveCodesPerChallenge` | src/modules/auth/totp.service.ts:152-158 | no challenge ever has more than five codes judged against it |
| `TotpLogin.OnMeansProved` | src/modules/auth/totp.service.ts:66-103 | 2FA is on only with a secret that a valid code proved when it went live and that has not changed since |
| `TotpLogin.EnableLaw` | src/modules/auth/totp.service.ts:82-96 | in every run an enable succeeds if and only if the account is active with a pending secret and 2FA off and the code belongs to that secret now; otherwise nothing changes |
| `TotpLogin.DisableLaw` | src/modules/auth/totp.service.ts:106-118 | a disable succeeds if and only if the account is active with 2FA on and the code belongs to its secret now, and then clears both; otherwise nothing changes |
| `TotpLogin.OffNeedsCode` | src/modules/auth/totp.service.ts:112-113 | over every run 2FA goes off for an account only by such a disable |
| `TotpLogin.SetupLaw` | src/modules/auth/totp.service.ts:66-76 | a setup writes its secret exactly for an active account with 2FA off |
| `TotpLogin.LoginLaw` | src/modules/auth/index.ts:136-148 | after the password a deleted account gets nothing, one without 2FA tokens, one with it a challenge |
| `TotpLogin.AnswerLaw` | src/modules/auth/totp.service.ts:149-169 | what each answer to a challenge is told, in the order of the checks |
| `Enrolment.WriteWasChecked` | src/modules/auth/totp.service.ts:66-118 | in any interleaving each write follows its own check, which found 2FA off, or off with a secret and a good code, or on with a secret and a good code |
| `Enrolment.OffNeedsCode` | src/modules/auth/totp.service.ts:106-118 | 2FA goes off only by a disable that gave a good code with 2FA on |
| `Enrolment.OnNeedsCode` | src/modules/auth/totp.service.ts:82-96 | and on only by an enable that gave a good code with it off |
| `Enrolment.SetupAlone` | src/modules/auth/totp.service.ts:66-76 | a setup with no statement in between stores its secret, or is refused when 2FA is on |
| `Enrolment.EnableAlone` | src/modules/auth/totp.service.ts:82-96 | an enable likewise |
| `Enrolment.DisableAlone` | src/modules/auth/totp.service.ts:106-118 | a disable likewise |
| `Enrolment.OnMeansProvedIff` | src/modules/auth/totp.service.ts:51-53 | in every interleaving, 2FA is on only with a proved secret throughout if and only if each setup writes with 2FA off and each enable with a proved secret in place |
| `Enrolment.OneAtATimeIsSound` | src/modules/auth/totp.service.ts:66-125 | with one request at a time 2FA is on only with a proved secret |
| `Enrolment.UnprovedSecretGoesLive` | src/modules/auth/totp.service.ts:67-76 | a run that ends with 2FA on and a secret whose code nobody ever gave |
| `Enrolment.LockoutHappens` | src/modules/auth/totp.service.ts:82-118 | a run that ends with 2FA on, no secret, and nothing in flight |
| `Enrolment.LockoutIsFinalIff` | src/modules/auth/totp.service.ts:109-110 | 2FA on without a secret ends in some continuation if and only if a setup or disable past its check has yet to write |
| `TotpLogin.TotpService.Setup` | src/modules/auth/totp.service.ts:66-79 | stores a pending secret exactly for an active account with 2FA off; otherwise refuses and changes nothing |
| `TotpLogin.TotpService.Enable` | src/modules/auth/totp.service.ts:82-103 | goes live exactly for an active account with a pending secret and a valid code; otherwise changes nothing |
| `TotpLogin.TotpService.Disable` | src/modules/auth/totp.service.ts:106-125 | clears secret and flag exactly for an active account with 2FA on and a valid code; otherwise changes nothing |
| `TotpLogin.TotpService.LogIn` | src/modules/auth/index.ts:136-148 | after a verified password: a deleted account is refused, one without 2FA gets tokens, one with it a challenge |
| `TotpLogin.TotpService.CreateLoginChallenge` | src/modules/auth/totp.service.ts:132-138 | for 300 s the challenge reads as the user's and its count as 0, then neither reads; all other keys read as before |
| `TotpLogin.TotpService.ConsumeLoginChallenge` | src/modules/auth/totp.service.ts:145-179 | the answer and keys of the log model, with its order of checks |
| `RateLimit.RedisRateStore.Increment` | src/plugins/rate-limit-store.ts:47-59 | counts the request against its own key alone, opens a window on the first, and reports a reset within half a second of its end unless less than half a second is left, when it reports a whole duration |
| `RateLimit.CountsOwnWindow` | src/plugins/rate-limit-store.ts:50-52 | a count is the number of requests of its own key since the one that opened its window, all within the rounded-up duration of it, after all earlier windows ended |
| `RateLimit.AlwaysWindowed` | src/plugins/rate-limit-store.ts:50-52 | every counter is positive and has an expiry, so no key is blocked for ever |
| `RateLimit.IntervalBound` | src/plugins/rate-limit-store.ts:50-52 | any half-open interval of length `duration` admits at most 2 * max - 1 requests per key |
| `RateLimit.BoundIsMet` | test/rate-limit.test.ts:32-48 | for every duration of at least 2 ms and every positive max a log admits that many |
| `Jwt.VerifyIff` | src/lib/jwt.ts:29-48 | a token verifies to a payload if and only if one of the set secrets signed it, it is unexpired and carries that subject and role |
| `Jwt.SignedForALifetime` | src/lib/jwt.ts:20-26 | a token verifies under the secret that signed it from when it was signed for exactly a lifetime |
| `Jwt.ChangeLaw` | src/lib/jwt.ts:14-18 | after a rotation exactly the new secret and the one it replaced verify, after a drop exactly the current one |
| `Jwt.RunCovered` | src/lib/jwt.ts:13-26 | with changes a lifetime apart, a signed token not under the current secret is under the previous one and older than the change, or its lifetime is over |
| `Jwt.HastyRotationOrphans` | src/lib/jwt.ts:16-18 | with any smaller gap some run orphans an unexpired token |
| `Jwt.ZeroDowntimeIff` | src/lib/jwt.ts:13-19 | in every run each token the service signed verifies to what it was signed for during exactly its lifetime from when it was signed, if and only if changes are a lifetime apart |
| `Listing.OnlyOneOrder` | src/modules/user/service.ts:35-35 | `created_at DESC, id` determines exactly one sequence |
| `Listing.SomeOrder` | src/modules/user/service.ts:35-35 | and there is one |
| `Listing.OnlyOnePage` | src/modules/user/service.ts:36-37 | a page request has exactly one legal answer |
| `Listing.PageLaw` | src/modules/user/service.ts:30-39 | a page holds at most the rows asked for, all active and the owner's when one is given, newest first and then by id |
| `Listing.PagesLaw` | src/modules/user/service.ts:30-39 | so do the pages together, in that order throughout |
| `Listing.NoneMissing` | src/modules/user/service.ts:30-39 | and every such row is there once the pages asked for hold that many |
| `Listing.PagesCoverExactly` | src/modules/user/service.ts:30-39 | consecutive pages, each answered on its own, make up the visible rows in order, none skipped or repeated, if and only if enough of them are asked for |
| `Listing.TieBreakIsNeeded` | src/modules/user/service.ts:35-35 | ordered by date alone, two legal page answers can repeat one row and miss another |
| `MailTemplates.FivePassesAreOne` | src/lib/mail-templates.ts:5-12 | the five whole-string replacements equal one replacement per character |
| `MailTemplates.TheFiveEntities` | src/lib/mail-templates.ts:7-11 | each of the five characters becomes its HTML entity and any other stays |
| `MailTemplates.RoundTrip` | src/lib/mail-templates.ts:5-12 | reading the entities back recovers every input |
| `MailTemplates.EscapingIsSafeAndFaithful` | src/lib/mail-templates.ts:4-12 | the output holds no raw angle bracket or quote, and no two inputs come out alike |
| `MailTemplates.AmpersandMustGoFirst` | src/lib/mail-templates.ts:7-7 | an order of the five passes keeps different texts apart if and only if `&` goes first |

## Left out

- The gap between the clock reading of a refresh and its UPDATE (src/modules/auth/service.ts:145-149). With it a late UPDATE may still claim a row just expired, and an "expired" delete may remove a row another request claimed meanwhile.
- Interleavings inside the answer to a login challenge: its Redis commands and the SELECT run together, in `Rotation` as in the `Totp` modules, so challenges and counters are single-use per answer.
- TotpLogin.OnMeansProved: takes each call as one step; statement by statement the promise fails, and `Enrolment.OnMeansProvedIff` says exactly when.
- Tickets.RightIff: takes each call as one step; what is left command by command is in `TicketRaces`.
- Redis failures, deadlines and the limiter's fail-open answers; `decrement` and `reset` of the limiter.
- Hashes, JWT encoding, TOTP code generation and random values: relations, freshness or injectivity assumptions.
- Equal timing of failed logins (the dummy hash).
- Refresh tokens in cookies, CSRF checks, HTTP routing, validation, logging, audit records, mail queues and mail texts.
- `renderEmailHtml`, `UserService.getById` and `UserService.update`, `markEmailVerified`, the seed and the maintenance schedule: single statements or wiring.
- Role and access token in `issueTokens`: only the stored refresh token is modelled there, the access token in `Jwt`.
- Accounts.OldTokensStayOut: holds from the revoking DELETE on; between the password UPDATE and that DELETE the old tokens are still good, as in the source.
- Accounts.DeletedAccountDrains: bounds the rows a deleted account may still get; that each is unusable is `Accounts.LateLookupFails`.
- RateLimit.IntervalBound: speaks of failure-free runs that only increment.
