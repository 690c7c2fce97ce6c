# Verified model of the authentication service's stateful core

This project models the parts of the authentication service that keep state over time, and
proves what they promise over whole runs:

- **Rate limiting** (`app/core/rate_limit.py`): the bounded in-process counter map with lazy
  reset, periodic cleanup and eviction, the loop of a check over its rules while other requests
  count too, and the shared counter script.
- **One-time-code challenges** (`app/services/email_otp.py`): the in-process dictionary with
  records mutated in place, the shared server with its verification script and key deadlines,
  and login verification as load, decide and save, alone and with any number of others.
- **Password reset** (`app/services/password_reset_service.py` with the reset half of
  `app/services/email_otp.py`): start, code verification, minting, token check, reservation,
  update call, and release, as a state machine over any number of concurrent requests with one
  shared real-valued clock, background delivery failures and uncertain update calls.
- **Lazy connection** (`app/core/database.py`): double-checked creation under a lock, as
  interleaved steps.

How the files fit together:

| file | content |
|---|---|
| `RateLimitSpec.dfy`, `RateLimiter.dfy` | one increment as a relation; the limiter class proved against it |
| `FixedWindow.dfy`, `RedisCounter.dfy`, `RateLimitRuns.dfy`, `RateLimitChecks.dfy` | the ideal counter, the shared counter, refinement, bounds and retry hints over runs, whole checks of the service's own rules |
| `EvictionBound.dfy` | what evictions of a key cost its limit, and a run that makes them cost that much |
| `ChallengeSpec.dfy`, `ChallengeStores.dfy` | both backends as functions; the classes proved against them |
| `ChallengeVerdicts.dfy` | what a verification answers and leaves for any record, malformed ones included |
| `BackendSimulation.dfy`, `LoginRuns.dfy` | the two backends side by side; login challenges over serial runs |
| `LoginOverlap.dfy`, `LoginBudget.dfy` | overlapping login verifications: when a code can be accepted again, how many wrong codes can be tried |
| `Reservations.dfy`, `PasswordResetService.dfy` | the reservation table; the service's entry points over the in-process tables |
| `ResetProtocol.dfy`, `ResetHistory.dfy`, `ResetInvariant.dfy`, `ResetTheorems.dfy` | the protocol machine, what a trace says about a challenge, the invariant, the theorems |
| `ResetSteps.dfy` | what each step does, told from its action alone, and the way through from the issued code to the acknowledged update |
| `LateReservation.dfy` | where timeliness is needed |
| `ResetRefinement.dfy`, `ServiceRuns.dfy`, `ServiceLogs.dfy`, `ProcessRuns.dfy`, `ServerRuns.dfy` | the backends' steps as steps of the machine, whole runs of the service on either backend as behaviours of it, and what the service's own log therefore promises |
| `DatabaseConnection.dfy` | the lazily created pool |

Conventions. Time is a non-negative real; `int(time.time())` is its floor. Digests are an
injective constructor; tokens are values only the minting step creates, valid while the clock
is before `exp` (section 4.1.4 of RFC 7519). Challenge ids and token ids are fresh, and issued
challenge ids and codes contain no colon; ids and codes that callers submit are arbitrary. Emails
reach the challenge code in normal form; the normal form itself is a parameter. A text field of
a record that is missing or no string is `None`; the number fields keep their type (whole number,
fraction, boolean, other), because the two backends test it differently. The server carries out
the commands it is sent, except that the overlapping login verifications may lose their write,
and the reservation's reply, its release and the update call's answer may be lost.
Settings are parameters under the bounds of `app/core/config.py:27-31` and
`app/core/config.py:65-66`.

Results that a reader of the code might not expect:

- In any interval as long as a rule's window, one key that is not evicted passes at most
  `2 * limit - 1` times, and some run reaches that number (`SlidingIntervalBound`,
  `SlidingBoundAttained`). Each eviction of the key inside the interval lets one more `limit`
  pass: with `e` of them at most `(e + 2) * limit - 1` (`EvictionSlidingBound`). For each of the
  service's rules and every `e` this is reached by attempts on that rule alone, ten thousand
  other callers for each eviction (`RulesReachEvictionBound`). The same bounds hold of one
  caller's whole checks that pass (`PassingChecksBound`). While at most ten thousand keys are in
  use nothing is evicted at all (`FewKeysStay`).
- A credential check is rejected if and only if the ideal count of the address in the configured
  burst window, in 60 seconds or in 900 seconds, or of the email in 900 seconds, exceeds its
  limit, with the longest remaining window of those exceeded as its hint
  (`CredentialCheckDecides`); a reset start likewise with 3 a minute for an address and 5 in 15
  minutes for an email (`ResetCheckDecides`).
- The service's documentation tells clients to respect `Retry-After`
  (`README.md:334`). The hint is floored, so waiting exactly that long reaches a new window if
  and only if the remaining time was a whole number of seconds or at most one
  (`WaitingExactlyTheHint`); one more second is always enough. On the server half a second more
  is, whichever way it rounds within half a second (`ServerHintWithinHalfASecond`).
- A confirmation that passes the token check but reserves after the reservation it meets has
  run out can be acknowledged a second time (`LateReservationAcknowledgedTwice`). Counting the
  confirmations that reserve before the token's expiry, a challenge is acknowledged at most
  once (`ChallengeAcknowledgedOnce`); a late one gets through exactly when the stored
  reservation has run out (`ReservingAHeldToken`).
- Whatever others have done, while fewer than the maximum of wrong tries have been made and no
  right one, the issued code leads by verification, minting and a confirmation with a strong
  password to the update of exactly the account the start found, and to its acknowledgement
  (`IssuedCodeResetsPassword`). A challenge is open for `ttl` seconds and a token for `tokenTtl`,
  each less at most one second (`AcceptedWithinTtl`, `AcceptedUntilTtl`, `TokenLifetime`).
- On the shared server a login verification writes what it decided on a copy. A code can be
  accepted again after an acceptance if and only if some verification that loaded before the
  accepting delete is still under way and is either right or wrong with attempts to spare
  (`SecondAcceptanceExactly`, `SecondNeedsStraddler`): a straddling right call is accepted
  itself, and a straddling wrong one saves the used challenge back, so that even a right call
  that loads afterwards is accepted (`LostSaveRevives`). Without a straddler whose write the
  server carries out, a code is accepted at most once.
- In the same way failures overwrite each other. With at most `w` verifications under way at a
  time, and none of their writes lost, up to `Choose(w + max, w) - 1` wrong codes can be tried on
  one login challenge, and no more: `max` of them one after another, 20 with two at a time and
  the default of five. A failure whose write the server does not carry out is not counted at all
  (`app/services/email_otp.py:371-378`), so each lost write allows exactly one code more
  (`FailuresWithinBudget`, `BudgetAttained`), and as long as every write is lost any list of wrong
  codes can be tried, even one at a time, and leaves the challenge as it was (`LostWritesAreFree`).
- The two backends agree about a reset record if and only if its number fields let both accept
  it or neither (`SameOutcomeExactly`): a fractional expiry or count passes the script's test
  only, a boolean count the service's only (`DisputedExactly`).
- In process, where both kinds of challenge share one dictionary, a login verification that
  names `reset:` and a challenge id costs that reset challenge one attempt, and is never
  accepted (`MarkedLoginRefines`). The protocol machine has it as an action, so the reset
  theorems hold with it; no other login request touches a reset challenge.

## Model

| member | source | states |
|---|---|---|
| RateLimiter.Limiter.Increment | app/core/rate_limit.py:226-249 | one locked increment is exactly one `Step`: cleanup when due, count on or reopen, evict only into a full map, hint of at least 1 |
| RateLimiter.Limiter.CleanupMemory | app/core/rate_limit.py:251-257 | removes exactly the entries whose expiry has been reached |
| RateLimiter.Limiter.EvictSoonestExpiringEntry | app/core/rate_limit.py:259-264 | removes one entry, of minimal expiry, or nothing from an empty map |
| RateLimiter.Limiter.ConsumeRules | app/core/rate_limit.py:144-155 | with other requests' increments in between, makes exactly one increment per rule in order and accumulates the largest hint of the exceeded rules |
| RateLimiter.Limiter.CheckCredentialsAttempt | app/core/rate_limit.py:132-158 | rejects if and only if one of the four rules' counts exceeds its limit, with the largest hint among the exceeded rules |
| RateLimiter.Limiter.CheckPasswordResetAttempt | app/core/rate_limit.py:160-201 | the same for the two fixed reset rules |
| RateLimiter.RejectionIsExact | app/core/rate_limit.py:154-158 | the test for a positive hint is equivalent to an exceeded limit because every increment's hint is at least 1 |
| RateLimiter.KeyInjective | app/core/rate_limit.py:146-149 | a counter key determines rule name and digest when names have no colon |
| RateLimiter.KeyText | app/core/rate_limit.py:146-149 | the text of a key, which all replicas share |
| RateLimiter.ChecksShareNoKey | app/core/rate_limit.py:55-80 | no two rules of one check, and no credential and reset rule, ever count on the same key |
| RateLimiter.RoundsFormChain | app/core/rate_limit.py:144-155 | a check's rounds, laid end to end, are an unbroken chain of steps from the map it found to the map it left |
| RateLimitSpec.StepKeepsBound | app/core/rate_limit.py:244-246 | an increment keeps at most 10000 entries, by that number, and stores the incremented key with the count it returned |
| RateLimitSpec.RunKeepsBound | app/core/rate_limit.py:226-246 | so does every run |
| RateLimitSpec.EvictionIsJustified | app/core/rate_limit.py:227-246 | an eviction happens if and only if the map holds 10000 entries, all live, and the key is new; it takes an entry of minimal expiry, and no other live entry is ever lost |
| RateLimitSpec.FewKeysStay | app/core/rate_limit.py:35-35 | a run that uses at most 10000 keys evicts nothing |
| RateLimitSpec.NothingCleanedBefore128 | app/core/rate_limit.py:226-234 | the first 127 increments remove nothing, expired or not |
| RateLimitSpec.CleanupsAreApart | app/core/rate_limit.py:226-234 | below capacity the next 127 increments after one that lost an entry lose none |
| RateLimitSpec.ExpiredEntryGoes | app/core/rate_limit.py:226-234 | an expired entry nobody uses is gone after 128 more increments |
| RateLimitSpec.StepExists | app/core/rate_limit.py:203-249 | every increment has an outcome |
| FixedWindow.AttemptsPrecedeWindowEnd | app/core/rate_limit.py:236-242 | every attempt lies before the end of the ideal window current after it, and some attempt opened that window |
| FixedWindow.SlidingIntervalBound | app/core/rate_limit.py:236-246 | in any half-open interval of the window's length at most 2 * limit - 1 attempts on a key get an ideal count within the limit |
| RateLimitRuns.MemoryRefinesIdealCounter | app/core/rate_limit.py:226-257 | on an unevicted key the map returns the ideal count every time, whatever the cleanup schedule, and a stored count is the number of attempts since expiry minus window |
| RateLimitRuns.FewKeysCountIdeally | app/core/rate_limit.py:35-35 | in a run that uses at most 10000 keys every count is the ideal one and the sliding bound holds, with nothing assumed about evictions |
| RateLimitRuns.HintIsIdeal | app/core/rate_limit.py:248 | the hint of an increment on an unevicted key is the whole seconds left of the ideal window, at least 1 |
| RateLimitRuns.MemorySlidingBound | app/core/rate_limit.py:236-246 | the bound holds of what the map admits |
| RateLimitRuns.SlidingBoundAttained | app/core/rate_limit.py:236-246 | for every limit and window a run of the map admits 2 * limit - 1 |
| RateLimitRuns.RedisRefinesIdealCounter | app/core/rate_limit.py:38-45 | the script returns the ideal count every time and leaves no counter without a deadline |
| RateLimitRuns.CountersAgree | app/core/rate_limit.py:203-249 | both counters, fed the same attempts, return the same counts and end the same windows on an unevicted key |
| RateLimitRuns.RedisSlidingBound | app/core/rate_limit.py:38-45 | the bound holds of what the script admits |
| RateLimitRuns.NextAttempt | app/core/rate_limit.py:236-248 | what the next attempt on a key counts: 1 from the stored expiry on, even after an eviction, one more before it |
| RateLimitRuns.RetryHintSuffices | app/core/rate_limit.py:248 | an attempt more than the hint by one second later counts 1 |
| RateLimitRuns.RetryHintIsNeeded | app/core/rate_limit.py:248 | an attempt before a hint above 1 still counts on |
| RateLimitRuns.NextOnServer | app/core/rate_limit.py:38-45 | what the next attempt on a key of the server counts: 1 from the key's deadline on, one more before it |
| RateLimitRuns.ServerHintWithinHalfASecond | app/core/rate_limit.py:220-222 | whichever way the server rounds within half a second, an attempt half a second after the hint counts 1, and one more than half a second before a hint above 1 counts on |
| RateLimitRuns.WaitingTheServerHint | app/core/rate_limit.py:220-222 | waiting exactly the server's hint opens a new window if and only if the time left was at most one second or was not rounded down |
| RateLimitRuns.WaitingExactlyTheHint | app/core/rate_limit.py:248 | waiting exactly the hint opens a new window if and only if the time left was whole or at most one second |
| EvictionBound.EvictionSlidingBound | app/core/rate_limit.py:236-246 | with e evictions of the key inside an interval as long as the window at most (e + 2) * limit - 1 attempts pass in it |
| EvictionBound.EvictionBoundAttained | app/core/rate_limit.py:236-264 | for every key, limit, window and number of evictions, a run on that key and any ten thousand other keys per eviction, all with the same window, lets exactly that many pass |
| RateLimitChecks.RejectedCallerMayReturn | app/core/rate_limit.py:144-158 | after a rejected check, one second more than its hint is enough for every rule that was exceeded, evictions or not |
| RateLimitChecks.CredentialCheckDecides | app/core/rate_limit.py:55-158 | in any run of the service's increments, a check's four own increments are on these four keys with these windows, and it is rejected, with the longest ideal hint, if and only if an ideal count exceeds its limit: address in the burst window, in 60 and in 900 seconds, email in 900 seconds |
| RateLimitChecks.ResetCheckDecides | app/core/rate_limit.py:160-201 | the same with 3 in 60 seconds for an address and 5 in 900 seconds for an email |
| RateLimitChecks.RulesReachEvictionBound | app/core/rate_limit.py:144-201 | for each of the service's six rules, every caller and ten thousand other callers per eviction, that run consists of increments the service makes for that rule |
| RateLimitChecks.PassingChecksBound | app/core/rate_limit.py:132-201 | of one caller's checks that count on a rule within an interval as long as its window, at most 2 * limit - 1 pass if the rule's key is not evicted, and one limit more for each eviction in the interval |
| RateLimitChecks.RulesFixWindows | app/core/rate_limit.py:172-196 | all increments of a key come from one rule and use its window |
| RedisCounter.Server.EvalCounter | app/core/rate_limit.py:38-45 | INCR, EXPIRE on the first count and TTL amount to the script function, and return its count and the time the key has left in the server's whole seconds |
| RedisCounter.Server.Increment | app/core/rate_limit.py:211-222 | the service's increment on the server returns the script's count and those seconds, but at least 1 |
| ChallengeSpec.DigestInjective | app/services/email_otp.py:329-334 | equal digests mean equal challenge and code |
| ChallengeSpec.DigestDecidesCode | app/services/email_otp.py:329-334 | on one challenge equal digests mean equal codes |
| ChallengeSpec.SameOutcomeExactly | app/services/email_otp.py:30-60 | script and locked branch give the same verdict on a record and leave the same of it if and only if both accept its field types and expiry or neither does |
| ChallengeSpec.DisputedExactly | app/services/email_otp.py:34-40 | only one accepts it exactly when an otherwise valid, unexpired record has a fraction as expiry or count, or a boolean as count |
| ChallengeSpec.AgreementLasts | app/services/email_otp.py:286-305 | once they agree about a record they agree about it ever after |
| ChallengeSpec.MemKeysCollide | app/services/email_otp.py:381-385 | login and reset keys of the shared dictionary collide exactly when the login id starts with the reset marker |
| ChallengeSpec.RedisKeysDistinct | app/services/email_otp.py:75-76 | the server's login and reset keys never collide |
| ChallengeVerdicts.ScriptVerdict | app/services/email_otp.py:34-60 | the script on a record with any number as count and expiry: the verdict by the numbers, and a failure adds one to the count and keeps the rest |
| ChallengeVerdicts.ScriptRefuses | app/services/email_otp.py:34-44 | every other record, a missing one included, is answered invalid and gone |
| ChallengeVerdicts.ServiceVerdict | app/services/email_otp.py:286-321 | the locked branch on a record with any integer or boolean as count and expiry, likewise |
| ChallengeVerdicts.ServiceRefuses | app/services/email_otp.py:288-305 | every other record is answered invalid and gone |
| ChallengeVerdicts.LoginVerdict | app/services/email_otp.py:153-194 | a login verification on any well-typed record: acceptance by count, expiry, email and digest, and a failure is stored with a deadline within one second after the expiry and the delay of the save |
| ChallengeVerdicts.LoginRefuses | app/services/email_otp.py:153-170 | a malformed record is removed and refused |
| ChallengeVerdicts.StartStaysUntilExpiry | app/services/email_otp.py:205-224 | the two starts store an expiry and a deadline of `ttl` seconds from their own clocks |
| ChallengeVerdicts.DeletedIsRefused | app/services/email_otp.py:423-445 | after a delete both backends refuse every verification until the challenge is saved again |
| ChallengeStores.InProcessStore.CleanupMemory | app/services/email_otp.py:447-456 | drops exactly the records without an integer expiry in the future |
| ChallengeStores.InProcessStore.Save | app/services/email_otp.py:386-388 | stores a fresh copy of the caller's record after a cleanup |
| ChallengeStores.InProcessStore.Load | app/services/email_otp.py:418-421 | returns a fresh copy of the stored record, or nothing |
| ChallengeStores.InProcessStore.VerifyPasswordReset | app/services/email_otp.py:286-321 | the new contents and the answer are `MemoryVerify` of the old contents, and stored records keep their identity |
| ChallengeStores.InProcessStore.DecideStored | app/services/email_otp.py:288-321 | a failure is written into the stored record in place and changes no other challenge |
| ChallengeStores.InProcessStore.VerifyLogin | app/services/email_otp.py:149-194 | login on the dictionary is `MemoryLogin`: failures are counted on the loaded copy and saved |
| ChallengeStores.RedisStore.EvalVerify | app/services/email_otp.py:30-60 | the script, command by command, is `ScriptVerify`; a counted failure keeps the key's deadline |
| ChallengeStores.RedisStore.VerifyLogin | app/services/email_otp.py:149-194 | login on the server without overlap is `RedisLogin` |
| ChallengeStores.RedisStore.VerifyPasswordReset | app/services/email_otp.py:261-284 | the service sends the script the digest and its own clock reading in whole seconds |
| BackendSimulation.BackendsAgree | app/services/email_otp.py:265-321 | over any run of saves, deletes and both verifications under issued ids, of records both backends would accept or neither, with any field missing or of another type, both give the same answers, and no deadline comes before a record's expiry |
| BackendSimulation.DeadlineCoversLife | app/services/email_otp.py:359-376 | a server deadline never removes a live record |
| BackendSimulation.StartsAreProper | app/services/email_otp.py:205-224 | the saves that start challenges have deadlines reaching their floored expiry |
| BackendSimulation.VerifyResetSimulates | app/services/email_otp.py:286-321 | from related stores the script and the locked branch answer alike and stay related |
| BackendSimulation.VerifyLoginSimulates | app/services/email_otp.py:149-194 | the same for login, with three separate clock readings |
| LoginRuns.DeadlineNeverMoves | app/services/email_otp.py:186-191 | saving a failure never changes the expiry a login challenge was issued with |
| LoginRuns.AcceptedExactly | app/services/email_otp.py:149-194 | a login call is accepted if and only if it is the first right one, came after fewer than the maximum of wrong ones, and reads a clock before the expiry |
| LoginRuns.AcceptedAtMostOnce | app/services/email_otp.py:153-194 | a login code is accepted at most once on either backend |
| LoginRuns.AcceptanceWindow | app/services/email_otp.py:120-173 | acceptance comes less than ttl seconds after the start, and expiry refuses nothing until ttl - 1 seconds after it |
| LoginOverlap.FinishWrites | app/services/email_otp.py:157-194 | what ending a call on a loaded copy answers and writes, or would write if the write is not lost, whatever the server holds by then |
| LoginOverlap.CanAcceptExactly | app/services/email_otp.py:153-194 | from any point of any run the code can still be accepted if and only if the stored record is open or a copy under way is right and was loaded in time, or wrong with attempts to spare |
| LoginOverlap.SecondAcceptanceExactly | app/services/email_otp.py:153-194 | right after an acceptance a second one is possible if and only if such a copy is still under way |
| LoginOverlap.SecondNeedsStraddler | app/services/email_otp.py:153-194 | in every run a second acceptance is, or is preceded by, the finish of a call that loaded before the first, so without one the code is accepted once; a lost write counts as a finish if the server carried it out |
| LoginOverlap.LostSaveRevives | app/services/email_otp.py:186-194 | a wrong login's late save puts a used challenge back, whether or not its reply is lost, and a right login that loads after the accepting delete is accepted too |
| LoginBudget.BudgetIsChoose | app/services/email_otp.py:181-192 | the budget's recursion is a binomial coefficient less one |
| LoginBudget.SerialBudget | app/services/email_otp.py:181-192 | one call at a time can fail exactly the maximum of attempts |
| LoginBudget.FailuresWithinBudget | app/services/email_otp.py:153-192 | with at most w copies under way no run compares more than Choose(w + max, w) - 1 wrong codes and one more for each failure whose write was lost |
| LoginBudget.LostWritesAreFree | app/services/email_otp.py:371-378 | while every write is lost, any list of wrong codes can be tried one call at a time, and stored record, clock and calls under way are as before |
| LoginBudget.BudgetAttained | app/services/email_otp.py:153-192 | for every w of at least 1, maximum and number of lost writes, any list of that many wrong codes is tried, in its order, by a run with at most w calls under way |
| Reservations.ReservationTable.CleanupBlacklist | app/services/password_reset_service.py:363-368 | removes exactly the reservations whose expiry has been reached |
| Reservations.ReservationTable.ReserveToken | app/services/password_reset_service.py:342-347 | reserves exactly when no live reservation of the id exists |
| Reservations.ReservationTable.ReleaseToken | app/services/password_reset_service.py:360-361 | removes the id's reservation, whoever made it, and nothing else |
| Reservations.ReservationOutlivesToken | app/services/password_reset_service.py:198-201 | with the clock read before reserving, a reservation lasts at least until the token's expiry, and less than one second plus the delay longer |
| Reservations.ReserveAgrees | app/services/password_reset_service.py:327-347 | both backends reserve alike and keep the same live view |
| Reservations.FailedUpdateLeavesNoTrace | app/services/password_reset_service.py:201-210 | after reserve, failed update and release, with any activity on other ids in between, the live reservations are as if the call had never run |
| Reservations.OthersAnswerAlike | app/services/password_reset_service.py:201-210 | while the reservation is pending, every call on another id gets the answer it would have got without it |
| PasswordResetService.Service.StartReset | app/services/password_reset_service.py:107-145 | an identity gets a challenge if and only if the service is ready and all the other identities, but not this one, are administrators'; otherwise the store is untouched and the id is a dummy |
| PasswordResetService.Service.VerifyCode | app/services/password_reset_service.py:147-171 | while the challenge service is not ready nothing happens; a success uses up the challenge and yields claims with its email and account, issued now to the second and expiring `tokenTtl` seconds later |
| PasswordResetService.Service.ConfirmReset | app/services/password_reset_service.py:173-212 | succeeds exactly on an unexpired token of no administrator, a strong password, a free id and status 200; a failure leaves the reservations as if it had not run, a success keeps the id reserved until the token expires |
| ResetHistory.ClosedForGood | app/services/email_otp.py:286-321 | a closed challenge is closed in every longer history |
| ResetInvariant.DecisionIsRuling | app/services/email_otp.py:30-60 | the decision about the stored record is what the challenge's history rules, and leaves the slot in step with it |
| ResetInvariant.ProbeFollowsHistory | app/services/email_otp.py:149-194 | a login verification under a reset key removes or counts on the stored challenge as its history says |
| ResetInvariant.InvKept | app/services/password_reset_service.py:107-212 | every action of every request keeps the protocol's invariant |
| ResetInvariant.ReserveKeepsHolds | app/services/password_reset_service.py:198-201 | a reservation made before the token's expiry finds no other holder and stands until the expiry |
| ResetInvariant.ReleaseKeepsHolds | app/services/password_reset_service.py:349-361 | a release before the token's expiry gives back the releaser's own reservation and no one else's |
| ResetTheorems.VerdictByHistory | app/services/email_otp.py:254-321 | in every behaviour every verification answers exactly what the history of its challenge rules |
| ResetTheorems.NoResurrection | app/services/email_otp.py:237-321 | once used, exhausted (by reset or login verifications), expired or withdrawn, a challenge is gone and every later verification is invalid |
| ResetTheorems.ChallengeIsUsedOnce | app/services/email_otp.py:286-321 | of any concurrent verifications of a challenge at most one succeeds |
| ResetTheorems.AttemptBudget | app/services/email_otp.py:307-321 | stored attempts equal failed tries, login verifications under the reset key included, and stay below the maximum; at most the maximum ever fail; attempts exceeded answers exactly the last of them |
| ResetTheorems.IssuedCodeIsAccepted | app/services/email_otp.py:196-321 | with arbitrary activity of others, login requests included, and fewer than the maximum of wrong tries, the issued code with an equivalent email is accepted in time for the account the start found |
| ResetTheorems.CallProvenance | app/services/password_reset_service.py:124-207 | every update call is preceded by a start that found one identity alone but for administrators', a timely right verification and a minting, carries that identity's account, never an administrator's, for a code issued to that identity's email in normal form, and its token was presented before it expired |
| ResetTheorems.AckHasLineage | app/services/password_reset_service.py:147-212 | every acknowledged update goes back to such a start, verification and minting |
| ResetTheorems.TokenAcknowledgedOnce | app/services/password_reset_service.py:198-212 | of all confirmations of a token that reserve before its expiry at most one is acknowledged |
| ResetTheorems.ChallengeAcknowledgedOnce | app/services/password_reset_service.py:147-212 | two acknowledged updates that reserved in time and go back to one started challenge are the same |
| ResetTheorems.FailedUpdateCanBeRetried | app/services/password_reset_service.py:208-210 | after an update call that answered anything but 200, or not at all, its reservation alone is released and a new confirmation before the expiry reaches the update call |
| ResetSteps.AckedExactly | app/services/password_reset_service.py:247-263 | in every behaviour a step acknowledges a task's update if and only if it is the answer 200 of this task's update call |
| ResetSteps.OtherAnswersRelease | app/services/password_reset_service.py:202-210 | any other answer or none adds nothing to the trace, and the release that follows gives back exactly this id |
| ResetSteps.CalledExactly | app/services/password_reset_service.py:201-207 | a task calls if and only if its reservation finds the id free and the reply arrives |
| ResetSteps.OverExactly | app/services/password_reset_service.py:173-212 | when nothing further happens in a confirmation: refused token, held id or lost reservation reply, acknowledgement, release, or cancellation |
| ResetSteps.ReservationsExactly | app/services/password_reset_service.py:198-210 | reservations change only when a free id is reserved, at least until its token's expiry, a failed call releases its own id, or a reservation that ran out lapses |
| ResetSteps.AdmittedExactly | app/services/password_reset_service.py:178-196 | a presented token is admitted if and only if it has not expired and the password is strong |
| ResetSteps.TokenLifetime | app/services/password_reset_service.py:273-280 | a token is admitted until `tokenTtl - 1` seconds after its minting and never from `tokenTtl` seconds on |
| ResetSteps.CallHadStrongPassword | app/services/password_reset_service.py:178-207 | behind every update call this task presented this token before its expiry with a strong password |
| ResetSteps.StartedExactly | app/services/password_reset_service.py:124-145 | a start creates a challenge if and only if all identities but one are administrators', for that one's account and email, expiring `ttl` seconds after its clock reading |
| ResetSteps.FailedDeliveryWithdraws | app/services/email_otp.py:237-252 | after a failed delivery the challenge is never there again |
| ResetSteps.AcceptedWithinTtl | app/services/email_otp.py:205-321 | every success goes back to a start of its challenge with its code, less than `ttl` seconds before |
| ResetSteps.AcceptedUntilTtl | app/services/email_otp.py:205-321 | until `ttl - 1` seconds after its start the issued code is accepted for the account found, however many others are active |
| ResetSteps.IssuedCodeResetsPassword | app/services/password_reset_service.py:107-212 | from any reachable state with a usable challenge, verification, minting and confirmation can be completed, and end in the update call and acknowledgement for exactly the account the start found |
| LateReservation.ReservingAHeldToken | app/services/password_reset_service.py:178-201 | a confirmation meeting a held id gets through if and only if the stored reservation has run out, which is never before the token's expiry |
| LateReservation.LateReservationAcknowledgedTwice | app/services/password_reset_service.py:178-212 | for every configuration a concrete behaviour in which a late reservation is acknowledged after a timely one |
| ResetRefinement.InProcessVerifyRefines | app/services/email_otp.py:286-321 | the locked verification is a lapse of everything expired followed by the machine's verification, whatever id is submitted |
| ResetRefinement.InProcessStartRefines | app/services/email_otp.py:386-388 | so is the save that starts a challenge |
| ResetRefinement.InProcessDeleteRefines | app/services/email_otp.py:439-445 | the delete after a failed delivery is the machine's |
| ResetRefinement.MarkedDigestDiffers | app/services/email_otp.py:329-334 | no code submitted under a reset key has the digest of an issued code |
| ResetRefinement.MarkedLoginRefines | app/services/email_otp.py:149-194 | a login verification under a reset key is never accepted, and is lapses and the machine's counted failure |
| ResetRefinement.UnmarkedLoginIsLapses | app/services/email_otp.py:149-194 | under any other id it is a lapse of what has expired and nothing else to the reset challenges |
| ResetRefinement.LoginSaveIsLapses | app/services/email_otp.py:381-388 | starting a login challenge likewise |
| ResetRefinement.ScriptRefines | app/services/email_otp.py:268-276 | the script with a possibly old clock argument is the machine's verification |
| ResetRefinement.ServerStartRefines | app/services/email_otp.py:359-376 | the server's SET with a deadline is the machine's start |
| ResetRefinement.ServerDeleteRefines | app/services/email_otp.py:430-437 | the server's DEL is the machine's withdrawal |
| ResetRefinement.DeadlineIsLapse | app/services/email_otp.py:371-375 | a deadline that passes is a lapse the machine allows |
| ResetRefinement.InProcessReserveRefines | app/services/password_reset_service.py:342-347 | the in-process reservation is a lapse of everything expired followed by the machine's reservation |
| ProcessRuns.ProcessRunIsBehaviour | app/services/password_reset_service.py:107-212 | every run of the service on the in-process tables, login traffic included, is a behaviour of the machine with the same log of verdicts, calls and acknowledgements, challenges and reservations |
| ServerRuns.LoginCommandsLeaveResetKeys | app/services/email_otp.py:75-76 | no command of a login request touches a reset key on the server |
| ServerRuns.ServerRunIsBehaviour | app/services/password_reset_service.py:107-212 | so is every run on the shared server, with deadlines that pass at any time |
| ServiceLogs.LogIsSound | app/services/password_reset_service.py:107-212 | lapses left out, a behaviour's trace is sound as a log: a challenge succeeds once, timely acknowledgements of one token or of one challenge are one, every update call has a start, a success and a minting in the log before it, is for no administrator and came of a token presented in time, and every acknowledgement has such a lineage |
| ProcessRuns.ProcessRunLogIsSound | app/services/password_reset_service.py:107-212 | at every point of every run of the service on the in-process tables its log is sound |
| ServerRuns.ServerRunLogIsSound | app/services/password_reset_service.py:107-212 | so is the log of every run on the shared server |
| ProcessRuns.ProcessAcceptsIssuedCode | app/services/email_otp.py:286-321 | in every run on the in-process tables a verification with a code that by the log is unexpired and usable succeeds, for the account of its start |
| ProcessRuns.ProcessAcksExactly | app/services/password_reset_service.py:247-263 | a request's step adds an acknowledgement to the log if and only if its update call answers 200 |
| ProcessRuns.ProcessStartsExactly | app/services/password_reset_service.py:124-145 | a start adds a challenge to the log if and only if all identities but one are administrators', and for that one |
| ProcessRuns.ProcessStoreIsSerial | app/services/email_otp.py:286-456 | in every run the dictionary holds what a serial run of the store's calls leaves, so what is proved of serial runs, of login challenges too, holds of it |
| ServerRuns.ServerAcceptsIssuedCode | app/services/email_otp.py:265-284 | in every run on the shared server such a verification succeeds |
| ServerRuns.ServerAcksExactly | app/services/password_reset_service.py:247-263 | acknowledgements likewise |
| ServerRuns.ServerStartsExactly | app/services/password_reset_service.py:124-145 | starts likewise |
| DatabaseConnection.Database.BeginConnect | app/core/database.py:29-34 | the first check and the missing-URL error |
| DatabaseConnection.Database.TakeConnectLock | app/core/database.py:34-37 | the second check under the lock |
| DatabaseConnection.Database.FinishCreation | app/core/database.py:37-43 | the awaited creation ends and frees the lock, with a pool or without |
| DatabaseConnection.FoundPoolIsReturned | app/core/database.py:29-36 | in every interleaving a connect that finds the pool at either check returns it and changes nothing |
| DatabaseConnection.MissingPoolIsCreated | app/core/database.py:31-37 | one that finds none waits for the lock, or raises without a URL, and creates the pool under the lock |
| DatabaseConnection.ConnectEndsExactly | app/core/database.py:27-43 | a connect has raised if and only if it began without pool and URL or its own creation failed, and has returned a pool if and only if it found it or created it |
| DatabaseConnection.WaitingConnectProceeds | app/core/database.py:34-43 | a waiting connect can take the lock now, or right after the creation that holds it ends either way |
| DatabaseConnection.OnePool | app/core/database.py:27-43 | any interleaving of connects without a close creates at most one pool, and every connect that returned did so with the pool visible now |
| DatabaseConnection.ConnectCanBeRetried | app/core/database.py:27-43 | after a failed creation, or with the lock free and no pool, a new connect can succeed |

## Left out

- TokenAcknowledgedOnce: counts confirmations that reserve before the token's expiry, because without that it is false; LateReservation.dfy gives the behaviour and the exact condition.
- ChallengeAcknowledgedOnce: likewise, and it counts 200 answers; a call that timed out may have been applied by the update service and is retried.
- MemoryRefinesIdealCounter: for keys that are not evicted, because an evicted key's window restarts; EvictionIsJustified says when that can happen and EvictionSlidingBound what it costs.
- BackendsAgree: for ids without a colon, as the service issues them, because other ids can share a dictionary key (MemKeysCollide; MarkedLoginRefines says what happens then), for records that are not accepted by one backend alone (SameOutcomeExactly), and for calls that do not overlap; LoginOverlap.dfy treats overlap.
- ServerHintWithinHalfASecond: which whole second the server rounds to is its own matter; any rounding within half a second is covered.
- FailuresWithinBudget: a call counts as under way until its write can no longer reach the server, which may be after the call was answered.
- AttemptBudget: counts tries that are answered. A script aborted when its SET is refused stores no failure and answers that the service is unavailable; the machine's server carries out the script it is sent.
- LoginVerdict: for emails in ASCII. The login verification compares emails as text, which raises on any other character before anything is counted or removed (`app/services/email_otp.py:178`); the reset verification compares bytes and does not.
- ProcessRunIsBehaviour: an in-process operation reads the clock and acts without being suspended, since its locks are never held across a suspension, so a locked operation happens at one clock reading; a login verification has three readings and nothing in between.
- ConfirmReset: is one request's view, in which others leave the same id alone while its call is pending; the protocol machine has no such restriction.
- The failover of the rate limiter from server to memory: the two counters are independent, so counts do not carry over.
- Closing the database while connects are under way, and the same connect pattern of the three server clients.
- The order in which a dictionary's ties are broken at eviction: any entry of minimal expiry may go.
- Serialization of records, which is taken to round-trip, numbers of more digits than the script's encoder keeps, and very large integers.
- Readiness flags, secret selection, password pattern, email masking and normal form: parameters or single tests.
- SMTP and message building, HTTP routes, cookies, metrics, SQL text, the identity broker and credential login: I/O around this core.
