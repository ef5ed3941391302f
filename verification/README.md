# ct-agent: a verified model

`ct-agent` is a long-running tunnel agent. This project models the parts of it that keep
state across failures, and proves what they promise over whole runs: every sequence of
calls, crashes, power losses and replies, not one call at a time.

* **Share links** (`ShareLinks`, `ShareLinkHistory`, `ShareLinkAnswers`, `LinkFile`,
  `LinkText`). The links file is a bounded, lossy list: records are pruned a week after
  expiry and keep only their newest sixteen sessions. It is proved to accept, after any run
  of mints, redemptions and revocations (failed reads and writes included), exactly what the
  unpruned sequence of calls allows.
* **The gate** (`Gate`, `GateHistory`, `GatePasswords`, `RateLimiting`). One credential, two
  failure limiters and the link store. Over any run it admits exactly the visits the calls
  so far allow. Password verdicts are those of replaying the password attempts alone, link
  answers those of dropping the password attempts, cookie visits leave no trace, and
  guessing links or passwords is bounded over every run.
* **Files that survive crashes** (`AtomicReplace`, `OriginKeys`, `OriginKeyRuns`, `Renewal`,
  `Onboard`). Each procedure is a method that performs one system call at a time, any of
  which may fail, on an object that remembers every state it passed through; the theorems
  are about any number of runs that may each have stopped in any of those states.
  `AtomicReplace` adds power loss: unsynced bytes become anything, and only a prefix of the
  directory operations survives.
* **The event ring** (`EventRing`). Two bounded files stand for an unbounded log, down to
  the bytes.
* **The ACME client** (`AcmeClient`, `AcmeWorld`, `Dns01`). The client runs against a CA that
  obeys section 7.1.6 of RFC 8555 and otherwise answers as it likes, loses answers, and
  moves orders at any time. The CA's side records a fault at the moment the client breaks a
  rule, and every client method is proved to add none.
* **The OIDC refresh** (`OidcRefresh`). Any number of callers, interleaved step by step,
  share one rotating refresh token.
* **Smaller cores**: reconnect backoff (`Reconnect`), hex and constant-time equality
  (`Codec`), the credential line and `--ttl` (`Credentials`).

`Strings` and `Wrappers` hold the string operations and result types the rest is built
from. Methods are tied by their `ensures` to functions of the old state; the theorems are
about those functions.

## Where the code does less than its comments say

Each of these is stated with its exact condition, in both directions, and with the states
or inputs that break it.

* The failure limiter uses window start 0 for "no window". Its bound holds for every sequence
  of attempts exactly when the first failure is not at clock 0 (`BoundHoldsIffClockIsSet`).
* A key rotation started after a crash between the two renames of an earlier one overwrites
  the only copy of the key the published capability names (`RotationServesIff`,
  `InBetweenRotationLosesTheKey`). The retired file is named after the capability's origin,
  not after the key it holds.
* A persisted identity that cannot be read is treated as absent and replaced
  (`IdentityKeptIffReadable`).
* A certificate file that cannot be read, or whose age cannot be, counts as due. A fresh pair
  survives every crash point of a renewal run exactly when the run could read what it needed
  (`FreshPairSurvivesIffInformed`).
* A certificate whose validity does not parse is judged by the file's time. If that time
  lies in the future the certificate is due now and not due later, so the state between the
  two renames (new key, old certificate) is not always repaired (`MixedStateStaysDueIff`,
  `CutOffIsRepairedIff`).
* A first onboarding that crashes between the renames, or whose redeem is answered in vain,
  can never finish: every later boot fails (`RestoresIffTenant`, `CanFinishIff`,
  `SingleTokenFinishesIff`, `StuckAfterOneBoot`).
* A boot that cannot look the identity file up takes it for a first boot, and onboards over
  it if its join token is unspent (`IdentityKeptIff`).
* Onboarding a second agent id, or into a second tenant, over an existing state directory
  can restore a mix of the two after a crash (`PersistNeverMixesIff`).
* The refresh mutex is not enough when an IdP's answer is lost on the way back or cannot be
  saved. From any sound state a loss leads to a retired refresh token being shown exactly
  when the lost answer replaced the token (`LossHarmsIff`; `AfterALostAnswer` is the shortest
  such run).

## Model

| member | source | states |
|---|---|---|
| ShareLinkHistory.AcceptsExactlyTheAllowed | native/src/local_auth.rs:983-1128 | after any run the pruned file accepts a URL token iff it was minted, is unexpired, unrevoked and multi-use or never redeemed; a cookie iff a URL redemption of that link issued it, fewer than 16 later ones followed, and the link is unexpired and unrevoked |
| ShareLinkHistory.ReceiptIsTrue | native/src/local_auth.rs:1097-1117 | a success names the minting call that allowed it, its label and remaining lifetime, and says "first use" exactly when no URL redemption of that link came before |
| ShareLinkHistory.AtMostFiftyActive | native/src/local_auth.rs:1004-1011 | at most 50 links are active in every reachable state, at that time and later |
| ShareLinkHistory.SingleUseSucceedsOnce | native/src/local_auth.rs:1094-1100 | a single-use URL succeeds at most once over any run |
| ShareLinkHistory.LedgerIsTold | native/src/local_auth.rs:1002-1128 | the unpruned record of a run says exactly which calls minted, redeemed and revoked each link |
| ShareLinkAnswers.RefusalIsTrue | native/src/local_auth.rs:1074-1096 | over any run a refusal names a true reason: the secret's link was revoked, else has expired, else was single-use and used; "unknown" only for a secret of no link or of one that expired over a week ago |
| ShareLinkAnswers.MintAnswer | native/src/local_auth.rs:1002-1032 | over any run a mint is answered with a link expiring `ttl` from now iff the disk works and fewer than 50 links minted so far are unexpired and unrevoked, else with that count or a store error |
| ShareLinkAnswers.RevokeAnswer | native/src/local_auth.rs:1047-1059 | over any run, for a link that may not be forgotten yet: done iff the disk works and no revocation of it took before, "already revoked" iff one did |
| ShareLinkAnswers.RevokeUnknownAnswer | native/src/local_auth.rs:1047-1059 | an id nobody minted is unknown; "unknown" is said only of such an id or of a link that expired a week ago, each other answer only where it is true |
| ShareLinkAnswers.RedeemAnswer | native/src/local_auth.rs:1073-1128 | over any run a redemption is let in iff the calls so far allow it and the disk plays along, a store error is reported iff it is one, and any other refusal is that of RefusalIsTrue |
| ShareLinkAnswers.SavedIsPruned | native/src/local_auth.rs:984-984 | whenever a call replaces the file, no record in it expired a week or more before |
| ShareLinkAnswers.MintedLinkOpens | native/src/local_auth.rs:1002-1128 | a mint that reported success: over any run that follows, its URL works until exactly the expiry reported, a revocation of that id or, if single-use, its first redemption |
| ShareLinkAnswers.RevokedLinkIsShut | native/src/local_auth.rs:1047-1128 | a revocation that reported success: over any run that follows, no secret of that link opens it again |
| ShareLinkAnswers.SessionOpens | native/src/local_auth.rs:1073-1128 | a URL redemption that reported success: over any run that follows, its session works as a cookie until exactly the lifetime reported has passed, the link is revoked, or sixteen more URL redemptions of that link took |
| ShareLinks.JudgeExact | native/src/local_auth.rs:1073-1096 | in every sound state the file accepts a secret iff some unpruned entry does |
| ShareLinks.OpenIsFound | native/src/local_auth.rs:1081-1096 | a secret the unpruned entry allows is found in the file at that entry's own record |
| ShareLinks.FoundIsOpen | native/src/local_auth.rs:1081-1096 | a secret the file accepts is allowed by an unpruned entry |
| ShareLinks.Reachable | native/src/local_auth.rs:983-1128 | after every run the file is the full history, pruned and with each link's newest sixteen sessions; links never share an id, token or session |
| ShareLinks.MintKeeps | native/src/local_auth.rs:1002-1032 | minting keeps that, whether or not the disk takes it, and keeps the cap |
| ShareLinks.RevokeKeeps | native/src/local_auth.rs:1047-1059 | revoking keeps that, also for a link already pruned |
| ShareLinks.RedeemKeeps | native/src/local_auth.rs:1073-1128 | redeeming keeps that, dropped sessions included |
| ShareLinks.CountsAgree | native/src/local_auth.rs:984-1005 | pruning never changes how many links count as active |
| ShareLinks.RetainTwice | native/src/local_auth.rs:984-984 | pruning at two times is pruning at the later one |
| ShareLinks.NewestSessions | native/src/local_auth.rs:1105-1107 | a session hash is among those kept iff fewer than sixteen sessions were issued after it |
| LinkFile.LinkStore.MintAt | native/src/local_auth.rs:1002-1032 | re-reading, checking the cap, appending and saving is the store's mint step, error paths included |
| LinkFile.LinkStore.RevokeAt | native/src/local_auth.rs:1047-1059 | the same for revoking |
| LinkFile.LinkStore.RedeemAt | native/src/local_auth.rs:1073-1128 | the same for redeeming; only a URL redemption writes |
| LinkFile.LinkStore.Save | native/src/local_auth.rs:983-993 | prunes, then replaces the file or leaves it |
| LinkText.LinkTokenInTarget | native/src/local_auth.rs:1171-1188 | the scanning loop returns the first link parameter's value and the rebuilt target |
| LinkText.BuiltTargetIsRead | native/src/local_auth.rs:1171-1188 | a target built from parameters yields the token of the first link parameter, and the others in order |
| LinkText.RequestIsRead | native/src/local_auth.rs:1155-1166 | a request written out within the size bound is parsed back to its method, its target and its headers with names and values trimmed, whatever body follows |
| LinkText.HeadIsBounded | native/src/local_auth.rs:1155-1157 | bytes whose first 8192 hold no blank line are no request |
| LinkText.HeadersAreRead | native/src/local_auth.rs:1164-1164 | each header line yields its trimmed name and value, in order |
| LinkText.StrippedTargetIsClean | native/src/local_auth.rs:1171-1188 | the stripped target carries no link parameter, has the same path and keeps every other non-empty parameter in order |
| LinkText.RedirectHasExactlyItsLines | native/src/local_auth.rs:1210-1228 | for any location and session the 302 splits on CR LF into its six fixed lines and the blank one |
| LinkText.CleanLocationIsKept | native/src/local_auth.rs:1211-1217 | a clean path of this origin is sent unchanged, anything else becomes the root |
| LinkText.SafeLocation | native/src/local_auth.rs:1211-1217 | the location sent is a same-origin path without CR, LF or space |
| LinkText.CookieHasExactlyItsParts | native/src/local_auth.rs:1218-1222 | the cookie is its pair and five attributes, and its Max-Age reads back as the lifetime |
| LinkText.PairSurvives | native/src/local_auth.rs:1218-1222 | a well-formed session is in the Set-Cookie pair unchanged |
| LinkText.SessionIsFromCookie | native/src/local_auth.rs:1191-1199 | a session found is the value of a piece with the session cookie's name in a Cookie header |
| LinkText.CookieNameIff | native/src/local_auth.rs:1194-1194 | a header is one iff its name is "cookie" in any ASCII case |
| LinkText.SessionComesBack | native/src/local_auth.rs:1191-1199 | the session the 302 set is what a later request's cookies yield, among other cookies, padded or not, in any later Cookie header |
| Gate.LocalAuthGate.Verify | native/src/local_auth.rs:434-470 | a password attempt is the gate's password step, with or without a username |
| GatePasswords.PasswordAnswer | native/src/local_auth.rs:434-470 | locked out with the seconds left, else accepted iff the name, if asked for, and the password are the credential's, else refused |
| GatePasswords.NobodyWithoutCredential | native/src/local_auth.rs:441-451 | without a credential nothing is accepted |
| GatePasswords.PasswordGuessingIsBounded | native/src/local_auth.rs:204-273 | over any run, between two accepted passwords at most 7 * (floor(T / 61) + 1) wrong ones are compared in the T seconds from the first attempt |
| Gate.LocalAuthGate.CheckShareLinkAt | native/src/local_auth.rs:394-429 | a visit is the gate's link step: link limiter, store and answer |
| Gate.UrlIsPresented | native/src/local_auth.rs:398-402 | the bytes of a request whose target carries a link parameter present exactly that token, and the target to send the guest back to |
| Gate.CookieIsPresented | native/src/local_auth.rs:403-407 | the bytes of a later request that sends back the cookie a redirect set, among any others, present that very session |
| GateHistory.RedirectLeadsIn | native/src/local_auth.rs:394-429 | a visit that was redirected got a session with which the next visit is let in, for exactly the lifetime the redirect's cookie was given |
| GateHistory.AdmitsExactlyTheAllowed | native/src/local_auth.rs:394-429 | after any run of the gate a URL visit is redirected iff the limiter is open, the disk works and the calls so far allow its token; a cookie visit passes iff the file can be read and the calls so far allow its session; either names the link that allowed it |
| GateHistory.GateStoreIsHistory | native/src/local_auth.rs:408-421 | in every run the links file is that of the store calls the gate made, rate-limited and tokenless visits making none |
| GateHistory.VisitAnswer | native/src/local_auth.rs:408-428 | which of redirect, pass and rejection a visit gets, in both directions; a rate-limited one changes nothing |
| GateHistory.VisitRejection | native/src/local_auth.rs:408-421 | a rejected visit is told of the lockout and the seconds left before anything else, then of a store failure, else the store's own reason |
| GateHistory.NothingPresented | native/src/local_auth.rs:395-407 | a visit is not judged iff there is no store or it presents nothing, and then changes nothing |
| Gate.PasswordsAreAlone | native/src/local_auth.rs:408-471 | the password limiter and all password verdicts are those of replaying the password attempts alone |
| Gate.LinksIgnorePasswords | native/src/local_auth.rs:394-452 | store, link limiter and all other answers are those of the run without the password attempts |
| Gate.CookiesLeaveNoTrace | native/src/local_auth.rs:385-388 | dropping every cookie visit changes neither the state nor any other answer |
| Gate.LinkLimiterIsFailures | native/src/local_auth.rs:408-421 | the link limiter is the failed URL visits alone, and the refused comparisons are those it allowed |
| Gate.LinkGuessingIsBounded | native/src/local_auth.rs:408-421 | over every run with ordered visits at most 7 * (floor(T / 61) + 1) wrong link tokens are compared in the T seconds from the first |
| RateLimiting.FifthFailureLocks | native/src/local_auth.rs:240-273 | four failures within a window lock nobody out; the fifth refuses every attempt for exactly the next 30 s and reports the seconds left |
| RateLimiting.WindowCounts | native/src/local_auth.rs:255-273 | the limiter after up to five failures of one window, each of them compared |
| RateLimiting.SuccessForgives | native/src/local_auth.rs:257-261 | up to four failures, a success and up to four more lock nobody out, even within one minute |
| RateLimiting.RateLimiter.Record | native/src/local_auth.rs:255-273 | the new failure count, window and lock; the 32-bit counter wraps to 0, which locks nobody |
| RateLimiting.ChargedRun | native/src/local_auth.rs:255-273 | every window is charged at most 7 failures, and windows start at least 61 s apart |
| RateLimiting.GuessingIsBounded | native/src/local_auth.rs:204-273 | at most 7 * (floor(T / 61) + 1) comparisons between two successes, for sequential attempts |
| RateLimiting.SevenInOneWindow | native/src/local_auth.rs:240-273 | seven is reached, so the bound is tight |
| RateLimiting.BurstAtOneInstant | native/src/local_auth.rs:255-273 | a burst at one instant stops at five comparisons, unless the instant is 0 |
| RateLimiting.BoundHoldsIffClockIsSet | native/src/local_auth.rs:262-266 | the bound holds for every sequence of sequential attempts whose first failure is at t iff t is not 0 |
| AtomicReplace.FileSystem.ReplaceAtomically | native/src/secret_file.rs:78-105 | every disk it passes through, clean-up included, is one of seven named ones; it returns Ok, with the last of them, iff no system call failed, a leftover temp file notwithstanding |
| AtomicReplace.StepIsSafe | native/src/secret_file.rs:78-105 | at each of them a power loss leaves the old content or the new, whole; after Ok the new, whatever temp file was there before |
| AtomicReplace.LossIsSafe | native/src/secret_file.rs:113-127 | a power loss keeps what was safe, and what is read is an allowed content |
| AtomicReplace.NeverTorn | native/src/secret_file.rs:78-127 | over any number of replacements, errors and power losses the file holds the last completed content or one attempted since |
| OriginKeys.LoadExtraOriginKeys | native/src/capability.rs:168-186 | the loop yields exactly the 32-byte files of the listing, in its order |
| OriginKeyRuns.PlacesAreKeyFiles | native/src/capability.rs:173-181 | the places listed are exactly those of the key files, in increasing order |
| OriginKeyRuns.KeysInOrder | native/src/capability.rs:168-186 | the loaded keys are those at these places, in the same order |
| OriginKeyRuns.FirstBoot | native/src/capability.rs:118-155 | a boot that finds no identity makes one with the drawn key, its origin, the configured edge, and the forced routing token if there is one |
| OriginKeys.Machine.ResolvePrimaryIdentity | native/src/capability.rs:113-162 | reuses a readable pair, else mints one, and fails only if a system call or the capability's decoding does; every state on the way is one of three |
| OriginKeys.Machine.ResolveServingIdentity | native/src/capability.rs:74-87 | the capability, the primary key first, then the rotation keys |
| OriginKeys.Machine.RotateOriginKey | native/src/capability.rs:198-249 | every state on the way is one of four; Ok, with the old capability under the new origin, iff the pair could be rotated and no system call failed |
| OriginKeyRuns.SharedIdentity | native/src/capability.rs:113-162 | from nothing, over any boots and crashes: a capability on disk matches its key, and all boots that return Ok return one identity |
| OriginKeyRuns.IdentityStays | native/src/capability.rs:125-132 | an identity once on disk whole stays and is returned by every later boot |
| OriginKeyRuns.IdentityKeptIffReadable | native/src/capability.rs:125-135 | a whole identity survives a boot iff both files could be read |
| OriginKeyRuns.ServedIsLoaded | native/src/capability.rs:66-87 | a served capability's private key is among the keys a boot loads |
| OriginKeyRuns.RotationServesIff | native/src/capability.rs:198-249 | rotation keeps the capability served at every crash point iff the key file is the capability's, or its key is kept under another name |
| OriginKeyRuns.AlwaysServed | native/src/capability.rs:198-249 | from a matching pair, over any boots, crashes and safely started rotations, the capability stays served and keeps its routing token |
| OriginKeyRuns.InBetweenRotationLosesTheKey | native/src/capability.rs:214-220 | the run that shows the condition is needed |
| OriginKeyRuns.NamesAreHexPrefixes | native/src/capability.rs:251-253 | two retired files share a name iff their origins share the first four bytes |
| OriginKeyRuns.EarlierKeysKept | native/src/capability.rs:214-248 | after any number of completed rotations an earlier key is still filed iff no later retired key has its name |
| OriginKeyRuns.RotationsAreRotateAll | native/src/capability.rs:198-249 | any files that completed rotations lead through, one after the other, are those computed |
| OriginKeyRuns.EarlierKeysServed | native/src/capability.rs:164-249 | after any number of completed rotations, with distinct 4-byte prefixes, a boot serves the current key first and every earlier key after it |
| Renewal.CertDir.ObtainOrRenew | native/src/acme_orchestrate.rs:402-499 | nothing to do iff not due (and readable) or not allowed yet; allowed and issued, it renews iff no system call failed; every state on the way is one of three |
| Renewal.StartsIff | native/src/acme_orchestrate.rs:327-338 | a run that can read what it needs starts iff two thirds of the certificate's lifetime have passed, to the nanosecond, or 60 days of its file's where its validity does not parse |
| Renewal.DueFromTwoThirds | native/src/acme_orchestrate.rs:350-359 | due by validity iff 3 * age + 2 >= 2 * lifetime, so never later than the expiry; always for a window that makes no sense |
| Renewal.DueDays | native/src/acme_orchestrate.rs:350-359 | a 90-day certificate is due from day 60, a 45-day one from day 30 |
| Renewal.DueByAge | native/src/acme_orchestrate.rs:361-367 | due by age iff the file is 60 days old or its time lies ahead |
| Renewal.DueStaysDue | native/src/acme_orchestrate.rs:327-367 | a certificate once due stays due, unless its file time lies in the future |
| Renewal.FreshCertHasItsKey | native/src/acme_orchestrate.rs:327-488 | over any runs and crashes on a monotone clock, each run able to read what it needed, a certificate that is not due has its own key beside it |
| Renewal.FreshPairSurvivesIffInformed | native/src/acme_orchestrate.rs:327-337 | a fresh certificate and its key stay together at every crash point of a run iff the run could read the file and, where its validity does not parse, its time |
| Renewal.MixedStateStaysDueIff | native/src/acme_orchestrate.rs:327-367 | a certificate is due at every later time iff it is due now by its validity or by a file time not in the future |
| Renewal.CutOffIsRepairedIff | native/src/acme_orchestrate.rs:327-488 | a run cut off between its renames is renewed by every later run, whatever that run can read, iff its old certificate was due in that lasting way |
| Onboard.IdentityKeptIff | native/src/onboard.rs:259-271 | an onboarded agent's identity survives every crash point of a boot iff the boot can look the file up or its join token is spent |
| Onboard.Agent.Persist | native/src/onboard.rs:209-252 | every state on the way is one of four; Ok is the last of them |
| Onboard.Agent.OnboardOrRestore | native/src/onboard.rs:281-299 | restores without the control plane if it can, else redeems once and persists, and succeeds iff the token was unspent and nothing failed; every crash state is listed |
| Onboard.PersistThenRestore | native/src/onboard.rs:247-271 | what a finished persist left is restored, key and tenant, by its own agent id and by no other |
| Onboard.RestoredIsBound | native/src/onboard.rs:259-271 | from an empty directory, over any boots and crashes of one agent, a restored key and tenant are together the control plane's latest binding |
| Onboard.NeverRedeemsAgain | native/src/onboard.rs:274-299 | once the identity file is there and can be looked up, no later boot redeems, and all of them restore the same |
| Onboard.RestoresIffTenant | native/src/onboard.rs:259-271 | with an identity file there, every later boot restores iff the tenant file is there too, and fails otherwise |
| Onboard.CanFinishIff | native/src/onboard.rs:281-299 | some sequence of boots with a join token ends with an identity iff onboarding had finished, or nothing is on disk and the token is unspent |
| Onboard.SingleTokenFinishesIff | native/src/onboard.rs:281-299 | from an empty directory with one token: iff the tenant file is there or the token is unspent |
| Onboard.StuckAfterOneBoot | native/src/onboard.rs:247-250 | for every agent and token one boot from an empty directory can get stuck: cut off after the first or the second rename, or never told of its redeem |
| Onboard.OneBindingPerToken | native/src/onboard.rs:120-150 | over any boots with any join tokens, no token makes two bindings, and each binding has its token's tenant |
| Onboard.PersistNeverMixesIff | native/src/onboard.rs:247-270 | persisting over existing files never mixes two onboardings iff no tenant file is there, or it names the same tenant and no other agent's id is there |
| EventRing.Ring.AppendLocked | native/src/events.rs:480-497 | the line joins the history, and the two files stay those of the history |
| EventRing.Ring.RecentLines | native/src/events.rs:501-508 | if every line ever appended is one line, the result is the newest min(n, kept) of them in order |
| EventRing.LinesEncode | native/src/events.rs:510-515 | the bytes written line by line are read back as those lines |
| EventRing.EntryReadsBackIff | native/src/events.rs:493-515 | an entry reads back as itself iff it is non-empty, has no newline and does not end in a carriage return |
| EventRing.RingHoldsTheTail | native/src/events.rs:484-495 | after any history the two files are two neighbouring runs of it, the second up to its end |
| EventRing.RingIsASuffix | native/src/events.rs:484-495 | rotated bytes followed by current bytes are those of a suffix of the history |
| EventRing.RingBounds | native/src/events.rs:484-495 | with entries that fit, each file is at most the cap, and the total exceeds it from the first rotation on |
| EventRing.RecentIsTheNewest | native/src/events.rs:501-515 | `recent(n)` is the last min(n, kept) entries in order |
| Dns01.PendingServers | native/src/dns01_authoritative.rs:126-141 | the loop returns the absent addresses, and the unreachable ones of hosts that answered nowhere |
| Dns01.NothingPendingIffAllServe | native/src/dns01_authoritative.rs:119-141 | nothing is pending iff every nameserver name has an address serving the value and none answered without it |
| Dns01.AllSilentIffNoneAnswered | native/src/dns01_authoritative.rs:247-259 | all addresses are counted unreachable iff no probe was answered |
| Dns01.WaitForAll | native/src/dns01_authoritative.rs:237-282 | Ok and "unreachable" are facts about one single round, each in both directions; a timeout comes only after the deadline; the rounds are bounded |
| AcmeClient.AcmeClient.FreshNonce | native/src/acme_client.rs:236-242 | a nonce handed out was issued and never used, and is not kept |
| AcmeClient.AcmeClient.PostSigned | native/src/acme_client.rs:253-278 | at most two requests, the second only after badNonce; no nonce is ever used twice or made up |
| AcmeClient.AcmeClient.RegisterAccount | native/src/acme_client.rs:282-296 | no rule is broken and no order touched; Ok means the CA told of an account; a failure is never one a fresh order is tried for |
| AcmeClient.AcmeClient.CompleteChallenge | native/src/acme_client.rs:488-509 | called only when the challenge may be answered; valid, invalid for a retryable reason or invalid is returned iff the CA last said so; gives up only 120 s on, after at most 86 requests |
| AcmeClient.AcmeClient.ConfirmThenComplete | native/src/acme_client.rs:449-486 | a request is sent only after one probe round in which every nameserver served the published value and none answered without it, or one in which none answered and then the propagation check of that value, if any, passed; else the retryable error of the check that failed |
| AcmeWorld.World.WaitForAll | native/src/dns01_authoritative.rs:237-282 | the verdict the client acts on is true of the probes of one real round, both ways; a failed look-up is no verdict |
| AcmeClient.AcmeClient.ValidateAuthorization | native/src/acme_client.rs:408-432 | publishes the very value the CA's challenge asks for (anything else is a fault), clears it before returning, whatever happened; Ok means the CA called the authorization valid |
| AcmeClient.AcmeClient.PollOrder | native/src/acme_client.rs:511-528 | Ok carries the order's true status, and it is a settled one; gives up only 120 s on, after at most 84 requests |
| AcmeClient.AcmeClient.IssueOnce | native/src/acme_client.rs:361-393 | at most one order, finalized at most once and only after the CA called every one of its authorizations valid; Ok carries a certificate for the CSR whose key is returned |
| AcmeClient.AcmeClient.IssueCertificateWithAttempts | native/src/acme_client.rs:336-359 | the same over whole-order retries: at most max(1, attempts) orders, a further one exactly after each DNS-01 failure with attempts left, 30 s later; the fallback error is never returned |
| AcmeWorld.EvolveThenHandle | native/src/acme_client.rs:253-278 | a request retried after the CA moved on its own is one request from where the orders started |
| OidcRefresh.Login.ResolveOidcTokenClassified | native/src/login.rs:601-666 | which token is returned, when the IdP is asked and with what, what is stored, and which errors are transient |
| OidcRefresh.DecideIff | native/src/login.rs:336-353 | the stored access token answers while over 30 s of it are left, else the refresh token is shown while it can be used, else a new login is needed |
| OidcRefresh.CallAgain | native/src/login.rs:313-353 | after a refresh saved at t, a later call gets the new access token unasked iff over 30 s of its own lifetime are left, else asks with the new refresh token iff that one's lifetime lasts, or with the old one under its old expiry |
| OidcRefresh.RefreshTokenIsNeverDropped | native/src/login.rs:327-334 | a stored refresh token survives every refresh that does not replace it |
| OidcRefresh.RetiredTokenIsNeverShown | native/src/login.rs:601-666 | any number of callers in any interleaving never show a retired refresh token, while no answer that replaces it is lost |
| OidcRefresh.LossHarmsIff | native/src/login.rs:638-664 | from every sound state, after an answer is lost or cannot be saved, some run without a further loss shows a retired token iff that answer replaced the token |
| OidcRefresh.StepKeepsSound | native/src/login.rs:613-666 | each step keeps: one caller inside, working on what is stored, and the stored token live |
| OidcRefresh.UninterruptedCall | native/src/login.rs:617-665 | the steps of a call nobody interrupts end as the method says |
| OidcRefresh.WithoutTheMutex | native/src/login.rs:613-617 | without the mutex two callers suffice to show a retired token |
| OidcRefresh.AfterALostAnswer | native/src/login.rs:638-664 | a state in which that happens is reached from the start, with one caller |
| Reconnect.EqualJitter | native/src/reconnect.rs:14-19 | the jittered delay lies between half the delay and the delay for every sample |
| Reconnect.JitterSpans | native/src/reconnect.rs:12-19 | half the delay at sample 0, all of it at 1, never less for a greater sample |
| Reconnect.Backoff.NextDelay | native/src/reconnect.rs:43-55 | the k-th delay is min(base * 2^min(k, 31), max) as exact mathematics, also where the fixed-width product overflows |
| Reconnect.ReconnectPolicy.OnFailure | native/src/reconnect.rs:113-118 | one failure is one step of the exact policy |
| Reconnect.BudgetIsExact | native/src/reconnect.rs:111-124 | exactly `max_attempts` retries follow a success, then it gives up until the next |
| Reconnect.DelaysNeverDecrease | native/src/reconnect.rs:43-55 | delays never decrease |
| Reconnect.ElapsedBetween | native/src/reconnect.rs:57-68 | the time after n failures lies between half the sum of delays and the sum |
| Reconnect.TotalClosedForm | native/src/reconnect.rs:43-55 | that sum is a doubling up to the knee and constant after it |
| Reconnect.SoakBound | native/src/soak.rs:78-88 | at the production settings an outage takes between outage/30 s and twice that plus 8 attempts, however the samples fall |
| Codec.HexEncode | native/src/codec.rs:5-13 | the loop computes the hex string |
| Codec.HexDecode | native/src/codec.rs:19-30 | decodes exactly 2n digits, refuses everything else |
| Codec.UnhexAccepts | native/src/codec.rs:15-30 | decoding succeeds iff the length is even and every character is a hex digit |
| Codec.UnhexHex | native/src/codec.rs:5-30 | decoding inverts encoding |
| Codec.HexUnhex | native/src/codec.rs:5-30 | encoding inverts decoding up to the case of the digits |
| Codec.CtEqIsEquality | native/src/codec.rs:40-45 | the OR of all XORs is zero iff the sequences are equal |
| Credentials.CredentialRoundTrip | native/src/local_auth.rs:144-156 | the stored line parses back iff the username has no ':' and no leading white space |
| Credentials.ParseTtl | native/src/local_auth.rs:743-765 | a parsed duration is between 1 s and 30 days |
| Credentials.ParseUnit | native/src/local_auth.rs:743-765 | a number with unit s, m, h or d is that many seconds, minutes, hours or days, or the error that applies |
| Credentials.ParseBare | native/src/local_auth.rs:743-765 | a bare number is a number of seconds |
| Credentials.TtlRoundTrip | native/src/local_auth.rs:743-846 | every whole number of seconds from 1 s to 30 days is read back from how it is printed |

## Left out

Deliberate limits of modelled members:

- EqualJitter: the floating-point sample and product are exact reals rounded to the nearest nanosecond; the rounding of `mul_f64` itself is not modelled.
- ElapsedBetween: half a delay is a whole number of nanoseconds, so the lower bound is off by at most one nanosecond per delay, as in the code.
- Record: the three atomics are updated in one step; calls of `check` and `record` that interleave inside one another are not modelled, and the clock is one for which `now + 30` fits a `u64`.
- MintAt: labels are taken as already sanitised, and the drawn token and id as never seen before.
- SessionComesBack: the browser's side is the first piece of the Set-Cookie line, returned as one piece of a Cookie header.
- ResolvePrimaryIdentity: the branch without a key path, which mints a fresh identity on every boot, is not modelled.
- LoadExtraOriginKeys: the sorted directory listing is an input; an unreadable directory is an empty one.
- RotateOriginKey: a write is one step, so its temp file, which a later boot could load as one more copy of a key, is not seen; the paths are distinct.
- ObtainOrRenew: the admission broker and the certificate order are inputs; what `AcmeClient` proves about the order is not repeated.
- OnboardOrRestore: the control plane is taken to honour a join token once; its own code is not part of this model.
- AppendLocked: an append that fails or is torn appends nothing.
- WaitForAll: the zone and nameserver look-ups before the loop yield any servers or an error.
- ConfirmThenComplete: the propagation waiter answers yes or no.
- IssueCertificateWithAttempts: the key pairs of the attempts are drawn in advance; errors are an enumeration instead of message texts, and the challenge and authorization states the CA reports are arbitrary.
- RetiredTokenIsNeverShown: `ct-agent login` writing the store beside the mutex is not modelled.

Not modelled:

- Text outside one-byte characters: UTF-8 decoding, and lines that are not valid UTF-8.
- SHA-256, ed25519, Noise and certificate parsing: a digest is an injective constructor, a key carries its origin, a certificate its key and validity.
- A command-line process and the serving agent on the links file at once, and two agents booting on one key path at once: there is only an in-process mutex.
- Power loss across two directories: the pair theorems are about crashes of the process.
- `parse_basic_auth`, listings, announcements and `status`: one-branch code.
- Event counters, the line budget, the owner-key preamble and the rung list: easy members.
- External account binding and the directory policy: configuration checks before the protocol starts.
- `resolve_oidc_token_with_retry` and the device-code poll: bounded loops around modelled calls.
- File modes, symbolic links, umask and configuration parsing.
- QUIC, TLS, HTTP and the wire protocol: replies are arbitrary inputs, sleeps move a clock.
