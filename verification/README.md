# CrossWatch: verified models of its state machines and merges

CrossWatch keeps media libraries in step behind a small web application. This
project models the parts of that application whose behaviour depends on order:
sign-in and sessions, the login limiter, the log stream, the ANSI-to-HTML
translation, two caches and series, the configuration and policy merges, the
playlist edit plan, the device-code polling loop and the removal of page
sections. Each file is one component.

| file | component |
|---|---|
| `Numbers.dfy`, `Sequences.dfy`, `Text.dfy`, `JsonTree.dfy` | numbers, sequences, splitting and stripping of text, JSON trees |
| `Sessions.dfy` | the session list: pruning, the cap per account, the legacy slot, lookup |
| `SessionOrder.dfy` | the order pruning leaves and when a second pruning keeps it |
| `AuthStore.dfy` | accounts, recovery codes, SSO links and every mutator as a function on the configuration |
| `AuthConfig.dfy` | the same operations as methods that update the configuration in place |
| `LoginProtocol.dfy`, `AccountFrames.dfy`, `LoginRuns.dfy` | all interleavings of check-then-commit logins with administration: what a step keeps, what it leaves of the accounts, what every run keeps |
| `RecoveryCodes.dfy`, `SsoLinks.dfy` | conservation of recovery codes and injectivity of links over those runs |
| `Usernames.dfy` | what a login commit checks; names unique over every run |
| `LoginPhases.dfy` | the check and the commit of a login against each other, up to runs in which the login succeeds |
| `SessionEnds.dfy`, `Administration.dfy` | which steps end which sessions, for good; what changes of accounts, factors and links achieve |
| `FactorChecks.dfy` | against which account the second factor of an SSO login was checked |
| `Samples.dfy` | tokens and configurations that the example runs share |
| `RateLimit.dfy`, `LoginAttempts.dfy`, `ForwardedFor.dfy` | the login limiter, how many guesses it lets overlapping attempts make, and the client address it keys on |
| `LogRing.dfy` | the log buffer with sequence numbers and its stream readers |
| `AnsiHtml.dfy`, `AnsiMeaning.dfy` | SGR escapes (section 8.3.117 of ECMA-48) to spans, and back; what the escapes mean |
| `ShadowCache.dfy`, `CountSeries.dfy` | the shadow-state cache under concurrent calls; counts rebuilt backwards |
| `SecretMerge.dfy`, `SavedPlaces.dfy`, `Redaction.dfy`, `MaskedPlaces.dfy` | saving a configuration that was shown with its secrets blanked, place by place; which secrets the page masks and the save restores; the masked places one by one |
| `PolicyMerge.dfy`, `PolicyPlaces.dfy` | merging an imported policy; what it leaves place by place |
| `ItemKeys.dfy`, `KeyLaws.dfy` | the keys and ids of policy items; how a key reads off an item's fields |
| `PlaylistPlan.dfy` | planning a playlist edit |
| `DevicePoll.dfy`, `HtmlSection.dfy` | waiting for a device token; cutting a section out of a page |

Code that changes a configuration, a table or a buffer in place is a class or a
method with a loop, proved equal to a function on values; the laws are lemmas
about those functions and about runs of them. `dafny verify dfyconfig.toml`
checks everything.

## Assumptions

- A mutator runs alone on the latest configuration under the configuration
  lock and on a private copy: when it raises, nothing is saved.
- A session token is fresh and hashing is injective, so a token is written as
  the hash of it. `Option` stands for a blank token.
- The clock is an argument of each step. Only `LoginWorks` needs it not to run
  backwards, and `RateLimit`, `LoginAttempts` and `DevicePoll` where they say
  so.
- Asking the login limiter and recording a failure are one step each. Between
  the two of one attempt anything may happen.
- Password, one-time-code and case-folding functions are fields of `Env`, left
  open. `PolicyMerge` leaves the canonical key of an item and the merge of two
  id sets open too; `ItemKeys` models both, down to the normal form of one id,
  the ids in a guid and how values read as text (`Reading`).
- `Redaction` leaves stripping and lower case open, except that the names the
  code uses are already stripped and lowered (`Sane`).
- An SSO identity is a stable subject and matches a link that holds it.
- Stored hashes, names and ids are already stripped and normalised, and
  managed accounts have the role of a user. Authentication is switched on.
- One append to the log, one outside reset and one pass of a stream reader are
  atomic. The code takes no lock there and a pass gives way between two lines.
- In `ShadowCache` the four steps of a call (stat, look up, read, store) may
  interleave with anything and may fail; the signature of a path (time and
  size) never comes back with other content.
- Runs of the login protocol may start on any stored configuration whose
  sessions belong to enabled accounts, one account to a token (`StartedInv`).
- Times in `DevicePoll` are real numbers; every sleep may last longer than
  asked and every request may take any time.

## Findings

- Pruning twice at one moment keeps the same sessions (`PruneTwiceSame`), for
  each account in the same order. The order between accounts stays exactly
  when accounts with a kept session at the same time come in the same order by
  their first live session as by their first kept one (`PruneTwiceInOrder`),
  so always below the cap (`PruneSettles`). Above it the legacy slot can pass
  from one account to another (`PruneTwiceCanDiffer`).
- A new session survives its own cap exactly when fewer than ten live sessions
  of its account sort after it. An entry without creation time sorts by its
  expiry, so ten of those push it out and the token just issued opens nothing
  (`AddSurvives`, `UndatedPushOut`, `UndatedLoginFails`).
- The login limiter is asked before the password is hashed and told afterwards,
  so attempts that overlap are all let through: eight at once fail eight times
  at once (`EightAtOnce`), two at a time eight times in 360 seconds
  (`PairsAreQuicker`). Without a success in between, a client's N failures take
  498 N - 3600 seconds or more in every run exactly when its attempts never overlap
  (`SlowUnlessOverlapping`), and with at most c in flight 498 N / c - 3600
  seconds or more (`OverlapBound`).
- A password login that checked a recovery code is let in without spending one
  when the account drops its second factor before the commit; that is the one
  way sign-ins by code outnumber spent codes (`CodesConserved`), and it happens
  (`CodeNotSpent`).
- A link also stops resolving when another identity is linked to its account
  (`StepKeepsLink`, `RelinkEnds`, `RelinkHappens`).
- An SSO commit does not look at two-factor again. Its session had the second
  factor of its account checked exactly when the check saw that very account
  and, outside the OIDC second factor, saw its factor on (`FactorOfCommit`);
  that is so when nothing in between ends the link or changes the factor
  (`CheckedWhenUndisturbed`). Otherwise the factor may have been turned on
  after the check (`FactorTurnedOn`), or the identity moved, so that a code
  checked against one account signs in another (`IdentityMoved`).
- Text put before `X-Forwarded-For` without a comma melts into the leftmost
  hop and can change the chosen address when only that hop decides
  (`PrependedText`, `LeftmostHopCanChange`).
- ECMA-48 reads an empty parameter as 0, a reset; here an escape without
  parameters changes nothing (`EmptyEscape`).
- Items a posted list has beyond the stored one are saved as posted, masks
  included (`NewItemsAsPosted`).
- The configuration page masks values the save does not hold sensitive: the
  state of a pending device sign-in (`_pending_pin`, `_pending_device`,
  `_pending_tv_login`, `_pending_tv_caller`) and webhook ids under unknown
  keys. Posting the page back stores the mask there, and restores everything
  exactly when there is no such value (`ConfigRoundTrip`,
  `PendingSignInLost`).
- The exception the save makes for `token_url` and `token_endpoint` excepts
  nothing: neither ends in `_token` (`SensitiveKeys`).
- A login checked while no second factor was on and committed after one was
  turned on gets in exactly when the factor takes the empty code, whatever code
  was typed (`FactorOnMeanwhile`).
- Stored items are filed under their canonical keys before an import is merged,
  so of entries that share a key the first with a field filled decides it and
  the others lose theirs, even to an empty import (`StoredItemsWin`). All items
  without ids and title share one key (`NamelessItemsCollapse`).
- Importing a policy twice can differ from importing it once when merging
  moves an item to another key (`MovedKeySplits`), as the season and the number
  of an episode do that come from two halves (`EpisodeHalvesSplit`); and when
  an id whose digits are a zero is merged, which is kept once and dropped the
  next time (`IdsTwice`, `ZeroIdDoesNotSettle`). It cannot for movies and
  shows keyed by ids in normal form and for seasons and episodes that name
  their show and place, in a history list unless they are single viewings
  (`SteadyTwice`).
- A failed reading of a shadow file is stored under the signature seen before,
  so a later call can be answered "no document" without another try, though the
  file was there all along (`FailureIsAnsweredAgain`). Every other answer is a
  content the file held during the call (`AnswersAreFair`).
- The log list of a sync is replaced when the next sync starts. Of a reader's
  lines only those it had not reached by then can be missing, besides trimmed,
  hidden and cut ones (`StreamIsComplete`).
- A provider that takes one item per removed key away leaves the others of a
  key that was in the playlist more than once (`SingleRemovals`).
- After errors the device poll waits at most a minute, less than an interval
  that `slow_down` replies raised above a minute (`ShortSleep`,
  `SlowDownForgotten`); section 3.5 of RFC 8628 has no such ceiling.
- The removed page section is balanced exactly when the first tag from the
  marker on is an opening one (`SliceBalanced`, `StrayClose`).

## Model

| member | source | states |
|---|---|---|
| AuthConfig.PruneSessions | api/appAuthAPI.py:782-799 | the loops that fill the list and the buckets compute `Prune` |
| Sessions.PruneOf | api/appAuthAPI.py:782-799 | of each account, pruning keeps exactly the last ten of its live sessions in stable key order |
| Sessions.PruneMember | api/appAuthAPI.py:782-799 | a session is kept if and only if it is among the newest ten of its account, and only live ones are |
| Sessions.PruneCaps | api/appAuthAPI.py:782-799 | no account holds more than ten sessions after pruning |
| Sessions.PruneKeepsLive | api/appAuthAPI.py:782-799 | an account with at most ten live sessions loses none of them |
| Sessions.PruneTwice | api/appAuthAPI.py:782-799 | pruning again at the same time keeps the same sessions of each account in the same order |
| SessionOrder.PruneTwiceSame | api/appAuthAPI.py:782-799 | pruning again at the same time keeps exactly the same sessions |
| SessionOrder.PruneTwiceInOrder | api/appAuthAPI.py:790-798 | it keeps their order if and only if accounts with a kept session at the same time come in the same order by first live as by first kept session |
| SessionOrder.PruneSettles | api/appAuthAPI.py:790-798 | with at most ten live sessions per account pruning again changes nothing, order included |
| SessionOrder.PruneTwiceCanDiffer | api/appAuthAPI.py:790-813 | above the cap pruning again, with all tokens distinct, can change the last session from one account's to another's, and the legacy slot with it |
| SessionOrder.CappedOwners | api/appAuthAPI.py:791-798 | below the cap the sorted buckets name their accounts in the order in which the buckets were filled |
| Sessions.PruneLater | api/appAuthAPI.py:782-799 | for t1 <= t2, pruning at t1 and then t2 leaves, per account, an end of what pruning at t2 leaves |
| Sessions.SortFilter | api/appAuthAPI.py:790-798 | the stable sort commutes with selecting one account's sessions |
| Sessions.AddSparesOthers | api/appAuthAPI.py:1001-1020 | issuing for one account evicts no session of another that a plain pruning would keep |
| Sessions.AddSurvives | api/appAuthAPI.py:1001-1020 | the new session survives the cap if and only if fewer than ten live ones of its account sort after it |
| SessionOrder.UndatedPushOut | api/appAuthAPI.py:790-798 | ten live sessions of the account without creation time push the new one out |
| SessionOrder.UndatedLoginFails | api/appAuthAPI.py:993-1024 | such a login exists, with ten stored sessions of distinct tokens: the fresh token it issues opens nothing |
| Sessions.IssuedIsFound | api/appAuthAPI.py:993-1024 | a token just issued after all stored sessions is looked up as exactly the entry issued |
| Sessions.MirrorHidesSlot | api/appAuthAPI.py:772-779 | with a mirrored slot the sessions readers see are the list |
| Sessions.MirrorStep | api/appAuthAPI.py:1027-1086 | issue, drop and the four clearing operations keep the slot empty or mirrored |
| Sessions.MirrorRun | api/appAuthAPI.py:757-812 | after any sequence of these operations readers see the list and nothing more |
| Sessions.ApplyFrom | api/appAuthAPI.py:993-1086 | every operation keeps only sessions that were there, or adds the one it issues with its owner and time |
| Sessions.FindFrom | api/appAuthAPI.py:877-892 | a lookup gives a live session of exactly that token, and fails only when there is none |
| Sessions.ClearUserClears | api/appAuthAPI.py:1059-1068 | clearing a managed account leaves it no session |
| Sessions.ClearSparesOthers | api/appAuthAPI.py:1059-1086 | clearing one account, with or without a token kept, leaves the other accounts what a plain pruning leaves them |
| Sessions.RememberDays | api/appAuthAPI.py:268-277 | the session lifetime stays between 1 and 365 days whatever is stored |
| SessionEnds.DaysInForce | api/appAuthAPI.py:268-277 | one to 365 days count as stored, none as 30, less as one, more as 365 |
| SessionEnds.IssuedLasts | api/appAuthAPI.py:993-1024 | a token issued now opens its account exactly until its days are over |
| SessionEnds.LegacySlotOpens | api/appAuthAPI.py:757-779 | a legacy slot that is not in the list opens the administrator until it expires, and changes no other lookup |
| SessionEnds.LegacySlotMigrates | api/appAuthAPI.py:782-813 | the next change of the list takes the slot's session in, if a pruning keeps it |
| SessionEnds.DropEnds | api/appAuthAPI.py:1027-1038 | after a logout its token opens nothing at any time, and exactly the sessions with other tokens that a pruning keeps are left, share by share in the pruning's order |
| SessionEnds.ClearOthersEnds | api/appAuthAPI.py:1049-1056 | exactly the caller's session stays and still opens; none when the caller's token opens nothing |
| SessionEnds.ClearUserEnds | api/appAuthAPI.py:1059-1068 | clearing an account ends its sessions and those alone, but for the administrator's without user id; a blank id clears nothing |
| SessionEnds.ClearExceptEnds | api/appAuthAPI.py:1071-1086 | clearing an account but for one token ends its other sessions and those alone; a blank id clears nothing |
| SessionEnds.OtherFields | api/appAuthAPI.py:993-1086 | only issuing dates the last login, and nothing changes the stored lifetime |
| Administration.TokenHashes | api/appAuthAPI.py:224-231 | a token hash is 64 hexadecimal digits, capitals included |
| Administration.LiveSessions | api/appAuthAPI.py:782-789 | a session counts while its hash is well formed, its time not over and its owner not blank |
| Administration.CurrentUserIs | api/appAuthAPI.py:628-647 | a token opens exactly the account of the first live session with it, the administrator's or an enabled one |
| AuthConfig.FindSession | api/appAuthAPI.py:877-892 | the scan that stops at the first hit computes `Find` |
| AuthConfig.KeptSessions | api/appAuthAPI.py:1079-1084 | the loop keeps exactly the sessions of others and the one of the given token, in order |
| AuthConfig.AppAuth.SyncLegacySession | api/appAuthAPI.py:802-813 | the slot becomes the mirror of the last session, or empty |
| AuthConfig.AppAuth.IssueSession | api/appAuthAPI.py:993-1024 | the whole configuration after issuing: list, slot and last login, nothing else |
| AuthConfig.AppAuth.DropSession | api/appAuthAPI.py:1027-1038 | the whole configuration after a logout; a blank token changes nothing |
| AuthConfig.AppAuth.ClearSessions | api/appAuthAPI.py:1041-1046 | the whole configuration after clearing all sessions |
| AuthConfig.AppAuth.ClearOtherSessions | api/appAuthAPI.py:1049-1056 | only the caller's session stays, none if there is none |
| AuthConfig.AppAuth.ClearUserSessions | api/appAuthAPI.py:1059-1068 | the whole configuration after clearing one account |
| AuthConfig.AppAuth.ClearUserSessionsExcept | api/appAuthAPI.py:1071-1086 | the whole configuration after clearing one account but for one token |
| AuthConfig.AppAuth.ConsumeRecoveryCode | api/appAuthAPI.py:558-581 | the pass over the rows removes the first row the code opens and no other; without a match nothing changes |
| AuthStore.ConsumeOne | api/appAuthAPI.py:558-581 | spending a code removes exactly one stored row, one that the code opens |
| AuthStore.FirstRow | api/appAuthAPI.py:573-578 | the index of the first row either spelling of the code opens |
| AuthStore.FirstLogin | api/appAuthAPI.py:545-555 | the account found is enabled and matches; none is found only if none does |
| AuthStore.FirstSso | api/authOidcAPI.py:146-153 | the account found is enabled and linked; none is found only if none is |
| AuthConfig.AppAuth.FindLogin | api/appAuthAPI.py:540-555 | the scan computes the account for a name and password, the administrator first |
| AuthConfig.AppAuth.ResolveUser | api/authOidcAPI.py:142-153 | the scan computes the account for an identity; `_resolve_plex_user` is the same |
| AuthConfig.AppAuth.UsernameTaken | api/appAuthAPI.py:525-537 | a name is taken if and only if another account's folds to the same |
| AuthConfig.AppAuth.MutateLogin | api/appAuthAPI.py:1695-1711 | the commit of a password login: found again, second factor checked again, session issued, or an error |
| AuthConfig.AppAuth.MutateOidc2fa | api/authOidcAPI.py:444-451 | the commit of an OIDC second factor: resolved again, a recovery code spent if one was used, session issued, or an error |
| AuthConfig.AppAuth.MutateUpdate | api/appAuthAPI.py:1904-1932 | field-by-field update with its late errors equals the update of the whole record |
| AuthConfig.AppAuth.MutateDelete | api/appAuthAPI.py:1966-1975 | the account, its place in the order and its sessions go together |
| AuthConfig.ConfigFile.Login | cw_platform/config_base.py:2803-2813 | a raised error leaves the saved configuration as it was, else exactly the commit is saved |
| AuthConfig.ConfigFile.Oidc2fa | cw_platform/config_base.py:2803-2813 | a raised error of the OIDC second factor saves nothing, else exactly the commit is saved |
| AuthConfig.ConfigFile.Update | cw_platform/config_base.py:2803-2813 | an update that fails after it changed some fields saves nothing |
| LoginProtocol.CommitSignsIn | api/appAuthAPI.py:1695-1711 | a commit that succeeds signs in an existing, enabled account of the latest configuration and touches nothing but codes and sessions |
| LoginProtocol.UpdateFacts | api/appAuthAPI.py:1904-1932 | an accepted update adds no session, and after disabling or a new password none of the account is left |
| LoginProtocol.DeleteFacts | api/appAuthAPI.py:1966-1975 | after deletion neither the account nor a session of it is left |
| LoginProtocol.CredentialsFacts | api/appAuthAPI.py:2061-2086 | new administrator credentials leave no session but the one issued to the caller |
| LoginProtocol.TotpFacts | api/appAuthAPI.py:2160-2176 | turning two-factor on adds no session and changes no account's existence or enabling |
| LoginProtocol.StepKeeps | api/appAuthAPI.py:1904-1932 | each of the fourteen steps keeps: every session belongs to an enabled account, was issued to it, and after its barrier |
| LoginRuns.StartedInv | api/appAuthAPI.py:619-647 | a server that starts on a stored configuration of enabled owners, one account to a token, meets the session invariant |
| LoginRuns.RunKeeps | api/appAuthAPI.py:1695-1715 | the same holds in every state of every run |
| LoginRuns.SessionsAreCurrent | api/appAuthAPI.py:1695-1715 | in every interleaving, from any state with the session invariant, each session a reader sees belongs to an existing, enabled account and was committed no earlier than its last administrative password change, disabling or deletion |
| LoginRuns.TokensKeepTheirOwner | api/appAuthAPI.py:619-647 | a token never opens another account than the one it was issued to |
| LoginRuns.LoginWorks | api/appAuthAPI.py:993-1024 | with a forward clock, and stored sessions dated before, a successful commit leaves a token that opens its account at once |
| SessionEnds.DeadStaysDead | api/appAuthAPI.py:877-892 | in every run a token that was issued and has no session left opens nothing ever after |
| SessionEnds.EndedForGood | api/appAuthAPI.py:1027-1086 | a session that a logout, a two-factor change, a new password, a disabling or a deletion ends opens nothing in any later state |
| SessionEnds.StepSpares | api/appAuthAPI.py:1027-1086 | a live session within its cap goes with a step if and only if the step ends it, sign-ins of its own account apart |
| SessionEnds.BarrierStep | api/appAuthAPI.py:1904-1975 | exactly these changes of an account set its barrier |
| Administration.CreateWorks | api/appAuthAPI.py:1847-1864 | an account with a known profile is created if and only if its name and id are free, without factor, codes and links, and signs in with its name and password if enabled |
| Administration.UpdateWorks | api/appAuthAPI.py:1904-1932 | an update is accepted if and only if the account is managed, a new name free and the profile known, and changes the fields it names alone |
| Administration.CredentialsWork | api/appAuthAPI.py:2061-2086 | new credentials are accepted if and only if the name is free, and find the administrator with the new password alone |
| Administration.TotpWorks | api/appAuthAPI.py:2205-2217 | a factor is stored if and only if its account is there and enabled, and nothing else of the account changes |
| Administration.LinkWorks | api/authOidcAPI.py:525-534 | an identity is linked if and only if nobody else has it and the caller may: the administrator for anyone enabled, a managed user for himself |
| Administration.UnlinkWorks | api/authOidcAPI.py:560-567 | a link is removed by the same rule, and that link alone |
| LoginPhases.PasswordPhases | api/appAuthAPI.py:1650-1711 | a check lets on if and only if an account is found whose factor accepts the code; what it hands on signs that account in, spends a row exactly when needed and lengthens the lifetime exactly when asked |
| LoginPhases.FactorOnMeanwhile | api/appAuthAPI.py:1684-1696 | a login checked without factor gets past one turned on since if and only if the factor takes the empty code |
| LoginPhases.TypedCode | api/appAuthAPI.py:565 | a recovery code counts character by character, small letters as capitals, all but letters and digits not at all |
| LoginPhases.SsoPhases | api/authOidcAPI.py:360-375 | an SSO check lets on if and only if the identity resolves and no factor is on, or a Plex login brings a right code; its commit signs in whom the identity then resolves to |
| LoginPhases.Oidc2faPhases | api/authOidcAPI.py:429-451 | the OIDC second factor lets on if and only if the code is a right one-time code or a stored row, which the commit spends |
| LoginPhases.PasswordLoginSucceeds | api/appAuthAPI.py:1629-1711 | in every run a right login opens its account at the commit, if name, password, enabling, factor and rows are as at the check and a one-time code is still right |
| LoginPhases.PasswordLoginRefused | api/appAuthAPI.py:1652-1690 | a login that matches no account, or whose code the factor refuses, changes nothing |
| LoginPhases.SsoLoginSucceeds | api/authOidcAPI.py:360-375 | in every run an SSO login opens its account at the commit, if the identity is linked to it then |
| LoginPhases.Oidc2faLoginSucceeds | api/authOidcAPI.py:429-451 | so does one through the OIDC second factor, spending the row exactly when needed |
| Usernames.FoundMatches | api/appAuthAPI.py:540-555 | the account found is enabled and matches name and password; none is found if and only if none does |
| Usernames.CommitRechecks | api/appAuthAPI.py:1695-1711 | a password login is let in if and only if the account found in the latest configuration still matches and its second factor accepts the code |
| Usernames.SsoRechecks | api/authPlexAPI.py:114-119 | an SSO login is let in if and only if an enabled account of the latest configuration carries the identity |
| Usernames.StepNames | api/appAuthAPI.py:525-537 | every step keeps names unique, but for case |
| Usernames.RunNames | api/appAuthAPI.py:525-537 | so does every run |
| Usernames.LoginIsUnambiguous | api/appAuthAPI.py:540-555 | in every run a name and password find an account if and only if they match it |
| RecoveryCodes.CommitRows | api/authOidcAPI.py:444-451 | a commit takes from its account exactly the row the code opens, when it was asked for one, and none from others |
| RecoveryCodes.StepConserves | api/appAuthAPI.py:1678-1711 | a step takes at most one stored row of an account, and exactly when it signs in by code with the factor still on |
| RecoveryCodes.CodesConserved | api/appAuthAPI.py:558-581 | in every run rows left and rows spent are the rows at the start; sign-ins by code plus rows left equal the start plus the sign-ins whose factor was dropped |
| RecoveryCodes.CodesPayOnce | api/authOidcAPI.py:434-451 | while two-factor stays on, sign-ins by code plus codes left equal the codes at the start |
| RecoveryCodes.CodeNotSpent | api/appAuthAPI.py:1701-1703 | a run of check, two-factor off by the signed-in administrator and commit signs in by a code that stays stored |
| SsoLinks.LinkInjective | api/authOidcAPI.py:525-534 | linking keeps every identity on at most one account, disabled ones included |
| SsoLinks.StepInjective | api/authPlexAPI.py:412-421 | so does every other step |
| SsoLinks.RunInjective | api/authOidcAPI.py:156-167 | so does every run |
| SsoLinks.ResolveIsLink | api/authOidcAPI.py:142-153 | an identity resolves to an account if and only if that account is enabled and linked to it |
| SsoLinks.LinkTakesHold | api/authOidcAPI.py:525-534 | after linking, the identity signs in to the target |
| SsoLinks.StepKeepsLink | api/authPlexAPI.py:204-223 | a step ends a link's effect if and only if it unlinks, relinks, disables or deletes that account |
| SsoLinks.LinkHolds | api/authPlexAPI.py:176-187 | until such a step the identity resolves to its account, over all runs |
| SsoLinks.RelinkEnds | api/authOidcAPI.py:525-534 | after another identity is linked to the account, the first one signs in to nothing |
| SsoLinks.RelinkHappens | api/authPlexAPI.py:412-421 | such a link exists, made by a signed-in administrator |
| FactorChecks.CheckBehind | api/authPlexAPI.py:322-344 | in every run a pending login comes from a check by its client that nothing has replaced |
| FactorChecks.FactorOfCommit | api/authPlexAPI.py:113-119 | the second factor of the account an SSO commit signs in was checked if and only if the check saw that account and, outside the OIDC second factor, saw its factor on |
| FactorChecks.CheckedWhenUndisturbed | api/authOidcAPI.py:360-375 | if no step in between ends the link or changes the factor, the commit signs in the account checked, and its factor, if on, was checked |
| FactorChecks.StepTotp | api/appAuthAPI.py:2160-2176 | only a two-factor change of the account itself changes its factor |
| FactorChecks.FactorTurnedOn | api/authOidcAPI.py:366-375 | a run in which the signed-in administrator turns two-factor on between check and commit issues a session without it |
| FactorChecks.IdentityMoved | api/authPlexAPI.py:113-119 | a run in which the identity moves between check and commit signs in an account whose factor was never checked |
| RateLimit.LoginFails.RateLimitOk | api/appAuthAPI.py:933-939 | the answer and the waiting time, from the table alone |
| RateLimit.LoginFails.PruneLoginFails | api/appAuthAPI.py:952-955 | exactly the expired records go |
| RateLimit.LoginFails.RateLimitFail | api/appAuthAPI.py:958-966 | the whole table after a failure, pruning included, and the answer |
| RateLimit.LoginFails.RateLimitReset | api/appAuthAPI.py:977-979 | only this client's record goes |
| RateLimit.ShutOut | api/appAuthAPI.py:942-966 | after n failures within the hour a client is shut out for no time, a minute, five or ten minutes |
| RateLimit.ToldWhenOver | api/appAuthAPI.py:933-939 | a client that asks passes exactly when its lockout is over, and is else told how long it lasts |
| RateLimit.ToldByOwnFailures | api/appAuthAPI.py:933-979 | in every ordered run what a client is told follows from its own failures since its last success alone: how many in a row, how long to wait |
| LoginAttempts.ClearForgives | api/appAuthAPI.py:977-979 | after a success the client passes at any time and its next failure counts as the first |
| LoginAttempts.SlackBound | api/appAuthAPI.py:942-949 | 498 n less the quickest time of n failures is at most 3600, and 3600 only for ten |
| LoginAttempts.StepPays | api/appAuthAPI.py:1639-1682 | the leaders, failures whose attempt began after the previous leader was recorded, pay for the lockouts, through pruning and whatever other attempts record in between |
| LoginAttempts.OverlapBound | api/appAuthAPI.py:1639-1717 | with at most c attempts of a client in flight and no success, N failures over D seconds satisfy 498 N <= c (D + 3600) in every run |
| LoginAttempts.LockoutBound | api/appAuthAPI.py:933-966 | one attempt at a time, 498 N <= D + 3600, with equality only at N = 10 and D = 1380 |
| LoginAttempts.SlowUnlessOverlapping | api/appAuthAPI.py:1639-1717 | every run satisfies 498 N <= D + 3600 if and only if at most one attempt of the client is in flight |
| LoginAttempts.RoundsHappen | api/appAuthAPI.py:1639-1682 | k rounds of c attempts at once, each as early as the lockout allows, are a run and record c k failures |
| LoginAttempts.EightAtOnce | api/appAuthAPI.py:1639-1654 | eight attempts at once all pass the check and fail in the same second |
| LoginAttempts.PairsAreQuicker | api/appAuthAPI.py:1639-1654 | two attempts at a time fail eight times in 360 seconds |
| LoginAttempts.BoundIsMet | api/appAuthAPI.py:942-949 | one attempt at a time, a run of ten failures in 1380 seconds is allowed |
| RateLimit.ClientsAreIndependent | api/appAuthAPI.py:952-966 | what a client is told over a run is what it would be told if the others' events were left out |
| ForwardedFor.EffectiveClientIp | api/appAuthAPI.py:174-193 | the walk from the right computes the verdict of the rightmost deciding hop, although the header is stripped first |
| ForwardedFor.AnswerIsHop | api/appAuthAPI.py:175-193 | an address other than the peer is the answer if and only if the peer is trusted and it is the rightmost hop that is neither blank nor trusted |
| ForwardedFor.HeaderIgnored | api/appAuthAPI.py:175-177 | all headers give the same answer if and only if the peer is untrusted, and then it is the peer |
| ForwardedFor.PrependedEntries | api/appAuthAPI.py:183-193 | list entries put in front never change the address if and only if the rest has an untrusted or unparsable hop |
| ForwardedFor.PrependedText | api/appAuthAPI.py:183-193 | arbitrary text put in front never changes it if and only if a hop after the leftmost decides, when the leftmost can be lengthened to another untrusted address |
| ForwardedFor.LeftmostHopCanChange | api/appAuthAPI.py:183-193 | behind a trusted proxy, "1" put in front of the only hop 1.2.3.4 makes it 11.2.3.4 |
| ForwardedFor.OctetIs | api/appAuthAPI.py:188-191 | in that witness a part of an address is one of 0 to 255 as it is written |
| LogRing.LogBuffer.GetLogBuf | crosswatch.py:694-703 | an emptied list is realigned to the next number, any other left alone |
| LogRing.LogBuffer.AppendLine | crosswatch.py:799-809 | the whole ring after an append and its trimming |
| LogRing.LogBuffer.StreamPass | crosswatch.py:1094-1119 | the loop over the buffer sends what `Poll` says and leaves the cursor there |
| LogRing.AppendOk | crosswatch.py:799-809 | base plus length stays the next number, at most 3000 lines are held, and they are the last ones ever appended |
| LogRing.HistoryGrows | crosswatch.py:799-809 | over any happenings the history a reader is held against grows by exactly the lines appended |
| LogRing.StreamIsFaithful | crosswatch.py:1070-1119 | through any appends, resets and passes, each id sent is that of its line in the tag's whole history and ids strictly increase |
| LogRing.TailSendsLast | crosswatch.py:1078-1090 | a stream opened with a tail sends the last lines held with their numbers, a hidden one none, and goes on after the newest |
| LogRing.EveryListBegan | api/syncAPI.py:537 | every list began at some number and holds the lines since, but for trimming; one just reset begins at the next number |
| LogRing.StreamIsComplete | crosswatch.py:1070-1119 | through any resets every id after `since` is sent, or was trimmed, thrown away by a reset, hidden or cut by the backlog limit |
| LogRing.NothingMissed | crosswatch.py:1070-1119 | a visible, unlimited reader never more than 3000 lines behind, and up to date when a list is reset, gets every line |
| LogRing.OnlyLaterLines | crosswatch.py:1076-1077 | nothing up to `since` is ever sent, even when `since` is ahead of the tag |
| AnsiHtml.AnsiToHtml | crosswatch.py:751-797 | the loop over escapes with style, flag and position writes exactly `Html` |
| AnsiHtml.EscapeHtmlIsEscapeAll | crosswatch.py:680-681 | three replacements in a row escape character by character, ampersands only once |
| AnsiHtml.StyledChars | crosswatch.py:683-684 | the characters of the styled reading are those of `strip_ansi` |
| AnsiHtml.HtmlMeans | crosswatch.py:764-797 | from any style, the strict reader of the HTML gives the styled reading of the rest of the line |
| AnsiHtml.AnsiToHtmlMeans | crosswatch.py:751-797 | the HTML has balanced, never nested spans and reads back as the line's characters, each in the style its escapes add up to |
| AnsiMeaning.LastWriterWins | crosswatch.py:771-780 | after a list of codes each attribute is what the last code that concerns it says, else as before |
| AnsiMeaning.HtmlMeansLine | crosswatch.py:751-797 | the HTML reads back as the line's characters, each in the style of the last codes before it |
| AnsiMeaning.EscapeShape | crosswatch.py:675 | a text starts with an escape of given parameters if and only if it starts with ESC, bracket, digits or semicolons, and m |
| AnsiMeaning.CodesOf | crosswatch.py:768 | the codes are the pieces between semicolons that are not empty |
| AnsiMeaning.ClassNames | crosswatch.py:756-762 | the class names of a style are b, u, c with the foreground code and bg with the background code |
| AnsiHtml.ReadBack | crosswatch.py:756-762 | the class list of a style names exactly that style |
| AnsiHtml.EmptyEscape | crosswatch.py:768-769 | an escape without codes writes nothing and changes no style |
| AnsiHtml.NoParamsNoCodes | crosswatch.py:768-769 | a parameter list has no codes if and only if it is empty or separators only |
| ShadowCache.Shadow.Lookup | api/insightAPI.py:42-45 | a hit needs the same signature |
| ShadowCache.Shadow.Store | api/insightAPI.py:54-57 | the table after storing, emptied first when full |
| ShadowCache.HitIsRecent | api/insightAPI.py:42-45 | an entry found under the signature a call saw reads a version no older than that call, or a reading under that signature failed |
| ShadowCache.StepKeeps | api/insightAPI.py:34-58 | stat, look-up, read and store, failing stats and readings, and file writes keep this and the limit of 64 entries |
| ShadowCache.AnswersAreFair | api/insightAPI.py:34-58 | under every interleaving a call returns the parse of content the file held during the call, or none after a stat, or a reading under the signature it saw, failed |
| ShadowCache.CacheIsLinearizable | api/insightAPI.py:34-58 | when nothing fails, always the parse of content the file held during the call |
| ShadowCache.FailureIsAnsweredAgain | api/insightAPI.py:47-58 | after one failed reading another call answers none, though the file was there all along and is never read again |
| ShadowCache.QuietCallsReadPlainly | api/insightAPI.py:34-58 | when nothing fails, a call during which the file is not written returns what a plain read would |
| ShadowCache.EntryStays | api/insightAPI.py:54-57 | an entry stays, in every run, while the cache has room for what is stored after it |
| ShadowCache.SecondCallIsSpared | api/insightAPI.py:42-45 | a later call that sees the signature of a stored entry answers with it without reading |
| CountSeries.BackwardSeries | api/insightAPI.py:2137-2144 | the loop and the final reversal give the clamped counts on the grid |
| CountSeries.ClosedForm | api/insightAPI.py:2140-2143 | each count is max(V - D(i,n), max over i <= j < n of -D(i,j)) |
| CountSeries.ClampedIsConsistent | api/insightAPI.py:2140-2143 | the series is never negative, ends at or above V and never rises by more than the deltas |
| CountSeries.ClampedIsLeast | api/insightAPI.py:2140-2143 | it is below every other such series, point by point |
| CountSeries.ExactWhenNonNegative | api/insightAPI.py:2137-2144 | it equals the true counts if and only if these are never negative |
| CountSeries.SeriesIsExact | api/insightAPI.py:2138-2143 | in additions and removals: counts that fit them are rebuilt if and only if none of them is negative |
| SecretMerge.PreserveValues | api/configAPI.py:117-161 | the three-tree recursion that rewrites the merged tree computes `Preserve` |
| SecretMerge.PreserveDict | api/configAPI.py:125-157 | the loop over the payload's keys, in any order |
| SecretMerge.PreserveList | api/configAPI.py:159-161 | the loop over the common length of three lists |
| SecretMerge.PreserveEntry | api/configAPI.py:128-156 | the branches for one key |
| SecretMerge.ProtectedRestored | api/configAPI.py:135-156 | every location with a sensitive key or path and a blank payload value ends as the stored value, "" if absent |
| SecretMerge.OthersUntouched | api/configAPI.py:117-161 | every other location of the merged tree is as it was |
| SecretMerge.NewItemsAsPosted | api/configAPI.py:139-150 | list items without stored counterpart stay as posted |
| SavedPlaces.MergedEverywhere | cw_platform/config_base.py:1111-1119 | the deep merge has what was posted wherever something was, what was stored wherever the payload says nothing, and nothing else |
| SavedPlaces.SavedAt | api/configAPI.py:503-556 | under keys every posted leaf is saved as posted, but one left blank where the save is sensitive keeps its stored value; what is not posted stays as stored |
| SecretMerge.WholeRoundTrip | api/configAPI.py:117-161 | a tree posted whole comes back as stored if and only if it is the stored one with blanks at sensitive keys only, lists included |
| SecretMerge.SaveRoundTrip | api/configAPI.py:503-556 | posting a configuration, in whole or in part, saves exactly the stored one if and only if it is the stored one with blanks at sensitive keys only and no new keys |
| Redaction.RedactShows | cw_platform/config_base.py:851-950 | the masked tree is one that comes back whole if and only if every masked place is sensitive to the save |
| Redaction.SecretRisk | api/configAPI.py:514-554 | of the places the page masks, the save holds sensitive all but pending sign-ins and webhook ids under unknown keys |
| Redaction.ConfigRoundTrip | api/configAPI.py:485-556 | posting the configuration page back saves what was stored if and only if no such value is stored |
| Redaction.PendingSignInLost | cw_platform/config_base.py:856-883 | a pending Simkl sign-in is such a value: its record is replaced by the mask |
| MaskedPlaces.SecretHolders | cw_platform/config_base.py:856-874 | for each secret shared by several providers, which ones hold it |
| MaskedPlaces.SecretOwners | cw_platform/config_base.py:856-874 | which secrets Plex, Simkl and Nuvio hold alone |
| MaskedPlaces.OtherOwners | cw_platform/config_base.py:856-874 | which secrets Stremio, Floppy and TMDb sync hold alone |
| MaskedPlaces.SecretNames | cw_platform/config_base.py:856-874 | no provider has a secret under any other name |
| MaskedPlaces.MaskedLeaves | cw_platform/config_base.py:885-950 | step by step, the places masked unless blank: provider blocks and instances, webhook ids, seven webhook addresses, two-factor secrets |
| MaskedPlaces.MaskedHashes | cw_platform/config_base.py:901-919 | those masked unless false: password hash and salt, token hashes of slot and list |
| MaskedPlaces.MaskedDepth | cw_platform/config_base.py:851-950 | and no others: every masked place is two to five steps down |
| MaskedPlaces.MaskedValues | cw_platform/config_base.py:876-883 | which values are masked there: all but null and blank text, or all that count as true |
| MaskedPlaces.MaskedExactly | cw_platform/config_base.py:851-950 | every such value shows the mask, and every value outside shows as stored, with nothing added or left out |
| MaskedPlaces.SensitiveKeys | api/configAPI.py:514-554 | a key is sensitive if and only if it starts a profile, ends in _token, is one of nine words or has one of fifteen parts: the exception for token_url and token_endpoint is idle |
| MaskedPlaces.SensitivePaths | api/configAPI.py:110-114 | by its place a value is sensitive if and only if its path leads from the webhooks of the scheduling section to one of seven addresses |
| PolicyMerge.MergeBlockLists | api/editorAPI.py:191-203 | the loop with its set of seen keys computes `MergeBlocks` |
| PolicyMerge.BlocksAreUnion | api/editorAPI.py:191-203 | the keys of both sides, none twice, a deduplicated stored list as prefix |
| PolicyMerge.BlocksInFirstSeenOrder | api/editorAPI.py:191-203 | exactly the first appearances of both lists, in order |
| PolicyMerge.BlocksIdempotent | api/editorAPI.py:191-203 | merging the same blocks again changes nothing |
| PolicyMerge.BlocksAssociative | api/editorAPI.py:191-203 | merging three lists does not depend on grouping |
| PolicyMerge.FillFields | api/editorAPI.py:1008-1013 | the loop fills absent and empty fields, in any key order |
| PolicyMerge.MergeManualItem | api/editorAPI.py:1005-1019 | fields and ids of the merged item |
| PolicyMerge.StoredFieldWins | api/editorAPI.py:1009-1013 | a stored field keeps its value if and only if it is not empty or the import has nothing different |
| PolicyMerge.StoredIdsKept | api/editorAPI.py:1014-1018 | stored ids keep their value if and only if the merged ids are empty or the same |
| PolicyMerge.ItemIdempotent | api/editorAPI.py:1005-1019 | merging the same item again adds nothing |
| PolicyMerge.CanonicalizeManualItems | api/editorAPI.py:1041-1053 | the loop that files items under canonical keys computes `Canonical` |
| PolicyMerge.CanonicalUnique | api/editorAPI.py:1041-1053 | no canonical key comes twice |
| PolicyMerge.MergedKeys | api/editorAPI.py:411-414 | the merged table has exactly the keys that stored and imported entries are filed under |
| PolicyMerge.CanonicalField | api/editorAPI.py:1041-1053 | a field of a canonical item is that of the first entry of its key that has it filled |
| PolicyMerge.StoredItemsWin | api/editorAPI.py:411-414 | a stored entry keeps a filled field through an import if and only if it has a key and the first stored entry of that key with the field filled agrees |
| PolicyMerge.ResultSettled | api/editorAPI.py:411-414 | when keys are stable under the merge of items, every merged item is filed under its own key |
| PolicyMerge.ImportTwice | api/editorAPI.py:411-414 | then merging the same items twice equals merging them once |
| PolicyMerge.MovedKeySplits | api/editorAPI.py:411-414 | it does not, in tables of any length, when one key's stored and imported items merge into one that belongs under a key neither table files at |
| PolicyMerge.PolicyTwice | api/editorAPI.py:356-444 | merging the same policy twice equals once when keys are stable, through providers, kinds and instances |
| PolicyPlaces.MergedPlaces | api/editorAPI.py:358-441 | for every provider, instance and kind: what either side has is there and nothing else, a place the import does not name is as stored, and at the others blocks and items are merged with the stored side first |
| PolicyPlaces.MergedItemField | api/editorAPI.py:411-414 | a field of a merged item is that of the first entry of its key that has it filled, stored entries first |
| PolicyPlaces.ItemsInOrder | api/editorAPI.py:411-414 | merged items come in the order in which their keys are first filed at |
| ItemKeys.MergeIdsInPasses | cw_platform/id_map.py:204-220 | the two passes keep for every key the first normal form, stored ids first |
| ItemKeys.IdsTwice | cw_platform/id_map.py:204-220 | merging the same ids again changes nothing if and only if every merged id is its own normal form, or has none and comes again |
| ItemKeys.ZeroIdDoesNotSettle | cw_platform/id_map.py:106-119 | an id whose digits are a zero is kept by the first merge and dropped by the second |
| KeyLaws.MergedIdIs | cw_platform/id_map.py:204-220 | a merged id is the stored one's normal form, else the other's, and is there if and only if one has any |
| KeyLaws.KeyIsBestId | cw_platform/id_map.py:236-246 | an item outside a show is keyed by the first id by priority, from its guid, its ids or a field of its own |
| KeyLaws.KeyOfEpisode | cw_platform/id_map.py:258-281 | an episode is keyed by its show and its season and number in two digits |
| KeyLaws.KeyOfSeason | cw_platform/id_map.py:258-281 | a season is keyed by its show and its number |
| KeyLaws.ShowIsNamed | cw_platform/id_map.py:249-255 | the show is named by the first id by priority among the show's ids |
| KeyLaws.ShowIsOwn | cw_platform/id_map.py:249-255 | without ids of the show, by the item's own |
| KeyLaws.KeyOfTitle | cw_platform/id_map.py:224-233 | without ids an item is keyed by type, title and year, and without a title by one key for all |
| KeyLaws.FiledUnder | api/editorAPI.py:1022-1032 | single viewings in a history list keep an event's key, every other entry its canonical key |
| ItemKeys.SteadyIsStable | cw_platform/id_map.py:249-286 | for movies and shows keyed by ids in normal form, and seasons and episodes that name their show, season and number, keys are stable under the merge of items in all four kinds of list, single viewings apart |
| ItemKeys.SteadyTwice | api/editorAPI.py:411-414 | an import of such items, mixed in any way, can be merged twice without effect |
| ItemKeys.MergedIsPlaced | cw_platform/id_map.py:249-284 | an episode or season that names its show and place keeps its key through every merge with such an item |
| ItemKeys.EpisodeHalvesSplit | cw_platform/id_map.py:258-284 | an episode whose season and number come from two halves moves to another key, and a second import differs |
| ItemKeys.NamelessItemsCollapse | cw_platform/id_map.py:285-286 | of two stored items without ids and title the second loses its rating, even to an empty import |
| PlaylistPlan.PlanReachesKeys | api/editorAPI.py:789-799 | carrying the plan out leaves exactly the desired keys |
| PlaylistPlan.PlanIsMinimal | api/editorAPI.py:794-795 | adds and removes are disjoint and part of every other way to reach the desired keys |
| PlaylistPlan.RejectedWhenImpossible | api/editorAPI.py:787-799 | a save is rejected if and only if the playlist is a smart one or supports no additions and removals that reach the desired keys |
| PlaylistPlan.PlanReachesOrder | api/editorAPI.py:822-825 | on a reorderable playlist the keys end in the submitted order, and no reorder means nothing was added and the order already held |
| PlaylistPlan.ReorderWhenNeeded | api/editorAPI.py:822-825 | a reorder is planned if and only if the playlist can be reordered and taking the removed items out does not leave the submitted list |
| PlaylistPlan.PlanReachesList | api/editorAPI.py:822-825 | without repeated keys the result is exactly the submitted list |
| PlaylistPlan.SingleRemovals | api/editorAPI.py:795-818 | a provider that removes one item per key reaches the keys if and only if no removed key is there twice |
| DevicePoll.NextPace | api/authenticationAPI.py:2664-2695 | the branches after a reply that does not end the loop compute `Paced` |
| DevicePoll.PaceBound | api/authenticationAPI.py:2664-2695 | after k `slow_down` replies the interval is base + 5 k, and the sleep at least the lesser of that and a minute |
| DevicePoll.ShortSleep | api/authenticationAPI.py:2659-2662 | a sleep falls short of the interval if and only if it follows an error while the interval is above a minute |
| DevicePoll.SlowDownForgotten | api/authenticationAPI.py:2685-2688 | such a run exists |
| DevicePoll.SlowDownHeeded | api/authenticationAPI.py:2679-2686 | after `slow_down` the sleep is the longer of the new interval and what the reply asks for |
| DevicePoll.ErrorsDouble | api/authenticationAPI.py:2663-2695 | errors in a row double the sleep each time, up to a minute |
| DevicePoll.IntervalAsked | api/authenticationAPI.py:2636-2648 | the interval is the caller's, else the stored one, when it is at least five seconds |
| DevicePoll.DeadlineIsFirst | api/authenticationAPI.py:2650-2653 | waiting ends with the timeout or when the device code expires, whichever is first |
| DevicePoll.WaitForToken | api/authenticationAPI.py:2636-2697 | the loop ends for every sequence of replies after fewer than (deadline - start) / 5 polls, each sent when its sleep is over, and stops only for a final reply or the deadline |
| DevicePoll.GapsGrow | api/authenticationAPI.py:2636-2697 | after k `slow_down` replies every later gap between polls is at least min(60, base + 5 k) seconds |
| HtmlSection.Find | ui_frontend.py:176-183 | the first occurrence at or after a position, or none |
| HtmlSection.RemoveHtmlSection | ui_frontend.py:175-196 | the loop ends and removes, from the first marker, up to the first closing tag that leaves nothing open and the line ends after it; without such a tag the page is unchanged |
| HtmlSection.RemovalCuts | ui_frontend.py:175-196 | the page gets shorter exactly when a section starts at the marker, by text from the marker to a closing tag and all line ends after it |
| HtmlSection.SliceBalanced | ui_frontend.py:180-195 | the removed slice holds equally many tags if and only if the first tag from the marker on is an opening one, else one closing tag more |
| HtmlSection.StrayClose | ui_frontend.py:180-195 | the second case exists |
| HtmlSection.SliceShortest | ui_frontend.py:180-195 | every shorter slice that opens anything leaves something open |
| HtmlSection.PageBalance | ui_frontend.py:195 | the page's balance changes by that of the slice and of the tags that reach over the cut, exactly |
| HtmlSection.PageStaysBalanced | ui_frontend.py:283-285 | for the markers in use the page keeps its balance if and only if the tags that come to reach over the join balance out |

## Left out

- HTTP plumbing, cookies, headers, audit records and page text: no behaviour that depends on order.
- Networks of other services and cryptography: replies and matching functions are parameters.
- In-place changes of nested dictionaries (`_preserve_sensitive_config_values`, `_merge_policy`) are methods and functions on values; two paths that share one dictionary are not captured.
- `_merge_policy` in replace mode, nodes that are no dictionaries, and the wrapper that clears and refills the stored policy, which in merge mode is the same object.
- Creating an account, new credentials, two-factor changes, linking and unlinking are functions on the configuration (`AuthStore`) without a method beside them.
- The branch of `/credentials` that disables authentication and renames the administrator without checking the name (`RunNames` does not hold across it), the remember-me choices of `/credentials`, forced resets and setup: not part of the runs.
- Self-service in `api/profileAPI.py` (own password, own two-factor, new recovery codes) is not part of this model; it clears sessions with the modelled operation.
- Pending second factors: their time limit and browser nonce are left out, so the model allows more late commits than the code.
- The pending secret of a two-factor setup: `SetTotp` takes any new record, so the model allows more than the code.
- Address, browser and profile fields of a session, permissions and profile checks other than success or failure.
- Fractions of a second, malformed numbers in stored sessions, and the fallback when a stored lifetime is no number.
- The cached answers for trusted proxies and the parsing of addresses: `Net` says which texts are trusted and which parse.
- Two recordings of failures that interleave inside `_rate_limit_fail`, which takes no lock: one of them could be lost.
- Redaction of log lines, plain-text output and mirroring of debug lines (`_append_log`).
- The preferred id of capture runs (an environment variable), and what the key of a single viewing is: `ItemKeys` takes it and the test for such keys as given.
- What the configuration endpoint prunes and completes before it masks.
- The rest of `api_config_save` after the merge: session restoration and normalisation of single sections.
- How `_safe_compute_lanes` counts additions and removals: its results are the input of `BackwardSeries`.
- Provider results other than full success in the playlist endpoint: unresolved items and warnings.
- CreateUser: leaves out the profile check; a request with an unknown profile creates nothing and is no step.
- Overflow of the back-off as a floating-point number after more than a thousand errors in a row.
- MergePolicy: of a node it models the block lists and manual items only; other content of stored nodes, which the code leaves alone, is not there.
